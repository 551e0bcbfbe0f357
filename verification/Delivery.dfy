/** One shard's stream, its consumers and its lease: at-least-once delivery with crashes,
    handovers and overlapping owners, and the exactly-once effects that come of it. */
module Delivery {
  import opened Options
  import opened Geofence
  import opened Confluence

  type EntryId = nat
  type Replica = nat

  datatype Payload = Good(record: Record) | Garbage

  datatype Entry = Entry(id: EntryId, payload: Payload)

  /** What the schema can hold: a well-formed device id and a time inside the window. */
  datatype Limits = Limits(retentionMs: nat, skewMs: nat, wellNamed: DeviceId -> bool)

  predicate Storable(limits: Limits, now: int, r: Record) {
    && limits.wellNamed(r.device)
    && now - limits.retentionMs <= r.reported <= now + limits.skewMs
  }

  predicate Keeps(limits: Limits, now: int, e: Entry) {
    e.payload.Good? && Storable(limits, now, e.payload.record)
  }

  /** The entries of a batch that are applied, and the others, in stream order. */
  function Kept(limits: Limits, now: int, batch: seq<Entry>): (r: seq<Entry>)
    ensures forall e :: e in r <==> e in batch && Keeps(limits, now, e)
  {
    if batch == [] then []
    else Kept(limits, now, batch[..|batch| - 1])
         + if Keeps(limits, now, batch[|batch| - 1]) then [batch[|batch| - 1]] else []
  }

  function DeadIds(limits: Limits, now: int, batch: seq<Entry>): set<EntryId> {
    set e | e in batch && !Keeps(limits, now, e) :: e.id
  }

  predicate AllGood(batch: seq<Entry>) {
    forall i :: 0 <= i < |batch| ==> batch[i].payload.Good?
  }

  function RecordsOf(batch: seq<Entry>): seq<Record>
    requires AllGood(batch)
  {
    seq(|batch|, i requires 0 <= i < |batch| => batch[i].payload.record)
  }

  lemma KeptAreGood(limits: Limits, now: int, batch: seq<Entry>)
    ensures AllGood(Kept(limits, now, batch))
  {
    forall i | 0 <= i < |Kept(limits, now, batch)| ensures Kept(limits, now, batch)[i].payload.Good? {
      assert Kept(limits, now, batch)[i] in batch && Keeps(limits, now, Kept(limits, now, batch)[i]);
    }
  }

  // ---------------------------------------------------------------------------
  // What the consumer computes from a batch
  // ---------------------------------------------------------------------------

  /** Decode a batch, remembering which entry each record came from. */
  method Decode(batch: seq<Entry>) returns (records: seq<Record>, sources: seq<EntryId>, dead: seq<EntryId>)
    ensures |records| == |sources| == |GoodOnes(batch)|
    ensures forall i :: 0 <= i < |records| ==>
              GoodOnes(batch)[i] == Entry(sources[i], Good(records[i]))
    ensures forall id :: id in dead <==> exists e :: e in batch && e.payload.Garbage? && e.id == id
  {
    records, sources, dead := [], [], [];
    for k := 0 to |batch|
      invariant |records| == |sources| == |GoodOnes(batch[..k])|
      invariant forall i :: 0 <= i < |records| ==> GoodOnes(batch[..k])[i] == Entry(sources[i], Good(records[i]))
      invariant forall id :: id in dead <==> exists e :: e in batch[..k] && e.payload.Garbage? && e.id == id
    {
      assert batch[..k + 1][..k] == batch[..k];
      assert batch[..k + 1] == batch[..k] + [batch[k]];
      match batch[k].payload {
        case Garbage =>
          dead := dead + [batch[k].id];
          assert batch[k] in batch[..k + 1];
        case Good(record) =>
          records, sources := records + [record], sources + [batch[k].id];
      }
    }
    assert batch[..|batch|] == batch;
  }

  function GoodOnes(batch: seq<Entry>): seq<Entry> {
    if batch == [] then []
    else GoodOnes(batch[..|batch| - 1]) + if batch[|batch| - 1].payload.Good? then [batch[|batch| - 1]] else []
  }

  lemma {:induction false} GoodOnesAre(batch: seq<Entry>)
    ensures forall e :: e in GoodOnes(batch) <==> e in batch && e.payload.Good?
  {
    if batch != [] { GoodOnesAre(batch[..|batch| - 1]); }
  }

  lemma KeptAppend(limits: Limits, now: int, batch: seq<Entry>, e: Entry)
    ensures Kept(limits, now, batch + [e]) == Kept(limits, now, batch) + if Keeps(limits, now, e) then [e] else []
  {
    assert (batch + [e])[..|batch|] == batch;
  }

  lemma {:induction false} KeptOfGood(limits: Limits, now: int, batch: seq<Entry>)
    ensures Kept(limits, now, GoodOnes(batch)) == Kept(limits, now, batch)
  {
    if batch != [] {
      var init, last := batch[..|batch| - 1], batch[|batch| - 1];
      KeptOfGood(limits, now, init);
      assert batch == init + [last];
      KeptAppend(limits, now, init, last);
      if last.payload.Good? {
        KeptAppend(limits, now, GoodOnes(init), last);
      } else {
        assert GoodOnes(batch) == GoodOnes(init);
      }
    }
  }

  /** Sort the storable records out and note the index of every other. */
  method SplitStorable(limits: Limits, now: int, records: seq<Record>, ghost entries: seq<Entry>)
    returns (storable: seq<Record>, rejected: seq<nat>)
    requires |entries| == |records| && forall i :: 0 <= i < |records| ==> entries[i].payload == Good(records[i])
    ensures AllGood(Kept(limits, now, entries)) && storable == RecordsOf(Kept(limits, now, entries))
    ensures forall i: nat :: i in rejected <==> i < |records| && !Storable(limits, now, records[i])
    ensures forall i: nat :: i in rejected <==>
              && i < |records|
              && (!limits.wellNamed(records[i].device)
                  || records[i].reported < now - limits.retentionMs
                  || records[i].reported > now + limits.skewMs)
  {
    storable, rejected := [], [];
    KeptAreGood(limits, now, []);
    for k := 0 to |records|
      invariant AllGood(Kept(limits, now, entries[..k])) && storable == RecordsOf(Kept(limits, now, entries[..k]))
      invariant forall i: nat :: i in rejected <==> i < k && !Storable(limits, now, records[i])
    {
      assert entries[..k + 1][..k] == entries[..k];
      KeptAreGood(limits, now, entries[..k + 1]);
      if Storable(limits, now, records[k]) {
        storable := storable + [records[k]];
      } else {
        rejected := rejected + [k];
      }
    }
    assert entries[..|entries|] == entries;
  }

  /** The entry ids of the rejected records. */
  function Traced(rejected: seq<nat>, sources: seq<EntryId>): seq<EntryId>
    requires forall i :: i in rejected ==> i < |sources|
  {
    seq(|rejected|, k requires 0 <= k < |rejected| => assert rejected[k] in rejected; sources[rejected[k]])
  }

  lemma TracedIds(rejected: seq<nat>, sources: seq<EntryId>, id: EntryId)
    requires forall i :: i in rejected ==> i < |sources|
    ensures id in Traced(rejected, sources) <==> exists i :: i in rejected && sources[i] == id
  {
    if i :| i in rejected && sources[i] == id {
      var k :| 0 <= k < |rejected| && rejected[k] == i;
      assert Traced(rejected, sources)[k] == id;
    }
    if id in Traced(rejected, sources) {
      var k :| 0 <= k < |rejected| && Traced(rejected, sources)[k] == id;
      assert rejected[k] in rejected;
    }
  }

  /** An entry is dead exactly when it does not decode or its record is rejected. */
  lemma DeadOnes(limits: Limits, now: int, batch: seq<Entry>, records: seq<Record>, sources: seq<EntryId>, id: EntryId)
    requires |records| == |sources| == |GoodOnes(batch)|
    requires forall i :: 0 <= i < |records| ==> GoodOnes(batch)[i] == Entry(sources[i], Good(records[i]))
    ensures id in DeadIds(limits, now, batch) <==>
              || (exists e :: e in batch && e.payload.Garbage? && e.id == id)
              || (exists i :: 0 <= i < |records| && !Storable(limits, now, records[i]) && sources[i] == id)
  {
    var good := GoodOnes(batch);
    GoodOnesAre(batch);
    if id in DeadIds(limits, now, batch) {
      var e :| e in batch && !Keeps(limits, now, e) && e.id == id;
      if e.payload.Good? {
        var i :| 0 <= i < |good| && good[i] == e;
        assert !Storable(limits, now, records[i]) && sources[i] == id;
      }
    }
    if i :| 0 <= i < |records| && !Storable(limits, now, records[i]) && sources[i] == id {
      assert good[i] in batch && !Keeps(limits, now, good[i]);
    }
  }

  /** Decode and split; every reject leads to its own entry. */
  method Triage(limits: Limits, now: int, batch: seq<Entry>) returns (storable: seq<Record>, dead: seq<EntryId>)
    ensures AllGood(Kept(limits, now, batch)) && storable == RecordsOf(Kept(limits, now, batch))
    ensures forall id :: id in dead <==> id in DeadIds(limits, now, batch)
  {
    var records, sources, undecodable := Decode(batch);
    var rejected: seq<nat>;
    storable, rejected := SplitStorable(limits, now, records, GoodOnes(batch));
    dead := undecodable + Traced(rejected, sources);
    KeptOfGood(limits, now, batch);
    forall id ensures id in dead <==> id in DeadIds(limits, now, batch) {
      TracedIds(rejected, sources, id);
      DeadOnes(limits, now, batch, records, sources, id);
    }
  }

  // ---------------------------------------------------------------------------
  // The effects of a sequence of commits
  // ---------------------------------------------------------------------------

  /** A committed batch of stream entries, or anything else that changes the database. */
  datatype Effect = Commit(entries: seq<Entry>) | Other(op: Op)

  ghost predicate Sound(effects: seq<Effect>) {
    forall i :: 0 <= i < |effects| && effects[i].Commit? ==> AllGood(effects[i].entries)
  }

  ghost function Act(db: DB, f: Effect): DB
    requires f.Commit? ==> AllGood(f.entries)
  {
    match f
    case Commit(entries) => ApplyBatch(db, RecordsOf(entries))
    case Other(op) => Apply(db, op)
  }

  ghost function Replay(db: DB, effects: seq<Effect>): DB
    requires Sound(effects)
  {
    if effects == [] then db else Act(Replay(db, effects[..|effects| - 1]), effects[|effects| - 1])
  }

  function Ids(entries: seq<Entry>): set<EntryId> {
    set e | e in entries :: e.id
  }

  function CommittedIds(effects: seq<Effect>): set<EntryId> {
    if effects == [] then {}
    else CommittedIds(effects[..|effects| - 1])
         + if effects[|effects| - 1].Commit? then Ids(effects[|effects| - 1].entries) else {}
  }

  function Without(entries: seq<Entry>, ids: set<EntryId>): seq<Entry> {
    if entries == [] then []
    else Without(entries[..|entries| - 1], ids)
         + if entries[|entries| - 1].id in ids then [] else [entries[|entries| - 1]]
  }

  /** The same effects with every entry kept only where it was committed first. */
  function Once(effects: seq<Effect>): seq<Effect> {
    if effects == [] then []
    else
      var init, last := effects[..|effects| - 1], effects[|effects| - 1];
      Once(init) + [if last.Commit? then Commit(Without(last.entries, CommittedIds(init))) else last]
  }

  ghost predicate Apart(effects: seq<Effect>) {
    forall i, j :: 0 <= i < j < |effects| && effects[i].Commit? && effects[j].Commit? ==>
      Ids(effects[i].entries) !! Ids(effects[j].entries)
  }

  lemma {:induction false} IdsAreCommitted(effects: seq<Effect>, i: nat)
    requires i < |effects| && effects[i].Commit?
    ensures Ids(effects[i].entries) <= CommittedIds(effects)
  {
    if i < |effects| - 1 {
      IdsAreCommitted(effects[..|effects| - 1], i);
      assert effects[..|effects| - 1][i] == effects[i];
    }
  }

  /** The history without repeats is one: it commits the same entries, and none of them twice. */
  lemma {:induction false} OnceIsOnce(effects: seq<Effect>)
    ensures |Once(effects)| == |effects| && Apart(Once(effects))
    ensures CommittedIds(Once(effects)) == CommittedIds(effects)
  {
    if effects != [] {
      var init, last := effects[..|effects| - 1], effects[|effects| - 1];
      OnceIsOnce(init);
      var once, kept := Once(init), Once(effects)[|effects| - 1];
      assert Once(effects)[..|effects| - 1] == once;
      if last.Commit? {
        var ids := CommittedIds(init);
        WithoutSubset(last.entries, ids);
        forall i | 0 <= i < |once| && once[i].Commit? ensures Ids(once[i].entries) !! Ids(kept.entries) {
          IdsAreCommitted(once, i);
        }
        OnlyNewIds(last.entries, ids);
      }
      forall i, j | 0 <= i < j < |effects| && Once(effects)[i].Commit? && Once(effects)[j].Commit?
        ensures Ids(Once(effects)[i].entries) !! Ids(Once(effects)[j].entries)
      {
        assert Once(effects)[i] == once[i];
        if j < |once| { assert Once(effects)[j] == once[j]; }
      }
    }
  }

  lemma OnlyNewIds(entries: seq<Entry>, ids: set<EntryId>)
    ensures ids + Ids(Without(entries, ids)) == ids + Ids(entries)
  {
    WithoutSubset(entries, ids);
    forall e | e in entries && e.id !in ids ensures e.id in Ids(Without(entries, ids)) {
      assert e in Without(entries, ids);
    }
  }

  /** An entry id always stands for the payload it was added with. */
  ghost predicate Faithful(effects: seq<Effect>, origin: map<EntryId, Payload>) {
    forall i, e :: 0 <= i < |effects| && effects[i].Commit? && e in effects[i].entries ==>
      e.id in origin && origin[e.id] == e.payload
  }

  lemma {:induction false} WithoutSubset(entries: seq<Entry>, ids: set<EntryId>)
    ensures forall e :: e in Without(entries, ids) <==> e in entries && e.id !in ids
    ensures AllGood(entries) ==> AllGood(Without(entries, ids))
  {
    if entries != [] {
      WithoutSubset(entries[..|entries| - 1], ids);
    }
  }

  lemma {:induction false} OnceIsSound(effects: seq<Effect>)
    requires Sound(effects)
    ensures Sound(Once(effects)) && |Once(effects)| == |effects|
  {
    if effects != [] {
      var init, last := effects[..|effects| - 1], effects[|effects| - 1];
      OnceIsSound(init);
      if last.Commit? { WithoutSubset(last.entries, CommittedIds(init)); }
    }
  }

  lemma RecordsSnoc(entries: seq<Entry>, e: Entry)
    requires AllGood(entries + [e]) && e.payload.Good?
    ensures AllGood(entries) && RecordsOf(entries + [e]) == RecordsOf(entries) + [e.payload.record]
  {
    assert (entries + [e])[|entries|] == e;
    forall i | 0 <= i < |entries| ensures entries[i].payload.Good? { assert (entries + [e])[i] == entries[i]; }
  }

  lemma FreshestSnoc(pos: map<DeviceId, Position>, recs: seq<Record>, r: Record)
    ensures Freshest(pos, recs + [r]) ==
              var m := Freshest(pos, recs);
              if Newer(pos, r) && (r.device !in m || r.reported > m[r.device].reported) then m[r.device := r] else m
  {
    assert (recs + [r])[..|recs|] == recs;
  }

  lemma {:induction false} DroppingAbsorbed(pos: map<DeviceId, Position>, entries: seq<Entry>, ids: set<EntryId>)
    requires AllGood(entries) && AllGood(Without(entries, ids))
    requires forall e :: e in entries && e.id in ids ==> !Newer(pos, e.payload.record)
    ensures Freshest(pos, RecordsOf(entries)) == Freshest(pos, RecordsOf(Without(entries, ids)))
  {
    if entries != [] {
      var init, last := entries[..|entries| - 1], entries[|entries| - 1];
      assert entries == init + [last];
      RecordsSnoc(init, last);
      FreshestSnoc(pos, RecordsOf(init), last.payload.record);
      WithoutSubset(init, ids);
      DroppingAbsorbed(pos, init, ids);
      if last.id in ids {
        assert Without(entries, ids) == Without(init, ids);
      } else {
        RecordsSnoc(Without(init, ids), last);
        FreshestSnoc(pos, RecordsOf(Without(init, ids)), last.payload.record);
      }
    }
  }

  lemma {:induction false} CommittedIsAbsorbed(db: DB, effects: seq<Effect>, origin: map<EntryId, Payload>, id: EntryId)
    requires Sound(effects) && Faithful(effects, origin) && id in CommittedIds(effects)
    ensures id in origin && origin[id].Good? && Absorbed(Replay(db, effects), origin[id].record)
  {
    var init, last := effects[..|effects| - 1], effects[|effects| - 1];
    var before := Replay(db, init);
    if id in CommittedIds(init) {
      assert Faithful(init, origin) by {
        forall i, e | 0 <= i < |init| && init[i].Commit? && e in init[i].entries
          ensures e.id in origin && origin[e.id] == e.payload { assert effects[i] == init[i]; }
      }
      CommittedIsAbsorbed(db, init, origin, id);
      StaysAbsorbed(before, if last.Commit? then Batch(RecordsOf(last.entries)) else last.op, origin[id].record);
    } else {
      var e :| e in last.entries && e.id == id;
      var k :| 0 <= k < |last.entries| && last.entries[k] == e;
      BatchAbsorbs(before, RecordsOf(last.entries), k);
    }
  }

  /** Exactly-once effects: whatever was delivered again, and with whatever other batches
      and zone edits in between, the database reads as if every entry had been committed
      once, the first time. */
  lemma {:induction false} ExactlyOnceEffects(db: DB, effects: seq<Effect>, origin: map<EntryId, Payload>)
    requires Sound(effects) && Faithful(effects, origin)
    ensures Sound(Once(effects)) && SameEffects(Replay(db, effects), Replay(db, Once(effects)))
  {
    OnceIsSound(effects);
    if effects != [] {
      var init, last := effects[..|effects| - 1], effects[|effects| - 1];
      assert Faithful(init, origin) by {
        forall i, e | 0 <= i < |init| && init[i].Commit? && e in init[i].entries
          ensures e.id in origin && origin[e.id] == e.payload { assert effects[i] == init[i]; }
      }
      ExactlyOnceEffects(db, init, origin);
      assert Once(effects)[..|effects| - 1] == Once(init);
      var a, b := Replay(db, init), Replay(db, Once(init));
      match last {
        case Commit(entries) =>
          var ids := CommittedIds(init);
          WithoutSubset(entries, ids);
          forall e | e in entries && e.id in ids ensures !Newer(a.positions, e.payload.record) {
            CommittedIsAbsorbed(db, init, origin, e.id);
            assert last == effects[|effects| - 1] && origin[e.id] == e.payload;
          }
          DroppingAbsorbed(a.positions, entries, ids);
          SameAccepted(a, b, RecordsOf(entries), RecordsOf(Without(entries, ids)));
        case Other(op) => SameUnderOp(a, b, op);
      }
    }
  }

  lemma SameUnderOp(a: DB, b: DB, op: Op)
    requires SameEffects(a, b)
    ensures SameEffects(Apply(a, op), Apply(b, op))
  {
    if op.Batch? { SameAccepted(a, b, op.recs, op.recs); }
  }
}
