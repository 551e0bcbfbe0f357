/** What does not depend on how reports were grouped, repeated or interleaved. */
module Confluence {
  import opened Options
  import opened Geofence

  // ---------------------------------------------------------------------------
  // The accepted reports of a batch, without the detour over "newest per device"
  // ---------------------------------------------------------------------------

  function Freshest(pos: map<DeviceId, Position>, recs: seq<Record>): map<DeviceId, Record> {
    if recs == [] then map[]
    else
      var m, r := Freshest(pos, recs[..|recs| - 1]), recs[|recs| - 1];
      if Newer(pos, r) && (r.device !in m || r.reported > m[r.device].reported) then m[r.device := r] else m
  }

  lemma {:induction false} FreshestIsFresh(pos: map<DeviceId, Position>, recs: seq<Record>)
    ensures forall d :: d in Freshest(pos, recs) ==>
              Freshest(pos, recs)[d].device == d && Newer(pos, Freshest(pos, recs)[d]) && Freshest(pos, recs)[d] in recs
  {
    if recs != [] { FreshestIsFresh(pos, recs[..|recs| - 1]); }
  }

  lemma {:induction false} AcceptedIsFreshest(pos: map<DeviceId, Position>, recs: seq<Record>)
    ensures Named(Newest(recs)) && Accepted(pos, Newest(recs)) == Freshest(pos, recs)
  {
    NewestIsNewest(recs);
    if recs != [] {
      AcceptedIsFreshest(pos, recs[..|recs| - 1]);
    }
  }

  // ---------------------------------------------------------------------------
  // Replays
  // ---------------------------------------------------------------------------

  /** The stored position already says at least as much as the report. */
  predicate Absorbed(db: DB, r: Record) {
    r.device in db.positions && r.reported <= db.positions[r.device].reported
  }

  lemma BatchAbsorbs(db: DB, recs: seq<Record>, i: nat)
    requires i < |recs|
    ensures Absorbed(ApplyBatch(db, recs), recs[i])
  {
    NewestIsNewest(recs);
  }

  lemma StaysAbsorbed(db: DB, op: Op, r: Record)
    requires Absorbed(db, r)
    ensures Absorbed(Apply(db, op), r)
  {
    if op.Batch? { NewestIsNewest(op.recs); }
  }

  lemma {:induction false} StaysAbsorbedForever(db: DB, ops: seq<Op>, r: Record)
    requires Absorbed(db, r)
    ensures Absorbed(ApplyOps(db, ops), r)
  {
    if ops != [] {
      StaysAbsorbedForever(db, ops[..|ops| - 1], r);
      StaysAbsorbed(ApplyOps(db, ops[..|ops| - 1]), ops[|ops| - 1], r);
    }
  }

  /** Everything about two databases that a report can influence, the track aside. */
  ghost predicate SameEffects(a: DB, b: DB) {
    a.zones == b.zones && a.positions == b.positions && a.presence == b.presence && a.log == b.log
  }

  /** Events and rows are decided by zones, presence and the accepted reports alone. */
  lemma SameDecisions(a: DB, b: DB, acc: map<DeviceId, Record>)
    requires a.zones == b.zones && a.presence == b.presence
    ensures Events(a, acc) == Events(b, acc) && PresenceAfter(a, acc) == PresenceAfter(b, acc)
  {
    forall p ensures EventOf(a, acc, p) == EventOf(b, acc, p) {}
    forall p | Inside(a, acc, p) ensures Inside(b, acc, p) && RowAfter(a, acc, p) == RowAfter(b, acc, p) {}
    forall p | Inside(b, acc, p) ensures Inside(a, acc, p) {}
    assert Candidates(a, acc) == Candidates(b, acc);
  }

  lemma SameAccepted(a: DB, b: DB, recs: seq<Record>, recs': seq<Record>)
    requires SameEffects(a, b) && Freshest(a.positions, recs) == Freshest(a.positions, recs')
    ensures SameEffects(ApplyBatch(a, recs), ApplyBatch(b, recs'))
  {
    AcceptedIsFreshest(a.positions, recs);
    AcceptedIsFreshest(a.positions, recs');
    SameDecisions(a, b, Freshest(a.positions, recs));
  }

  /** Re-applying reports that were committed before, however many batches and zone edits
      ago and in whatever grouping, changes no position, no presence row and no alert. */
  lemma ReplayChangesNothing(db: DB, first: seq<Record>, ops: seq<Op>, again: seq<Record>)
    requires forall i :: 0 <= i < |again| ==> again[i] in first
    ensures var later := ApplyOps(ApplyBatch(db, first), ops);
            SameEffects(ApplyBatch(later, again), later)
  {
    var later := ApplyOps(ApplyBatch(db, first), ops);
    forall i | 0 <= i < |again| ensures Absorbed(later, again[i]) {
      var k :| 0 <= k < |first| && first[k] == again[i];
      BatchAbsorbs(db, first, k);
      StaysAbsorbedForever(ApplyBatch(db, first), ops, again[i]);
    }
    AbsorbedBatch(later, again);
  }

  lemma {:induction false} NothingFresh(pos: map<DeviceId, Position>, recs: seq<Record>)
    requires forall i :: 0 <= i < |recs| ==> !Newer(pos, recs[i])
    ensures Freshest(pos, recs) == map[]
  {
    if recs != [] { NothingFresh(pos, recs[..|recs| - 1]); }
  }

  lemma AbsorbedBatch(db: DB, recs: seq<Record>)
    requires forall i :: 0 <= i < |recs| ==> Absorbed(db, recs[i])
    ensures SameEffects(ApplyBatch(db, recs), db)
  {
    NothingFresh(db.positions, recs);
    AcceptedIsFreshest(db.positions, recs);
    var acc := Freshest(db.positions, recs);
    assert Events(db, acc) == map[];
    assert PresenceAfter(db, acc) == db.presence;
    assert db.positions + Stored(acc) == db.positions;
  }

  // ---------------------------------------------------------------------------
  // Any split into batches
  // ---------------------------------------------------------------------------

  /** Positions after the reports one at a time. */
  function Positions(pos: map<DeviceId, Position>, recs: seq<Record>): map<DeviceId, Position> {
    if recs == [] then pos
    else
      var p, r := Positions(pos, recs[..|recs| - 1]), recs[|recs| - 1];
      if Newer(p, r) then p[r.device := PositionOf(r)] else p
  }

  function ZonesAround(zones: map<ZoneId, Zone>, r: Record): set<Pair> {
    set z | z in zones && zones[z].area(r.at) :: Pair(z, r.device)
  }

  /** Presence pairs after the reports one at a time: an accepted report replaces all pairs
      of its device. */
  function Pairs(zones: map<ZoneId, Zone>, pos: map<DeviceId, Position>, pairs: set<Pair>, recs: seq<Record>)
    : set<Pair>
  {
    if recs == [] then pairs
    else
      var init, r := recs[..|recs| - 1], recs[|recs| - 1];
      var before := Pairs(zones, pos, pairs, init);
      if Newer(Positions(pos, init), r)
      then (set p | p in before && p.device != r.device) + ZonesAround(zones, r)
      else before
  }

  lemma {:induction false} BatchPositions(pos: map<DeviceId, Position>, recs: seq<Record>)
    ensures pos + Stored(Freshest(pos, recs)) == Positions(pos, recs)
  {
    if recs == [] {
      assert pos + Stored(Freshest(pos, recs)) == pos;
    } else {
      var init, r := recs[..|recs| - 1], recs[|recs| - 1];
      BatchPositions(pos, init);
      FreshestIsFresh(pos, init);
      var m, m' := Freshest(pos, init), Freshest(pos, recs);
      if m' != m {
        assert pos + Stored(m') == (pos + Stored(m))[r.device := PositionOf(r)];
      }
    }
  }

  lemma {:induction false} BatchPairs(zones: map<ZoneId, Zone>, pos: map<DeviceId, Position>, pairs: set<Pair>,
                                      recs: seq<Record>, p: Pair)
    ensures p in Pairs(zones, pos, pairs, recs) <==>
              var acc := Freshest(pos, recs);
              if p.device in acc then p.zone in zones && zones[p.zone].area(acc[p.device].at) else p in pairs
  {
    if recs != [] {
      var init, r := recs[..|recs| - 1], recs[|recs| - 1];
      BatchPairs(zones, pos, pairs, init, p);
      BatchPositions(pos, init);
      FreshestIsFresh(pos, init);
      assert p in ZonesAround(zones, r) <==> p.device == r.device && p.zone in zones && zones[p.zone].area(r.at);
    }
  }

  /** One batch leaves the positions and the presence pairs of its reports taken singly. */
  lemma BatchIsSingles(db: DB, recs: seq<Record>)
    requires Rooted(db)
    ensures ApplyBatch(db, recs).positions == Positions(db.positions, recs)
    ensures ApplyBatch(db, recs).presence.Keys == Pairs(db.zones, db.positions, db.presence.Keys, recs)
    ensures ApplyBatch(db, recs).history == Archive(db.history, recs)
  {
    AcceptedIsFreshest(db.positions, recs);
    BatchPositions(db.positions, recs);
    var after, acc := ApplyBatch(db, recs), Freshest(db.positions, recs);
    forall p ensures p in after.presence <==> p in Pairs(db.zones, db.positions, db.presence.Keys, recs) {
      BatchPairs(db.zones, db.positions, db.presence.Keys, recs, p);
      assert p in after.presence <==> p in Candidates(db, acc) && Inside(db, acc, p);
    }
  }

  function Concat(batches: seq<seq<Record>>): seq<Record> {
    if batches == [] then [] else Concat(batches[..|batches| - 1]) + batches[|batches| - 1]
  }

  ghost function ApplyBatches(db: DB, batches: seq<seq<Record>>): DB {
    if batches == [] then db
    else ApplyBatch(ApplyBatches(db, batches[..|batches| - 1]), batches[|batches| - 1])
  }

  lemma {:induction false} PositionsAppend(pos: map<DeviceId, Position>, a: seq<Record>, b: seq<Record>)
    ensures Positions(pos, a + b) == Positions(Positions(pos, a), b)
  {
    if b == [] {
      assert a + b == a;
    } else {
      PositionsAppend(pos, a, b[..|b| - 1]);
      assert (a + b)[..|a + b| - 1] == a + b[..|b| - 1];
    }
  }

  lemma {:induction false} PairsAppend(zones: map<ZoneId, Zone>, pos: map<DeviceId, Position>, pairs: set<Pair>,
                                       a: seq<Record>, b: seq<Record>)
    ensures Pairs(zones, pos, pairs, a + b) == Pairs(zones, Positions(pos, a), Pairs(zones, pos, pairs, a), b)
  {
    if b == [] {
      assert a + b == a;
    } else {
      PairsAppend(zones, pos, pairs, a, b[..|b| - 1]);
      PositionsAppend(pos, a, b[..|b| - 1]);
      assert (a + b)[..|a + b| - 1] == a + b[..|b| - 1];
    }
  }

  lemma {:induction false} ArchiveAppend(history: map<(DeviceId, int), Record>, a: seq<Record>, b: seq<Record>)
    ensures Archive(history, a + b) == Archive(Archive(history, a), b)
  {
    if b == [] {
      assert a + b == a;
    } else {
      ArchiveAppend(history, a, b[..|b| - 1]);
      assert (a + b)[..|a + b| - 1] == a + b[..|b| - 1];
    }
  }

  lemma {:induction false} AnySplit(db: DB, batches: seq<seq<Record>>)
    requires Rooted(db)
    ensures var out, recs := ApplyBatches(db, batches), Concat(batches);
            && Rooted(out) && out.zones == db.zones
            && out.positions == Positions(db.positions, recs)
            && out.presence.Keys == Pairs(db.zones, db.positions, db.presence.Keys, recs)
            && out.history == Archive(db.history, recs)
  {
    if batches != [] {
      var init, last := batches[..|batches| - 1], batches[|batches| - 1];
      AnySplit(db, init);
      BatchIsSingles(ApplyBatches(db, init), last);
      ApplyKeepsRooted(ApplyBatches(db, init), Batch(last));
      PositionsAppend(db.positions, Concat(init), last);
      PairsAppend(db.zones, db.positions, db.presence.Keys, Concat(init), last);
      ArchiveAppend(db.history, Concat(init), last);
    }
  }

  /** Batching is confluent: two ways of cutting the same report list into batches end with
      the same positions, the same presence pairs and the same track. */
  lemma BatchingIsConfluent(db: DB, one: seq<seq<Record>>, other: seq<seq<Record>>)
    requires Rooted(db) && Concat(one) == Concat(other)
    ensures var a, b := ApplyBatches(db, one), ApplyBatches(db, other);
            a.positions == b.positions && a.presence.Keys == b.presence.Keys && a.history == b.history
  {
    AnySplit(db, one);
    AnySplit(db, other);
  }
}
