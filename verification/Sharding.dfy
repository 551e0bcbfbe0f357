/** Shards are independent: a device's fate depends on its own shard's batches only. */
module Sharding {
  import opened Options
  import opened Geofence
  import opened Confluence

  function OfDevice(d: DeviceId): Event -> bool {
    (e: Event) => e.pair.device == d
  }

  /** The events of one device, in order. */
  function EventsOf(log: seq<Event>, d: DeviceId): seq<Event> {
    Keep(log, OfDevice(d))
  }

  /** Two databases that agree on everything about one device. */
  ghost predicate SameFor(d: DeviceId, a: DB, b: DB) {
    && (d in a.positions <==> d in b.positions)
    && (d in a.positions ==> a.positions[d] == b.positions[d])
    && (forall z :: Pair(z, d) in a.presence <==> Pair(z, d) in b.presence)
    && (forall z :: Pair(z, d) in a.presence ==> a.presence[Pair(z, d)] == b.presence[Pair(z, d)])
    && EventsOf(a.log, d) == EventsOf(b.log, d)
    && (forall t :: (d, t) in a.history <==> (d, t) in b.history)
    && (forall t :: (d, t) in a.history ==> a.history[(d, t)] == b.history[(d, t)])
  }

  lemma {:induction false} ArchiveOther(history: map<(DeviceId, int), Record>, recs: seq<Record>, d: DeviceId)
    requires d !in DevicesOf(recs)
    ensures forall t :: (d, t) in Archive(history, recs) <==> (d, t) in history
    ensures forall t :: (d, t) in history ==> Archive(history, recs)[(d, t)] == history[(d, t)]
  {
    if recs != [] {
      var init := recs[..|recs| - 1];
      assert forall i :: 0 <= i < |init| ==> init[i].device in DevicesOf(recs) by {
        forall i | 0 <= i < |init| ensures init[i].device in DevicesOf(recs) { assert init[i] == recs[i]; }
      }
      assert recs[|recs| - 1].device in DevicesOf(recs);
      ArchiveOther(history, init, d);
    }
  }

  lemma {:induction false} ArchiveSame(a: map<(DeviceId, int), Record>, b: map<(DeviceId, int), Record>,
                                       recs: seq<Record>, d: DeviceId)
    requires forall t :: (d, t) in a <==> (d, t) in b
    requires forall t :: (d, t) in a ==> a[(d, t)] == b[(d, t)]
    ensures forall t :: (d, t) in Archive(a, recs) <==> (d, t) in Archive(b, recs)
    ensures forall t :: (d, t) in Archive(a, recs) ==> Archive(a, recs)[(d, t)] == Archive(b, recs)[(d, t)]
  {
    if recs != [] { ArchiveSame(a, b, recs[..|recs| - 1], d); }
  }

  /** The events of a batch that concern one device. */
  lemma DeviceEvents(db: DB, acc: map<DeviceId, Record>, d: DeviceId, m: map<Pair, Event>)
    requires m == Those(Events(db, acc), OfDevice(d))
    ensures Keyed(Events(db, acc)) && Keyed(m)
    ensures EventsOf(db.log + Sorted(Events(db, acc)), d) == EventsOf(db.log, d) + Sorted(m)
  {
    EventsKeyed(db, acc);
    KeepAppend(db.log, Sorted(Events(db, acc)), OfDevice(d));
    KeepSorted(Events(db, acc), OfDevice(d));
  }

  lemma AcceptedFor(pos: map<DeviceId, Position>, pos': map<DeviceId, Position>,
                    newest: map<DeviceId, Record>, d: DeviceId)
    requires Named(newest)
    requires d in pos <==> d in pos'
    requires d in pos ==> pos[d] == pos'[d]
    ensures d in Accepted(pos, newest) <==> d in Accepted(pos', newest)
    ensures d in Accepted(pos, newest) ==> Accepted(pos, newest)[d] == Accepted(pos', newest)[d]
  {
  }

  /** What happens to one device in one zone is decided by what is known about the device. */
  lemma PairDecisions(a: DB, b: DB, acc: map<DeviceId, Record>, acc': map<DeviceId, Record>, z: ZoneId, d: DeviceId)
    requires a.zones == b.zones && SameFor(d, a, b)
    requires d in acc <==> d in acc'
    requires d in acc ==> acc[d] == acc'[d]
    ensures EventOf(a, acc, Pair(z, d)) == EventOf(b, acc', Pair(z, d))
    ensures Pair(z, d) in Candidates(a, acc) <==> Pair(z, d) in Candidates(b, acc')
    ensures Inside(a, acc, Pair(z, d)) <==> Inside(b, acc', Pair(z, d))
    ensures Inside(a, acc, Pair(z, d)) ==> RowAfter(a, acc, Pair(z, d)) == RowAfter(b, acc', Pair(z, d))
  {
    assert Pair(z, d) in a.presence <==> Pair(z, d) in b.presence;
  }

  lemma DecisionsFor(a: DB, b: DB, acc: map<DeviceId, Record>, acc': map<DeviceId, Record>, d: DeviceId)
    requires a.zones == b.zones && SameFor(d, a, b)
    requires d in acc <==> d in acc'
    requires d in acc ==> acc[d] == acc'[d]
    ensures Those(Events(a, acc), OfDevice(d)) == Those(Events(b, acc'), OfDevice(d))
    ensures forall z :: Pair(z, d) in PresenceAfter(a, acc) <==> Pair(z, d) in PresenceAfter(b, acc')
    ensures forall z :: Pair(z, d) in PresenceAfter(a, acc) ==>
              PresenceAfter(a, acc)[Pair(z, d)] == PresenceAfter(b, acc')[Pair(z, d)]
  {
    forall z
      ensures Pair(z, d) in PresenceAfter(a, acc) <==> Pair(z, d) in PresenceAfter(b, acc')
      ensures Pair(z, d) in PresenceAfter(a, acc) ==>
                PresenceAfter(a, acc)[Pair(z, d)] == PresenceAfter(b, acc')[Pair(z, d)]
    {
      PairDecisions(a, b, acc, acc', z, d);
    }
    SameThose(a, b, acc, acc', d);
  }

  lemma SameThose(a: DB, b: DB, acc: map<DeviceId, Record>, acc': map<DeviceId, Record>, d: DeviceId)
    requires a.zones == b.zones && SameFor(d, a, b)
    requires d in acc <==> d in acc'
    requires d in acc ==> acc[d] == acc'[d]
    ensures Those(Events(a, acc), OfDevice(d)) == Those(Events(b, acc'), OfDevice(d))
  {
    var ea, eb := Events(a, acc), Events(b, acc');
    EventsKeyed(a, acc);
    EventsKeyed(b, acc');
    forall p: Pair | p.device == d ensures (p in ea <==> p in eb) && (p in ea ==> ea[p] == eb[p]) {
      PairDecisions(a, b, acc, acc', p.zone, d);
      assert p == Pair(p.zone, d);
    }
    SelectionsAgree(ea, eb, d);
  }

  lemma SelectionsAgree(ea: map<Pair, Event>, eb: map<Pair, Event>, d: DeviceId)
    requires Keyed(ea) && Keyed(eb)
    requires forall p: Pair :: p.device == d ==> (p in ea <==> p in eb)
    requires forall p: Pair :: p.device == d && p in ea ==> ea[p] == eb[p]
    ensures Those(ea, OfDevice(d)) == Those(eb, OfDevice(d))
  {
    var ta, tb := Those(ea, OfDevice(d)), Those(eb, OfDevice(d));
    forall p: Pair ensures (p in ta <==> p in tb) && (p in ta ==> ta[p] == tb[p]) {}
  }

  /** A batch treats one device alike in databases that agree on it. */
  lemma BatchIsLocal(a: DB, b: DB, recs: seq<Record>, d: DeviceId)
    requires a.zones == b.zones && SameFor(d, a, b)
    ensures SameFor(d, ApplyBatch(a, recs), ApplyBatch(b, recs))
  {
    NewestIsNewest(recs);
    var acc, acc' := Accepted(a.positions, Newest(recs)), Accepted(b.positions, Newest(recs));
    AcceptedFor(a.positions, b.positions, Newest(recs), d);
    DecisionsFor(a, b, acc, acc', d);
    DeviceEvents(a, acc, d, Those(Events(a, acc), OfDevice(d)));
    DeviceEvents(b, acc', d, Those(Events(b, acc'), OfDevice(d)));
    ArchiveSame(a.history, b.history, recs, d);
  }

  /** A batch without reports of a device leaves it alone. */
  lemma BatchIsElsewhere(db: DB, recs: seq<Record>, d: DeviceId)
    requires d !in DevicesOf(recs)
    ensures SameFor(d, db, ApplyBatch(db, recs))
  {
    NewestIsNewest(recs);
    var acc := Accepted(db.positions, Newest(recs));
    assert d !in acc;
    var none := Those(Events(db, acc), OfDevice(d));
    EventsKeyed(db, acc);
    assert none == map[];
    DeviceEvents(db, acc, d, none);
    ArchiveOther(db.history, recs, d);
  }

  // ---------------------------------------------------------------------------
  // Interleavings
  // ---------------------------------------------------------------------------

  datatype Tagged = Tagged(shard: nat, recs: seq<Record>)

  /** Every report travels on the shard its device hashes to. */
  predicate WellTagged(xs: seq<Tagged>, shardOf: DeviceId -> nat) {
    forall i, k :: 0 <= i < |xs| && 0 <= k < |xs[i].recs| ==> shardOf(xs[i].recs[k].device) == xs[i].shard
  }

  ghost function RunTagged(db: DB, xs: seq<Tagged>): DB {
    if xs == [] then db else ApplyBatch(RunTagged(db, xs[..|xs| - 1]), xs[|xs| - 1].recs)
  }

  function OfShard(xs: seq<Tagged>, s: nat): seq<Tagged> {
    if xs == [] then []
    else OfShard(xs[..|xs| - 1], s) + if xs[|xs| - 1].shard == s then [xs[|xs| - 1]] else []
  }

  lemma {:induction false} RunKeepsZones(db: DB, xs: seq<Tagged>)
    ensures RunTagged(db, xs).zones == db.zones
  {
    if xs != [] { RunKeepsZones(db, xs[..|xs| - 1]); }
  }

  lemma {:induction false} OnlyOwnShardMatters(db: DB, xs: seq<Tagged>, shardOf: DeviceId -> nat, d: DeviceId)
    requires WellTagged(xs, shardOf)
    ensures SameFor(d, RunTagged(db, xs), RunTagged(db, OfShard(xs, shardOf(d))))
  {
    if xs != [] {
      var init, last := xs[..|xs| - 1], xs[|xs| - 1];
      var own := OfShard(init, shardOf(d));
      OnlyOwnShardMatters(db, init, shardOf, d);
      RunKeepsZones(db, init);
      RunKeepsZones(db, own);
      if last.shard == shardOf(d) {
        assert OfShard(xs, shardOf(d)) == own + [last];
        assert (own + [last])[..|own|] == own;
        BatchIsLocal(RunTagged(db, init), RunTagged(db, own), last.recs, d);
      } else {
        assert OfShard(xs, shardOf(d)) == own;
        forall k | 0 <= k < |last.recs| ensures last.recs[k].device != d {
          assert shardOf(xs[|xs| - 1].recs[k].device) == last.shard;
        }
        BatchIsElsewhere(RunTagged(db, init), last.recs, d);
      }
    }
  }

  lemma {:induction false} KeepCounts(log: seq<Event>, f: Event -> bool, e: Event)
    requires f(e)
    ensures multiset(Keep(log, f))[e] == multiset(log)[e]
  {
    if log != [] {
      KeepCounts(log[1..], f, e);
      assert log == [log[0]] + log[1..];
    }
  }

  lemma SameTables(a: DB, b: DB)
    requires forall d :: SameFor(d, a, b)
    ensures a.positions == b.positions && a.presence == b.presence && a.history == b.history
  {
    forall d
      ensures d in a.positions <==> d in b.positions
      ensures d in a.positions ==> a.positions[d] == b.positions[d]
    {
      assert SameFor(d, a, b);
    }
    forall p: Pair
      ensures p in a.presence <==> p in b.presence
      ensures p in a.presence ==> a.presence[p] == b.presence[p]
    {
      assert SameFor(p.device, a, b) && p == Pair(p.zone, p.device);
    }
    forall k: (DeviceId, int)
      ensures k in a.history <==> k in b.history
      ensures k in a.history ==> a.history[k] == b.history[k]
    {
      var d, t := k.0, k.1;
      assert SameFor(d, a, b) && k == (d, t);
      assert (d, t) in a.history <==> (d, t) in b.history;
    }
  }

  lemma SameEvents(a: seq<Event>, b: seq<Event>)
    requires forall d :: EventsOf(a, d) == EventsOf(b, d)
    ensures multiset(a) == multiset(b)
  {
    forall e ensures multiset(a)[e] == multiset(b)[e] {
      assert EventsOf(a, e.pair.device) == EventsOf(b, e.pair.device);
      KeepCounts(a, OfDevice(e.pair.device), e);
      KeepCounts(b, OfDevice(e.pair.device), e);
    }
  }

  /** Shards may be interleaved at will: schedules that keep each shard's own order end with
      the same positions, presence rows and track, the same events per device in the same
      order, and altogether the same events, whatever identities they were given. */
  lemma ShardsInterleaveFreely(db: DB, xs: seq<Tagged>, ys: seq<Tagged>, shardOf: DeviceId -> nat)
    requires WellTagged(xs, shardOf) && WellTagged(ys, shardOf)
    requires forall s :: OfShard(xs, s) == OfShard(ys, s)
    ensures var a, b := RunTagged(db, xs), RunTagged(db, ys);
            && a.positions == b.positions && a.presence == b.presence && a.history == b.history
            && (forall d :: EventsOf(a.log, d) == EventsOf(b.log, d))
            && multiset(a.log) == multiset(b.log)
  {
    var a, b := RunTagged(db, xs), RunTagged(db, ys);
    forall d ensures SameFor(d, a, b) {
      OnlyOwnShardMatters(db, xs, shardOf, d);
      OnlyOwnShardMatters(db, ys, shardOf, d);
      assert OfShard(xs, shardOf(d)) == OfShard(ys, shardOf(d));
      SameForJoins(d, a, b, RunTagged(db, OfShard(xs, shardOf(d))));
    }
    SameTables(a, b);
    forall d ensures EventsOf(a.log, d) == EventsOf(b.log, d) { assert SameFor(d, a, b); }
    SameEvents(a.log, b.log);
  }

  lemma SameForJoins(d: DeviceId, a: DB, b: DB, c: DB)
    requires SameFor(d, a, c) && SameFor(d, b, c)
    ensures SameFor(d, a, b)
  {
  }
}
