/** What the tables hold after any run of batches and zone edits, told from the reports alone:
    the track, the last positions, and who is where. */
module Records {
  import opened Options
  import opened Geofence
  import opened Confluence

  /** The reports of a run, oldest commit first. */
  function Recs(ops: seq<Op>): seq<Record> {
    if ops == [] then []
    else Recs(ops[..|ops| - 1]) + if ops[|ops| - 1].Batch? then ops[|ops| - 1].recs else []
  }

  lemma {:induction false} TablesOfRun(db: DB, ops: seq<Op>)
    ensures ApplyOps(db, ops).positions == Positions(db.positions, Recs(ops))
    ensures ApplyOps(db, ops).history == Archive(db.history, Recs(ops))
  {
    if ops != [] {
      var init, op := ops[..|ops| - 1], ops[|ops| - 1];
      TablesOfRun(db, init);
      if op.Batch? {
        var before := ApplyOps(db, init);
        AcceptedIsFreshest(before.positions, op.recs);
        BatchPositions(before.positions, op.recs);
        PositionsAppend(db.positions, Recs(init), op.recs);
        ArchiveAppend(db.history, Recs(init), op.recs);
      } else {
        assert Recs(ops) == Recs(init);
      }
    }
  }

  // ---------------------------------------------------------------------------
  // The track
  // ---------------------------------------------------------------------------

  predicate Names(r: Record, d: DeviceId, t: int) {
    r.device == d && r.reported == t
  }

  /** Report `i` is the first of its device and time. */
  ghost predicate FirstOf(recs: seq<Record>, i: int, d: DeviceId, t: int) {
    && 0 <= i < |recs| && Names(recs[i], d, t)
    && forall j :: 0 <= j < i ==> !Names(recs[j], d, t)
  }

  lemma {:induction false} ArchivedExactly(
    history: map<(DeviceId, int), Record>, recs: seq<Record>, d: DeviceId, t: int)
    ensures (d, t) in Archive(history, recs) <==>
              (d, t) in history || exists i :: 0 <= i < |recs| && Names(recs[i], d, t)
    ensures (d, t) in history ==> Archive(history, recs)[(d, t)] == history[(d, t)]
    ensures (d, t) in Archive(history, recs) && (d, t) !in history ==>
              exists i :: FirstOf(recs, i, d, t) && Archive(history, recs)[(d, t)] == recs[i]
  {
    if recs != [] {
      var init, r := recs[..|recs| - 1], recs[|recs| - 1];
      ArchivedExactly(history, init, d, t);
      if i :| 0 <= i < |init| && Names(init[i], d, t) {
        assert Names(recs[i], d, t);
      }
      if i :| 0 <= i < |recs| && Names(recs[i], d, t) {
        if i < |init| { assert Names(init[i], d, t); }
      }
      if (d, t) in Archive(history, recs) && (d, t) !in history {
        if (d, t) in Archive(history, init) {
          var i :| FirstOf(init, i, d, t) && Archive(history, init)[(d, t)] == init[i];
          assert FirstOf(recs, i, d, t);
        } else {
          assert forall j :: 0 <= j < |init| ==> init[j] == recs[j];
          assert FirstOf(recs, |init|, d, t);
        }
      }
    }
  }

  /** The track, over every run: a row exists exactly for the devices and times it had at the
      start or that some report of some batch names, stale ones included; no row ever changes;
      and a new row holds the first report that names it. */
  lemma TrackIsExact(db: DB, ops: seq<Op>, d: DeviceId, t: int)
    ensures var after, recs := ApplyOps(db, ops).history, Recs(ops);
            && ((d, t) in after <==> (d, t) in db.history || exists i :: 0 <= i < |recs| && Names(recs[i], d, t))
            && ((d, t) in db.history ==> after[(d, t)] == db.history[(d, t)])
            && ((d, t) in after && (d, t) !in db.history ==>
                  exists i :: FirstOf(recs, i, d, t) && after[(d, t)] == recs[i])
  {
    TablesOfRun(db, ops);
    ArchivedExactly(db.history, Recs(ops), d, t);
  }

  // ---------------------------------------------------------------------------
  // Positions
  // ---------------------------------------------------------------------------

  /** Report `i` is the newest of its device, newer than what was stored at the start, and the
      first of equally new ones. */
  ghost predicate NewestOf(pos: map<DeviceId, Position>, recs: seq<Record>, i: int, d: DeviceId) {
    && 0 <= i < |recs| && recs[i].device == d
    && (d in pos ==> pos[d].reported < recs[i].reported)
    && (forall j :: 0 <= j < i && recs[j].device == d ==> recs[j].reported < recs[i].reported)
    && (forall j :: i < j < |recs| && recs[j].device == d ==> recs[j].reported <= recs[i].reported)
  }

  /** Nothing newer than what was stored at the start. */
  ghost predicate NothingNewer(pos: map<DeviceId, Position>, recs: seq<Record>, d: DeviceId) {
    forall j :: 0 <= j < |recs| && recs[j].device == d ==> d in pos && recs[j].reported <= pos[d].reported
  }

  /** What is stored of a device: place, time and receipt of its newest report. */
  ghost predicate StoredIsNewest(pos: map<DeviceId, Position>, recs: seq<Record>,
                                 after: map<DeviceId, Position>, d: DeviceId)
  {
    if d in after then
      || (d in pos && after[d] == pos[d] && NothingNewer(pos, recs, d))
      || exists i :: IsStored(pos, recs, after[d], i, d)
    else
      d !in pos && forall j :: 0 <= j < |recs| ==> recs[j].device != d
  }

  /** Report `i` is the newest of its device and is what is stored of it. */
  ghost predicate IsStored(pos: map<DeviceId, Position>, recs: seq<Record>, after: Position, i: int, d: DeviceId) {
    && NewestOf(pos, recs, i, d)
    && after.at == recs[i].at && after.reported == recs[i].reported && after.received == recs[i].received
  }

  lemma StaysStored(pos: map<DeviceId, Position>, recs: seq<Record>, r: Record, after: Position, i: int, d: DeviceId)
    requires IsStored(pos, recs, after, i, d) && (r.device == d ==> r.reported <= after.reported)
    ensures IsStored(pos, recs + [r], after, i, d)
  {
    var longer := recs + [r];
    forall j | i < j < |longer| && longer[j].device == d ensures longer[j].reported <= longer[i].reported {
      if j < |recs| { assert longer[j] == recs[j]; }
    }
    forall j | 0 <= j < i && longer[j].device == d ensures longer[j].reported < longer[i].reported {
      assert longer[j] == recs[j];
    }
  }

  lemma BecomesStored(pos: map<DeviceId, Position>, recs: seq<Record>, r: Record)
    requires r.device in pos ==> pos[r.device].reported < r.reported
    requires forall j :: 0 <= j < |recs| && recs[j].device == r.device ==> recs[j].reported < r.reported
    ensures IsStored(pos, recs + [r], Position(r.at, r.reported, r.received), |recs|, r.device)
  {
    var longer := recs + [r];
    forall j | 0 <= j < |recs| && longer[j].device == r.device ensures longer[j].reported < r.reported {
      assert longer[j] == recs[j];
    }
  }

  lemma {:induction false} StoredExactly(pos: map<DeviceId, Position>, recs: seq<Record>, d: DeviceId)
    ensures StoredIsNewest(pos, recs, Positions(pos, recs), d)
  {
    if recs != [] {
      var init, r := recs[..|recs| - 1], recs[|recs| - 1];
      var before, after := Positions(pos, init), Positions(pos, recs);
      StoredExactly(pos, init, d);
      assert recs == init + [r];
      if r.device == d && Newer(before, r) {
        BecomesStored(pos, init, r);
        assert IsStored(pos, recs, after[d], |init|, d);
      } else if d in before {
        assert after[d] == before[d] && (r.device == d ==> r.reported <= before[d].reported);
        if i :| IsStored(pos, init, before[d], i, d) {
          StaysStored(pos, init, r, before[d], i, d);
        } else {
          assert NothingNewer(pos, recs, d);
        }
      }
    }
  }

  /** The last position, over every run: a device's row carries the place, the time and the
      receipt of the newest report committed of it, the first of equally new ones. */
  lemma PositionIsNewestReport(db: DB, ops: seq<Op>, d: DeviceId)
    ensures StoredIsNewest(db.positions, Recs(ops), ApplyOps(db, ops).positions, d)
  {
    TablesOfRun(db, ops);
    StoredExactly(db.positions, Recs(ops), d);
  }

  // ---------------------------------------------------------------------------
  // Presence
  // ---------------------------------------------------------------------------

  ghost predicate SameRow(a: map<DeviceId, Position>, b: map<DeviceId, Position>, d: DeviceId) {
    (d in a <==> d in b) && (d in a ==> a[d] == b[d])
  }

  /** The database before operation `k`. */
  ghost function Before(db: DB, ops: seq<Op>, k: nat): DB
    requires k <= |ops|
  {
    ApplyOps(db, ops[..k])
  }

  ghost predicate Moved(db: DB, ops: seq<Op>, k: nat, d: DeviceId)
    requires k < |ops|
  {
    !SameRow(Before(db, ops, k).positions, Before(db, ops, k + 1).positions, d)
  }

  /** Operation `k` moved the device into an area the zone had then. */
  ghost predicate Entered(db: DB, ops: seq<Op>, k: nat, p: Pair)
    requires k < |ops|
  {
    && Moved(db, ops, k, p.device)
    && p.zone in Before(db, ops, k).zones && p.device in Before(db, ops, k + 1).positions
    && Before(db, ops, k).zones[p.zone].area(Before(db, ops, k + 1).positions[p.device].at)
  }

  /** Operation `i` neither moved the device nor deleted the zone. */
  ghost predicate Leaves(db: DB, ops: seq<Op>, i: nat, p: Pair)
    requires i < |ops|
  {
    !Moved(db, ops, i, p.device) && ops[i] != DropZone(p.zone)
  }

  /** Operation `k` put the device into the zone, and nothing since took it out. */
  ghost predicate StoodIn(db: DB, ops: seq<Op>, k: nat, p: Pair) {
    k < |ops| && Entered(db, ops, k, p) && forall i: nat :: k < i < |ops| ==> Leaves(db, ops, i, p)
  }

  ghost predicate Stands(db: DB, ops: seq<Op>, p: Pair) {
    exists k: nat :: StoodIn(db, ops, k, p)
  }

  /** What one operation does to one pair. */
  lemma PairStep(db: DB, op: Op, p: Pair)
    requires Rooted(db)
    ensures var after := Apply(db, op);
            p in after.presence <==>
              if SameRow(db.positions, after.positions, p.device) then p in db.presence && op != DropZone(p.zone)
              else
                && p.zone in db.zones && p.device in after.positions
                && db.zones[p.zone].area(after.positions[p.device].at)
  {
    if op.Batch? {
      NewestIsNewest(op.recs);
      var acc := Accepted(db.positions, Newest(op.recs));
      assert p in Apply(db, op).presence <==> p in Candidates(db, acc) && Inside(db, acc, p);
      assert SameRow(db.positions, Apply(db, op).positions, p.device) <==> p.device !in acc;
    }
  }

  lemma BeforeIsBefore(db: DB, ops: seq<Op>, n: nat, k: nat)
    requires k <= n <= |ops|
    ensures Before(db, ops[..n], k) == Before(db, ops, k)
  {
    assert ops[..n][..k] == ops[..k];
  }

  lemma MovedIsMoved(db: DB, ops: seq<Op>, n: nat, k: nat, d: DeviceId)
    requires k < n <= |ops|
    ensures Moved(db, ops[..n], k, d) <==> Moved(db, ops, k, d)
  {
    BeforeIsBefore(db, ops, n, k);
    BeforeIsBefore(db, ops, n, k + 1);
  }

  lemma {:induction false} RunKeepsRooted(db: DB, ops: seq<Op>)
    requires Rooted(db)
    ensures Rooted(ApplyOps(db, ops))
  {
    if ops != [] {
      RunKeepsRooted(db, ops[..|ops| - 1]);
      ApplyKeepsRooted(ApplyOps(db, ops[..|ops| - 1]), ops[|ops| - 1]);
    }
  }

  lemma PrefixSame(db: DB, init: seq<Op>, op: Op, k: nat, p: Pair)
    requires k < |init|
    ensures Entered(db, init + [op], k, p) <==> Entered(db, init, k, p)
    ensures Leaves(db, init + [op], k, p) <==> Leaves(db, init, k, p)
  {
    var ops := init + [op];
    assert ops[..|init|] == init;
    BeforeIsBefore(db, ops, |init|, k);
    BeforeIsBefore(db, ops, |init|, k + 1);
    MovedIsMoved(db, ops, |init|, k, p.device);
  }

  lemma StoodInGrows(db: DB, init: seq<Op>, op: Op, k: nat, p: Pair)
    requires !Moved(db, init + [op], |init|, p.device)
    ensures StoodIn(db, init + [op], k, p) <==> StoodIn(db, init, k, p) && op != DropZone(p.zone)
  {
    var ops := init + [op];
    assert Leaves(db, ops, |init|, p) <==> op != DropZone(p.zone);
    if k < |init| {
      PrefixSame(db, init, op, k, p);
      forall i: nat | k < i < |init| ensures Leaves(db, ops, i, p) <==> Leaves(db, init, i, p) {
        PrefixSame(db, init, op, i, p);
      }
    }
  }

  /** Presence, over every run from an empty start and with zones edited at will: a row exists
      exactly for the pairs where the report that last moved the device put it inside the area
      the zone had at that moment, and the zone still stands. */
  lemma {:induction false} PresenceIsWhereItStood(db: DB, ops: seq<Op>, p: Pair)
    requires Rooted(db) && db.presence == map[]
    ensures p in ApplyOps(db, ops).presence <==> Stands(db, ops, p)
  {
    if ops != [] {
      var n := |ops| - 1;
      var init, op := ops[..n], ops[n];
      PresenceIsWhereItStood(db, init, p);
      LastStep(db, ops, n, p);
      if Moved(db, ops, n, p.device) {
        StoodFresh(db, ops, n, p);
      } else {
        assert ops == init + [op];
        StoodBefore(db, init, op, p);
      }
    }
  }

  /** The last operation of a run decides about a pair, or leaves it as it was. */
  lemma LastStep(db: DB, ops: seq<Op>, n: nat, p: Pair)
    requires |ops| == n + 1 && Rooted(db)
    ensures p in ApplyOps(db, ops).presence <==>
              if Moved(db, ops, n, p.device) then Entered(db, ops, n, p)
              else p in ApplyOps(db, ops[..n]).presence && ops[n] != DropZone(p.zone)
  {
    RunKeepsRooted(db, ops[..n]);
    assert Before(db, ops, n) == ApplyOps(db, ops[..n]);
    assert ops[..n + 1] == ops && Before(db, ops, n + 1) == ApplyOps(db, ops);
    PairStep(ApplyOps(db, ops[..n]), ops[n], p);
  }

  lemma StoodBefore(db: DB, init: seq<Op>, op: Op, p: Pair)
    requires !Moved(db, init + [op], |init|, p.device)
    ensures Stands(db, init + [op], p) <==> Stands(db, init, p) && op != DropZone(p.zone)
  {
    var ops := init + [op];
    forall k: nat ensures StoodIn(db, ops, k, p) <==> StoodIn(db, init, k, p) && op != DropZone(p.zone) {
      StoodInGrows(db, init, op, k, p);
    }
  }

  lemma LeftAloneAfter(db: DB, ops: seq<Op>, k: nat, n: nat, p: Pair)
    ensures StoodIn(db, ops, k, p) && k < n < |ops| ==> Leaves(db, ops, n, p)
  {
  }

  lemma StoodFresh(db: DB, ops: seq<Op>, n: nat, p: Pair)
    requires |ops| == n + 1 && Moved(db, ops, n, p.device)
    ensures Stands(db, ops, p) <==> Entered(db, ops, n, p)
  {
    assert !Leaves(db, ops, n, p);
    forall k: nat ensures StoodIn(db, ops, k, p) ==> k == n {
      LeftAloneAfter(db, ops, k, n, p);
    }
    assert StoodIn(db, ops, n, p) <==> Entered(db, ops, n, p);
  }

  // ---------------------------------------------------------------------------
  // Zones
  // ---------------------------------------------------------------------------

  predicate Edits(op: Op, z: ZoneId) {
    (op.SetZone? && op.id == z) || op == DropZone(z)
  }

  /** Operation `k` is the last that created, edited or deleted the zone. */
  ghost predicate LastEdit(ops: seq<Op>, k: int, z: ZoneId) {
    && 0 <= k < |ops| && Edits(ops[k], z)
    && forall i :: k < i < |ops| ==> !Edits(ops[i], z)
  }

  function ZoneOf(db: DB, z: ZoneId): Option<Zone> {
    if z in db.zones then Some(db.zones[z]) else None
  }

  lemma ZoneStep(db: DB, op: Op, z: ZoneId)
    ensures ZoneOf(Apply(db, op), z) ==
              if op.SetZone? && op.id == z then Some(op.zone) else if op == DropZone(z) then None else ZoneOf(db, z)
  {
  }

  /** Operations that do not edit a zone, batches among them, leave it alone. */
  lemma {:induction false} ZoneStands(db: DB, ops: seq<Op>, k: nat, z: ZoneId)
    requires k <= |ops| && forall i :: k <= i < |ops| ==> !Edits(ops[i], z)
    ensures ZoneOf(ApplyOps(db, ops), z) == ZoneOf(ApplyOps(db, ops[..k]), z)
  {
    if k == |ops| {
      assert ops[..k] == ops;
    } else {
      var n := |ops| - 1;
      ZoneStands(db, ops[..n], k, z);
      assert ops[..n][..k] == ops[..k];
      ZoneStep(ApplyOps(db, ops[..n]), ops[n], z);
    }
  }

  /** A zone is what the last edit made it. */
  lemma ZonesAreLastEdited(db: DB, ops: seq<Op>, k: nat, z: ZoneId)
    requires LastEdit(ops, k, z)
    ensures ZoneOf(ApplyOps(db, ops), z) == if ops[k].SetZone? then Some(ops[k].zone) else None
  {
    ZoneStands(db, ops, k + 1, z);
    assert ops[..k + 1][..k] == ops[..k];
    ZoneStep(ApplyOps(db, ops[..k]), ops[k], z);
  }
}
