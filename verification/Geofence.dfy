/** The geofence engine: what one committed batch makes of the database.

    A zone's geometry is an arbitrary predicate on points. Besides the announced alerts the
    log keeps the transitions whose alert was switched off, so that what is published can be
    compared with what happened. */
module Geofence {
  import opened Options

  type DeviceId = int
  type ZoneId = int

  datatype Point = Point(lat: int, lon: int)

  datatype Record = Record(device: DeviceId, at: Point, reported: int, received: int)

  /** `dwell` is the reminder interval in seconds. */
  datatype Zone = Zone(area: Point -> bool, onEnter: bool, onExit: bool, dwell: Option<nat>)

  datatype Position = Position(at: Point, reported: int, received: int)

  datatype Pair = Pair(zone: ZoneId, device: DeviceId)

  datatype Row = Row(entered: int, lastSeen: int, lastAlert: int)

  datatype Kind = Enter | Dwell | Exit

  /** `orphan` marks an event whose zone has been deleted since. */
  datatype Event = Event(pair: Pair, kind: Kind, time: int, at: Point, announced: bool, orphan: bool)

  datatype DB = DB(
    zones: map<ZoneId, Zone>,
    positions: map<DeviceId, Position>,
    presence: map<Pair, Row>,
    log: seq<Event>,
    history: map<(DeviceId, int), Record>)

  // ---------------------------------------------------------------------------
  // One report per device
  // ---------------------------------------------------------------------------

  /** For each device its latest report; of equally late ones the first. */
  function Newest(recs: seq<Record>): map<DeviceId, Record> {
    if recs == [] then map[]
    else
      var m, r := Newest(recs[..|recs| - 1]), recs[|recs| - 1];
      if r.device !in m || r.reported > m[r.device].reported then m[r.device := r] else m
  }

  lemma {:induction false} NewestIsNewest(recs: seq<Record>)
    ensures forall d :: d in Newest(recs) ==> Newest(recs)[d] in recs && Newest(recs)[d].device == d
    ensures forall i :: 0 <= i < |recs| ==>
              recs[i].device in Newest(recs) && recs[i].reported <= Newest(recs)[recs[i].device].reported
  {
    if recs != [] {
      var init := recs[..|recs| - 1];
      NewestIsNewest(init);
      forall i | 0 <= i < |recs|
        ensures recs[i].device in Newest(recs) && recs[i].reported <= Newest(recs)[recs[i].device].reported
      {
        if i < |init| { assert recs[i] == init[i]; }
      }
    }
  }

  function DevicesOf(recs: seq<Record>): set<DeviceId> {
    set i | 0 <= i < |recs| :: recs[i].device
  }

  /** Devices in the order of their first report. */
  function FirstAppearances(recs: seq<Record>): seq<DeviceId> {
    if recs == [] then []
    else
      var init, d := FirstAppearances(recs[..|recs| - 1]), recs[|recs| - 1].device;
      if d in init then init else init + [d]
  }

  lemma {:induction false} AppearancesAreDevices(recs: seq<Record>)
    ensures forall d :: d in FirstAppearances(recs) <==> d in Newest(recs)
    ensures forall i, j :: 0 <= i < j < |FirstAppearances(recs)| ==>
              FirstAppearances(recs)[i] != FirstAppearances(recs)[j]
  {
    if recs != [] { AppearancesAreDevices(recs[..|recs| - 1]); }
  }

  ghost predicate FirstAt(recs: seq<Record>, i: int, d: DeviceId) {
    0 <= i < |recs| && recs[i].device == d && forall j :: 0 <= j < i ==> recs[j].device != d
  }

  lemma {:induction false} AppearancesInOrder(recs: seq<Record>, a: nat, b: nat, i: int, j: int)
    requires a < b < |FirstAppearances(recs)|
    requires FirstAt(recs, i, FirstAppearances(recs)[a]) && FirstAt(recs, j, FirstAppearances(recs)[b])
    ensures i < j
  {
    var init := recs[..|recs| - 1];
    var order := FirstAppearances(init);
    AppearancesAreDevices(init);
    NewestIsNewest(init);
    if b < |order| {
      assert order[a] in order && order[b] in order;
      assert i < |init| && j < |init|;
      AppearancesInOrder(init, a, b, i, j);
    } else {
      assert order[a] in order;
      assert j == |init|;
    }
  }

  /** One report per device, the latest, devices in the order they first turn up; the upsert
      would refuse a device named twice. */
  method LatestPerDevice(recs: seq<Record>) returns (out: seq<Record>)
    ensures |out| == |FirstAppearances(recs)|
    ensures forall i :: 0 <= i < |out| ==>
              FirstAppearances(recs)[i] in Newest(recs) && out[i] == Newest(recs)[FirstAppearances(recs)[i]]
    ensures forall i, j :: 0 <= i < j < |out| ==> out[i].device != out[j].device
  {
    var newest: map<DeviceId, Record> := map[];
    var order: seq<DeviceId> := [];
    for k := 0 to |recs|
      invariant newest == Newest(recs[..k]) && order == FirstAppearances(recs[..k])
    {
      var r := recs[k];
      assert recs[..k + 1][..k] == recs[..k];
      AppearancesAreDevices(recs[..k]);
      if r.device !in newest {
        order := order + [r.device];
      }
      if r.device !in newest || r.reported > newest[r.device].reported {
        newest := newest[r.device := r];
      }
    }
    assert recs[..|recs|] == recs;
    AppearancesAreDevices(recs);
    NewestIsNewest(recs);
    out := seq(|order|, i requires 0 <= i < |order| => newest[order[i]]);
  }

  // ---------------------------------------------------------------------------
  // The statement
  // ---------------------------------------------------------------------------

  /** The stale-report guard of the conditional upsert. */
  predicate Newer(positions: map<DeviceId, Position>, r: Record) {
    r.device in positions ==> positions[r.device].reported < r.reported
  }

  function Accepted(positions: map<DeviceId, Position>, newest: map<DeviceId, Record>): map<DeviceId, Record>
    requires Named(newest)
  {
    map d | d in newest && Newer(positions, newest[d]) :: newest[d]
  }

  predicate Named(m: map<DeviceId, Record>) {
    forall d :: d in m ==> m[d].device == d
  }

  function PositionOf(r: Record): Position {
    Position(r.at, r.reported, r.received)
  }

  function Stored(acc: map<DeviceId, Record>): map<DeviceId, Position> {
    map d | d in acc :: PositionOf(acc[d])
  }

  predicate Hit(db: DB, acc: map<DeviceId, Record>, p: Pair) {
    p.zone in db.zones && p.device in acc && db.zones[p.zone].area(acc[p.device].at)
  }

  predicate DwellDue(zone: Zone, row: Row, now: int) {
    zone.dwell.Some? && now >= row.lastAlert + 1000 * zone.dwell.value
  }

  /** What a batch has to say about one pair, if anything. */
  function EventOf(db: DB, acc: map<DeviceId, Record>, p: Pair): Option<Event> {
    if p.device !in acc || p.zone !in db.zones then None
    else
      var z, r := db.zones[p.zone], acc[p.device];
      if Hit(db, acc, p) then
        if p !in db.presence then Some(Event(p, Enter, r.reported, r.at, z.onEnter, false))
        else if DwellDue(z, db.presence[p], r.reported) then Some(Event(p, Dwell, r.reported, r.at, true, false))
        else None
      else if p in db.presence then Some(Event(p, Exit, r.reported, r.at, z.onExit, false))
      else None
  }

  /** Every pair a batch can touch. */
  function Candidates(db: DB, acc: map<DeviceId, Record>): set<Pair> {
    db.presence.Keys + set z, d | z in db.zones && d in acc :: Pair(z, d)
  }

  function Events(db: DB, acc: map<DeviceId, Record>): map<Pair, Event> {
    map p | p in Candidates(db, acc) && EventOf(db, acc, p).Some? :: EventOf(db, acc, p).value
  }

  /** Whether a pair has a presence row after the batch. */
  predicate Inside(db: DB, acc: map<DeviceId, Record>, p: Pair) {
    if p.device in acc && p.zone in db.zones then Hit(db, acc, p) else p in db.presence
  }

  function RowAfter(db: DB, acc: map<DeviceId, Record>, p: Pair): Row
    requires Inside(db, acc, p)
  {
    if !Hit(db, acc, p) then db.presence[p]
    else
      var now := acc[p.device].reported;
      if p !in db.presence then Row(now, now, now)
      else if DwellDue(db.zones[p.zone], db.presence[p], now) then db.presence[p].(lastSeen := now, lastAlert := now)
      else db.presence[p].(lastSeen := now)
  }

  function PresenceAfter(db: DB, acc: map<DeviceId, Record>): map<Pair, Row> {
    map p | p in Candidates(db, acc) && Inside(db, acc, p) :: RowAfter(db, acc, p)
  }

  /** The track keeps every report; a repeated key changes nothing. */
  function Archive(history: map<(DeviceId, int), Record>, recs: seq<Record>): map<(DeviceId, int), Record> {
    if recs == [] then history
    else
      var h, r := Archive(history, recs[..|recs| - 1]), recs[|recs| - 1];
      if (r.device, r.reported) in h then h else h[(r.device, r.reported) := r]
  }

  /** One committed batch of storable reports. */
  ghost function ApplyBatch(db: DB, recs: seq<Record>): DB {
    NewestIsNewest(recs);
    var acc := Accepted(db.positions, Newest(recs));
    EventsKeyed(db, acc);
    DB(db.zones,
       db.positions + Stored(acc),
       PresenceAfter(db, acc),
       db.log + Sorted(Events(db, acc)),
       Archive(db.history, recs))
  }

  // ---------------------------------------------------------------------------
  // Event order
  // ---------------------------------------------------------------------------

  ghost predicate Keyed(m: map<Pair, Event>) {
    forall p :: p in m ==> m[p].pair == p
  }

  lemma EventsKeyed(db: DB, acc: map<DeviceId, Record>)
    ensures Keyed(Events(db, acc))
  {
  }

  /** Alert identities follow (time, zone, device). */
  predicate Leq(a: Event, b: Event) {
    || a.time < b.time
    || (a.time == b.time && (a.pair.zone < b.pair.zone
                             || (a.pair.zone == b.pair.zone && a.pair.device <= b.pair.device)))
  }

  ghost predicate IsFirst(m: map<Pair, Event>, p: Pair) {
    p in m && forall q :: q in m ==> Leq(m[p], m[q])
  }

  lemma {:induction false} FirstExists(m: map<Pair, Event>)
    requires m != map[]
    ensures exists p :: IsFirst(m, p)
    decreases |m|
  {
    var p :| p in m;
    if q :| q in m && !Leq(m[p], m[q]) {
      var rest := m - {p};
      assert q in rest;
      FirstExists(rest);
      var f :| IsFirst(rest, f);
      assert Leq(rest[f], rest[q]);
      forall r | r in m ensures Leq(m[f], m[r]) {
        if r != p { assert r in rest; }
      }
      assert IsFirst(m, f);
    } else {
      assert IsFirst(m, p);
    }
  }

  ghost function First(m: map<Pair, Event>): (p: Pair)
    requires m != map[]
    ensures IsFirst(m, p)
  {
    FirstExists(m);
    var p :| IsFirst(m, p);
    p
  }

  ghost function Sorted(m: map<Pair, Event>): (s: seq<Event>)
    requires Keyed(m)
    decreases |m|
  {
    if m == map[] then [] else [m[First(m)]] + Sorted(m - {First(m)})
  }

  function Keep(s: seq<Event>, f: Event -> bool): seq<Event> {
    if s == [] then []
    else (if f(s[0]) then [s[0]] else []) + Keep(s[1..], f)
  }

  lemma {:induction false} KeepAppend(a: seq<Event>, b: seq<Event>, f: Event -> bool)
    ensures Keep(a + b, f) == Keep(a, f) + Keep(b, f)
  {
    if a == [] {
      assert a + b == b;
    } else {
      var head := if f(a[0]) then [a[0]] else [];
      calc {
        Keep(a + b, f);
        { assert (a + b)[0] == a[0] && (a + b)[1..] == a[1..] + b; }
        head + Keep(a[1..] + b, f);
        { KeepAppend(a[1..], b, f); }
        head + (Keep(a[1..], f) + Keep(b, f));
        (head + Keep(a[1..], f)) + Keep(b, f);
        Keep(a, f) + Keep(b, f);
      }
    }
  }

  ghost function Those(m: map<Pair, Event>, f: Event -> bool): map<Pair, Event> {
    map p | p in m && f(m[p]) :: m[p]
  }

  /** Selecting from a sorted batch is sorting the selection. */
  lemma {:induction false} KeepSorted(m: map<Pair, Event>, f: Event -> bool)
    requires Keyed(m)
    ensures Keep(Sorted(m), f) == Sorted(Those(m, f))
    decreases |m|
  {
    if m == map[] {
      assert Those(m, f) == map[];
    } else {
      var p := First(m);
      KeepSorted(m - {p}, f);
      assert Sorted(m)[1..] == Sorted(m - {p});
      var those := Those(m, f);
      if f(m[p]) {
        assert IsFirst(those, p);
        assert First(those) in those;
        assert Leq(those[p], those[First(those)]) && Leq(those[First(those)], those[p]);
        assert First(those) == p;
        assert those - {p} == Those(m - {p}, f);
      } else {
        assert those == Those(m - {p}, f);
      }
    }
  }

  /** Sorting neither loses nor invents an event, and the order is the alert order. */
  lemma {:induction false} SortedIsSorted(m: map<Pair, Event>)
    requires Keyed(m)
    ensures forall e :: e in Sorted(m) <==> exists p :: p in m && m[p] == e
    ensures forall i, j :: 0 <= i < j < |Sorted(m)| ==> Leq(Sorted(m)[i], Sorted(m)[j])
    ensures forall i, j :: 0 <= i < j < |Sorted(m)| ==>
              var a, b := Sorted(m)[i], Sorted(m)[j];
              && a.time <= b.time
              && (a.time == b.time ==> a.pair.zone <= b.pair.zone)
              && (a.time == b.time && a.pair.zone == b.pair.zone ==> a.pair.device <= b.pair.device)
    ensures |Sorted(m)| == |m|
    decreases |m|
  {
    if m != map[] {
      var p := First(m);
      SortedIsSorted(m - {p});
      assert (m - {p}).Keys == m.Keys - {p};
      forall j | 0 < j < |Sorted(m)| ensures Leq(Sorted(m)[0], Sorted(m)[j]) {
        assert Sorted(m)[j] in Sorted(m - {p});
      }
      forall e ensures e in Sorted(m) <==> exists q :: q in m && m[q] == e {
        if q :| q in m && m[q] == e {
          if q != p { assert q in m - {p}; }
        }
      }
    }
  }

  /** A batch says at most one thing about each pair. */
  lemma SortedOfPair(m: map<Pair, Event>, p: Pair, f: Event -> bool)
    requires Keyed(m) && forall e :: f(e) ==> e.pair == p
    ensures Keep(Sorted(m), f) == if p in m && f(m[p]) then [m[p]] else []
  {
    KeepSorted(m, f);
    var those := Those(m, f);
    if p in m && f(m[p]) {
      assert those == map[p := m[p]];
      assert First(those) == p && those - {p} == map[];
    } else {
      assert those == map[];
    }
  }

  // ---------------------------------------------------------------------------
  // Runs
  // ---------------------------------------------------------------------------

  /** A committed batch, a zone created or edited, a zone deleted with its rows. */
  datatype Op = Batch(recs: seq<Record>) | SetZone(id: ZoneId, zone: Zone) | DropZone(zoneId: ZoneId)

  function Orphaned(log: seq<Event>, z: ZoneId): seq<Event> {
    seq(|log|, i requires 0 <= i < |log| => if log[i].pair.zone == z then log[i].(orphan := true) else log[i])
  }

  ghost function Apply(db: DB, op: Op): DB {
    match op
    case Batch(recs) => ApplyBatch(db, recs)
    case SetZone(id, zone) => db.(zones := db.zones[id := zone])
    case DropZone(z) =>
      db.(zones := db.zones - {z},
          presence := map p | p in db.presence && p.zone != z :: db.presence[p],
          log := Orphaned(db.log, z))
  }

  ghost function ApplyOps(db: DB, ops: seq<Op>): DB {
    if ops == [] then db else Apply(ApplyOps(db, ops[..|ops| - 1]), ops[|ops| - 1])
  }

  /** Presence rows belong to zones that exist. */
  ghost predicate Rooted(db: DB) {
    forall p :: p in db.presence ==> p.zone in db.zones
  }

  lemma ApplyKeepsRooted(db: DB, op: Op)
    requires Rooted(db)
    ensures Rooted(Apply(db, op))
  {
  }
}
