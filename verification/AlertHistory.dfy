/** The alerts of one device in one zone, over every run of batches and zone edits. */
module AlertHistory {
  import opened Options
  import opened Geofence

  function OfPair(p: Pair): Event -> bool {
    (e: Event) => e.pair == p && !e.orphan
  }

  /** What happened between one zone and one device, in order. */
  function Story(log: seq<Event>, p: Pair): seq<Event> {
    Keep(log, OfPair(p))
  }

  /** Follow a story; `Some(inside)` while it is a legal one. */
  function Scan(evs: seq<Event>): Option<bool> {
    if evs == [] then Some(false)
    else
      match (Scan(evs[..|evs| - 1]), evs[|evs| - 1].kind)
      case (Some(inside), Enter) => if inside then None else Some(true)
      case (Some(inside), Dwell) => if inside then Some(true) else None
      case (Some(inside), Exit) => if inside then Some(false) else None
      case (None, _) => None
  }

  /** An event is an enter exactly when it comes first or after an exit. */
  predicate InTurn(evs: seq<Event>, i: nat)
    requires i < |evs|
  {
    evs[i].kind == Enter <==> (i == 0 || evs[i - 1].kind == Exit)
  }

  /** A legal story reads enter, dwell*, exit, and again: an event is an enter exactly when
      it comes first or after an exit, and the device is inside exactly when something has
      happened and the last thing was not an exit. */
  lemma {:induction false} LegalStory(evs: seq<Event>)
    requires Scan(evs).Some?
    ensures forall i :: 0 <= i < |evs| ==> InTurn(evs, i)
    ensures Scan(evs).value <==> evs != [] && evs[|evs| - 1].kind != Exit
  {
    if evs != [] {
      var init, e := evs[..|evs| - 1], evs[|evs| - 1];
      LegalStory(init);
      assert e.kind == Enter <==> !Scan(init).value;
      forall i | 0 <= i < |evs| ensures InTurn(evs, i) {
        if i < |init| {
          assert evs[i] == init[i];
          assert i > 0 ==> evs[i - 1] == init[i - 1];
          assert InTurn(init, i);
        } else if i > 0 {
          assert evs[i - 1] == init[|init| - 1];
        }
      }
    }
  }

  ghost predicate Increasing(evs: seq<Event>) {
    forall i, j :: 0 <= i < j < |evs| ==> evs[i].time < evs[j].time
  }

  /** What every reachable database says about one pair. */
  ghost predicate StoryInv(db: DB, p: Pair) {
    var evs := Story(db.log, p);
    && Scan(evs) == Some(p in db.presence)
    && Increasing(evs)
    && (evs != [] ==> p.device in db.positions && evs[|evs| - 1].time <= db.positions[p.device].reported)
  }

  /** Presence rows are dated within the stay they describe. */
  ghost predicate RowsInv(db: DB) {
    forall p :: p in db.presence ==>
      && p.zone in db.zones && p.device in db.positions
      && db.presence[p].entered <= db.presence[p].lastAlert <= db.presence[p].lastSeen
      && db.presence[p].lastSeen == db.positions[p.device].reported
  }

  lemma BatchStory(db: DB, recs: seq<Record>, p: Pair)
    ensures Named(Newest(recs))
    ensures var acc := Accepted(db.positions, Newest(recs));
            Story(ApplyBatch(db, recs).log, p) == Story(db.log, p)
              + if EventOf(db, acc, p).Some? then [EventOf(db, acc, p).value] else []
  {
    NewestIsNewest(recs);
    var acc := Accepted(db.positions, Newest(recs));
    EventsKeyed(db, acc);
    KeepAppend(db.log, Sorted(Events(db, acc)), OfPair(p));
    SortedOfPair(Events(db, acc), p, OfPair(p));
    assert EventOf(db, acc, p).Some? ==> p in Candidates(db, acc);
  }

  /** The row of a pair after a batch. */
  lemma BatchRow(db: DB, recs: seq<Record>, p: Pair)
    ensures Named(Newest(recs))
    ensures var acc, after := Accepted(db.positions, Newest(recs)), ApplyBatch(db, recs);
            && (p in after.presence <==> Inside(db, acc, p))
            && (p in after.presence ==> after.presence[p] == RowAfter(db, acc, p))
            && after.positions == db.positions + Stored(acc)
  {
    NewestIsNewest(recs);
    var acc := Accepted(db.positions, Newest(recs));
    assert Inside(db, acc, p) ==> p in Candidates(db, acc);
  }

  lemma StoryGrows(evs: seq<Event>, e: Event, inside: bool)
    requires Scan(evs) == Some(inside) && Increasing(evs)
    requires evs != [] ==> evs[|evs| - 1].time < e.time
    requires if inside then e.kind != Enter else e.kind == Enter
    ensures Scan(evs + [e]) == Some(e.kind != Exit) && Increasing(evs + [e])
  {
    assert (evs + [e])[..|evs|] == evs;
  }

  lemma BatchKeepsStory(db: DB, recs: seq<Record>, p: Pair)
    requires StoryInv(db, p)
    ensures StoryInv(ApplyBatch(db, recs), p)
  {
    BatchStory(db, recs, p);
    BatchRow(db, recs, p);
    NewestIsNewest(recs);
    var acc := Accepted(db.positions, Newest(recs));
    var evs, after := Story(db.log, p), ApplyBatch(db, recs);
    EventFits(db, acc, p);
    if EventOf(db, acc, p).Some? {
      StoryGrows(evs, EventOf(db, acc, p).value, p in db.presence);
      assert Story(after.log, p) == evs + [EventOf(db, acc, p).value];
    } else {
      assert Story(after.log, p) == evs;
    }
  }

  /** An event comes in turn and later than anything before it, and says where the pair is. */
  lemma EventFits(db: DB, acc: map<DeviceId, Record>, p: Pair)
    requires forall d :: d in acc ==> acc[d].device == d && Newer(db.positions, acc[d])
    ensures var e, stored := EventOf(db, acc, p), db.positions + Stored(acc);
            && (e.None? ==> (Inside(db, acc, p) <==> p in db.presence))
            && (e.Some? ==>
                  && (if p in db.presence then e.value.kind != Enter else e.value.kind == Enter)
                  && (Inside(db, acc, p) <==> e.value.kind != Exit)
                  && p.device in stored && e.value.time == stored[p.device].reported
                  && (p.device in db.positions ==> db.positions[p.device].reported < e.value.time))
            && (p.device in db.positions ==>
                  p.device in stored && db.positions[p.device].reported <= stored[p.device].reported)
  {
  }

  lemma {:induction false} OrphansElsewhere(log: seq<Event>, z: ZoneId, p: Pair)
    ensures Story(Orphaned(log, z), p) == if p.zone == z then [] else Story(log, p)
  {
    if log != [] {
      OrphansElsewhere(log[1..], z, p);
      assert Orphaned(log, z)[1..] == Orphaned(log[1..], z);
    }
  }

  lemma ApplyKeepsStory(db: DB, op: Op, p: Pair)
    requires StoryInv(db, p)
    ensures StoryInv(Apply(db, op), p)
  {
    match op {
      case Batch(recs) => BatchKeepsStory(db, recs, p);
      case SetZone(_, _) =>
      case DropZone(z) => OrphansElsewhere(db.log, z, p);
    }
  }

  lemma ApplyKeepsRows(db: DB, op: Op)
    requires RowsInv(db)
    ensures RowsInv(Apply(db, op))
  {
    if op.Batch? {
      NewestIsNewest(op.recs);
      var acc, db' := Accepted(db.positions, Newest(op.recs)), Apply(db, op);
      forall p | p in db'.presence
        ensures p.zone in db'.zones && p.device in db'.positions
        ensures db'.presence[p].entered <= db'.presence[p].lastAlert <= db'.presence[p].lastSeen
        ensures db'.presence[p].lastSeen == db'.positions[p.device].reported
      {
        assert db'.presence[p] == RowAfter(db, acc, p);
      }
    }
  }

  function Blank(zones: map<ZoneId, Zone>): DB {
    DB(zones, map[], map[], [], map[])
  }

  /** Alternation: whatever batches and zone edits follow an empty start, the log of every
      pair reads enter, dwell*, exit, repeated, at strictly increasing times, and its last
      entry is not an exit exactly when a presence row exists. */
  lemma {:induction false} AlertsAlternate(zones: map<ZoneId, Zone>, ops: seq<Op>, p: Pair)
    ensures var db := ApplyOps(Blank(zones), ops);
            var evs := Story(db.log, p);
            && (forall i :: 0 <= i < |evs| ==> InTurn(evs, i))
            && Increasing(evs)
            && (p in db.presence <==> evs != [] && evs[|evs| - 1].kind != Exit)
  {
    RunKeepsStory(Blank(zones), ops, p);
    LegalStory(Story(ApplyOps(Blank(zones), ops).log, p));
  }

  lemma {:induction false} RunKeepsStory(db: DB, ops: seq<Op>, p: Pair)
    requires StoryInv(db, p)
    ensures StoryInv(ApplyOps(db, ops), p)
  {
    if ops != [] {
      RunKeepsStory(db, ops[..|ops| - 1], p);
      ApplyKeepsStory(ApplyOps(db, ops[..|ops| - 1]), ops[|ops| - 1], p);
    }
  }

  lemma {:induction false} RunKeepsRows(db: DB, ops: seq<Op>)
    requires RowsInv(db)
    ensures RowsInv(ApplyOps(db, ops))
  {
    if ops != [] {
      RunKeepsRows(db, ops[..|ops| - 1]);
      ApplyKeepsRows(ApplyOps(db, ops[..|ops| - 1]), ops[|ops| - 1]);
    }
  }

  // ---------------------------------------------------------------------------
  // Toggles
  // ---------------------------------------------------------------------------

  /** The alert table holds what the zones' owners asked to hear about. */
  function Announced(): Event -> bool {
    (e: Event) => e.announced
  }

  lemma {:induction false} KeepCommutes(log: seq<Event>, f: Event -> bool, g: Event -> bool)
    ensures Keep(Keep(log, f), g) == Keep(Keep(log, g), f)
  {
    if log != [] {
      KeepCommutes(log[1..], f, g);
      KeepAppend(if f(log[0]) then [log[0]] else [], Keep(log[1..], f), g);
      KeepAppend(if g(log[0]) then [log[0]] else [], Keep(log[1..], g), f);
    }
  }

  lemma {:induction false} KeepAll(log: seq<Event>, f: Event -> bool)
    requires forall i :: 0 <= i < |log| ==> f(log[i])
    ensures Keep(log, f) == log
  {
    if log != [] { KeepAll(log[1..], f); }
  }

  lemma FiltersCommute(log: seq<Event>, p: Pair)
    ensures Story(Keep(log, Announced()), p) == Keep(Story(log, p), Announced())
  {
    KeepCommutes(log, Announced(), OfPair(p));
  }

  /** What the owner of a zone asked to hear about. */
  predicate Asked(zone: Zone, kind: Kind) {
    match kind
    case Enter => zone.onEnter
    case Exit => zone.onExit
    case Dwell => true
  }

  /** What a batch makes happen between a zone and a device. */
  ghost function RaisedBy(db: DB, recs: seq<Record>, p: Pair): Option<Event> {
    NewestIsNewest(recs);
    EventOf(db, Accepted(db.positions, Newest(recs)), p)
  }

  /** Event `e` was raised by operation `k`, and is announced exactly if the zone, as it was
      then, asked for it. */
  ghost predicate RaisedAt(start: DB, ops: seq<Op>, k: nat, p: Pair, e: Event) {
    && k < |ops| && ops[k].Batch?
    && var db := ApplyOps(start, ops[..k]);
       && RaisedBy(db, ops[k].recs, p) == Some(e) && p.zone in db.zones
       && (e.announced <==> Asked(db.zones[p.zone], e.kind))
  }

  ghost predicate Explained(start: DB, ops: seq<Op>, p: Pair, e: Event) {
    exists k: nat :: RaisedAt(start, ops, k, p, e)
  }

  lemma {:induction false} EventsAreRaised(start: DB, ops: seq<Op>, p: Pair, i: nat)
    requires start.log == [] && i < |Story(ApplyOps(start, ops).log, p)|
    ensures Explained(start, ops, p, Story(ApplyOps(start, ops).log, p)[i])
  {
    if ops != [] {
      var init, last := ops[..|ops| - 1], ops[|ops| - 1];
      var db := ApplyOps(start, init);
      var before, e := Story(db.log, p), Story(ApplyOps(start, ops).log, p)[i];
      StoryStep(db, last, p);
      if i < |before| {
        EventsAreRaised(start, init, p, i);
        var k: nat :| RaisedAt(start, init, k, p, before[i]);
        assert init[..k] == ops[..k];
        assert RaisedAt(start, ops, k, p, e);
      } else {
        assert RaisedAt(start, ops, |ops| - 1, p, e);
      }
    }
  }

  /** A step leaves a pair's story alone, ends it with the zone, or adds what its batch raised. */
  lemma StoryStep(db: DB, op: Op, p: Pair)
    ensures var before, after := Story(db.log, p), Story(Apply(db, op).log, p);
            if op.Batch? && RaisedBy(db, op.recs, p).Some? then after == before + [RaisedBy(db, op.recs, p).value]
            else after == before || after == []
  {
    match op {
      case Batch(recs) => BatchStory(db, recs, p);
      case SetZone(_, _) =>
      case DropZone(z) => OrphansElsewhere(db.log, z, p);
    }
  }

  /** With toggles switched at will: over every run the published alerts of a pair are its
      alternating story less exactly the events its zone did not ask for when they happened. */
  lemma AlertsAreFilteredStory(zones: map<ZoneId, Zone>, ops: seq<Op>, p: Pair)
    ensures var evs := Story(ApplyOps(Blank(zones), ops).log, p);
            (forall i :: 0 <= i < |evs| ==> InTurn(evs, i)) && Increasing(evs)
    ensures var evs := Story(ApplyOps(Blank(zones), ops).log, p);
            forall i :: 0 <= i < |evs| ==> Explained(Blank(zones), ops, p, evs[i])
    ensures Story(Keep(ApplyOps(Blank(zones), ops).log, Announced()), p)
         == Keep(Story(ApplyOps(Blank(zones), ops).log, p), Announced())
  {
    AlertsAlternate(zones, ops, p);
    StoryIsExplained(Blank(zones), ops, p);
    FiltersCommute(ApplyOps(Blank(zones), ops).log, p);
  }

  lemma StoryIsExplained(start: DB, ops: seq<Op>, p: Pair)
    requires start.log == []
    ensures var evs := Story(ApplyOps(start, ops).log, p);
            forall i :: 0 <= i < |evs| ==> Explained(start, ops, p, evs[i])
  {
    var evs := Story(ApplyOps(start, ops).log, p);
    forall i | 0 <= i < |evs| ensures Explained(start, ops, p, evs[i]) {
      EventsAreRaised(start, ops, p, i);
    }
  }

  ghost predicate AllOn(zones: map<ZoneId, Zone>) {
    forall z :: z in zones ==> zones[z].onEnter && zones[z].onExit
  }

  /** With both toggles on in every zone throughout, every event was announced. */
  lemma {:induction false} AllAnnounced(db: DB, ops: seq<Op>)
    requires forall i :: 0 <= i < |db.log| ==> db.log[i].announced
    requires forall k :: 0 <= k < |ops| ==> AllOn(ApplyOps(db, ops[..k]).zones)
    ensures forall i :: 0 <= i < |ApplyOps(db, ops).log| ==> ApplyOps(db, ops).log[i].announced
    ensures Keep(ApplyOps(db, ops).log, Announced()) == ApplyOps(db, ops).log
  {
    if ops != [] {
      var init := ops[..|ops| - 1];
      forall k | 0 <= k < |init| ensures AllOn(ApplyOps(db, init[..k]).zones) {
        assert init[..k] == ops[..k];
        assert AllOn(ApplyOps(db, ops[..k]).zones);
      }
      AllAnnounced(db, init);
      assert AllOn(ApplyOps(db, ops[..|ops| - 1]).zones);
      StepAnnounced(ApplyOps(db, init), ops[|ops| - 1]);
    }
    KeepAll(ApplyOps(db, ops).log, Announced());
  }

  lemma OnIsAnnounced(db: DB, acc: map<DeviceId, Record>, p: Pair)
    requires AllOn(db.zones) && EventOf(db, acc, p).Some?
    ensures EventOf(db, acc, p).value.announced
  {
  }

  /** With both toggles on throughout, the published alerts of a pair themselves read enter,
      dwell*, exit, repeated, and end inside exactly while a presence row exists. */
  lemma PublishedAlertsAlternate(zones: map<ZoneId, Zone>, ops: seq<Op>, p: Pair)
    requires forall k :: 0 <= k < |ops| ==> AllOn(ApplyOps(Blank(zones), ops[..k]).zones)
    ensures var db := ApplyOps(Blank(zones), ops);
            var alerts := Story(Keep(db.log, Announced()), p);
            && (forall i :: 0 <= i < |alerts| ==> InTurn(alerts, i))
            && Increasing(alerts)
            && (p in db.presence <==> alerts != [] && alerts[|alerts| - 1].kind != Exit)
  {
    AllAnnounced(Blank(zones), ops);
    AlertsAlternate(zones, ops, p);
  }

  lemma StepAnnounced(db: DB, op: Op)
    requires AllOn(db.zones) && forall i :: 0 <= i < |db.log| ==> db.log[i].announced
    ensures forall i :: 0 <= i < |Apply(db, op).log| ==> Apply(db, op).log[i].announced
  {
    if op.Batch? {
      NewestIsNewest(op.recs);
      BatchAnnounced(db, Accepted(db.positions, Newest(op.recs)));
    }
  }

  lemma BatchAnnounced(db: DB, acc: map<DeviceId, Record>)
    requires AllOn(db.zones)
    ensures Keyed(Events(db, acc))
    ensures forall i :: 0 <= i < |Sorted(Events(db, acc))| ==> Sorted(Events(db, acc))[i].announced
  {
    EventsKeyed(db, acc);
    SortedIsSorted(Events(db, acc));
    var evs: seq<Event> := Sorted(Events(db, acc));
    forall i | 0 <= i < |evs| ensures evs[i].announced {
      assert evs[i] in evs;
      var p :| p in Events(db, acc) && Events(db, acc)[p] == evs[i];
      OnIsAnnounced(db, acc, p);
    }
  }

  // ---------------------------------------------------------------------------
  // Dwell pacing
  // ---------------------------------------------------------------------------

  /** Reminders raised since the device last entered. */
  function Dwells(evs: seq<Event>): nat {
    if evs == [] then 0
    else
      match evs[|evs| - 1].kind
      case Enter => 0
      case Dwell => Dwells(evs[..|evs| - 1]) + 1
      case Exit => Dwells(evs[..|evs| - 1])
  }

  /** The zone never asks for reminders more often than every `interval` seconds. */
  predicate AtLeast(zones: map<ZoneId, Zone>, z: ZoneId, interval: nat) {
    z in zones && zones[z].dwell.Some? ==> zones[z].dwell.value >= interval
  }

  ghost predicate Paced(db: DB, p: Pair, interval: nat) {
    p in db.presence ==>
      Dwells(Story(db.log, p)) * (1000 * interval) <= db.presence[p].lastAlert - db.presence[p].entered
  }

  lemma DwellsAppend(evs: seq<Event>, e: Event)
    ensures Dwells(evs + [e]) == match e.kind case Enter => 0 case Dwell => Dwells(evs) + 1 case Exit => Dwells(evs)
  {
    assert (evs + [e])[..|evs|] == evs;
  }

  /** The reminders and the row of a pair whose device the batch finds inside. */
  lemma DecisionKeepsPaced(db: DB, acc: map<DeviceId, Record>, p: Pair, interval: nat, n: nat)
    requires Inside(db, acc, p) && AtLeast(db.zones, p.zone, interval)
    requires p in db.presence ==> n * (1000 * interval) <= db.presence[p].lastAlert - db.presence[p].entered
    ensures var row, event := RowAfter(db, acc, p), EventOf(db, acc, p);
            var after := if event.None? || event.value.kind == Exit then n
                         else if event.value.kind == Enter then 0 else n + 1;
            after * (1000 * interval) <= row.lastAlert - row.entered
  {
    if EventOf(db, acc, p).Some? && EventOf(db, acc, p).value.kind == Dwell { OneMore(n, 1000 * interval); }
  }

  lemma BatchKeepsPaced(db: DB, recs: seq<Record>, p: Pair, interval: nat)
    requires RowsInv(db) && Paced(db, p, interval) && AtLeast(db.zones, p.zone, interval)
    ensures Paced(ApplyBatch(db, recs), p, interval)
  {
    BatchStory(db, recs, p);
    BatchRow(db, recs, p);
    var acc, evs := Accepted(db.positions, Newest(recs)), Story(db.log, p);
    if Inside(db, acc, p) {
      DecisionKeepsPaced(db, acc, p, interval, Dwells(evs));
      if EventOf(db, acc, p).Some? {
        DwellsAppend(evs, EventOf(db, acc, p).value);
      } else {
        assert evs + [] == evs;
      }
    }
  }

  lemma OneMore(n: nat, step: nat)
    ensures (n + 1) * step == n * step + step
  {
  }

  lemma ApplyKeepsPaced(db: DB, op: Op, p: Pair, interval: nat)
    requires RowsInv(db) && Paced(db, p, interval) && AtLeast(db.zones, p.zone, interval)
    ensures Paced(Apply(db, op), p, interval)
  {
    match op {
      case Batch(recs) => BatchKeepsPaced(db, recs, p, interval);
      case SetZone(_, _) =>
      case DropZone(z) => OrphansElsewhere(db.log, z, p);
    }
  }

  lemma {:induction false} RunKeepsPaced(db: DB, ops: seq<Op>, p: Pair, interval: nat)
    requires RowsInv(db) && Paced(db, p, interval)
    requires forall k :: 0 <= k < |ops| ==> AtLeast(ApplyOps(db, ops[..k]).zones, p.zone, interval)
    ensures Paced(ApplyOps(db, ops), p, interval)
  {
    if ops != [] {
      var init := ops[..|ops| - 1];
      forall k | 0 <= k < |init| ensures AtLeast(ApplyOps(db, init[..k]).zones, p.zone, interval) {
        assert init[..k] == ops[..k];
        assert AtLeast(ApplyOps(db, ops[..k]).zones, p.zone, interval);
      }
      RunKeepsPaced(db, init, p, interval);
      RunKeepsRows(db, init);
      assert AtLeast(ApplyOps(db, ops[..|ops| - 1]).zones, p.zone, interval);
      ApplyKeepsPaced(ApplyOps(db, init), ops[|ops| - 1], p, interval);
    }
  }

  /** Full intervals of the time a device has been seen inside. */
  function FullIntervals(row: Row, interval: nat): int
    requires interval > 0
  {
    (row.lastSeen - row.entered) / (1000 * interval)
  }

  lemma CountFits(n: nat, step: nat, span: int)
    requires step > 0 && n * step <= span
    ensures n <= span / step
  {
    var q := span / step;
    assert span == q * step + span % step;
    if n > q { OneMultipleMore(n, q, step); }
  }

  lemma OneMultipleMore(n: int, q: int, step: nat)
    requires n > q
    ensures n * step >= q * step + step
  {
    var k := n - q - 1;
    assert n * step == q * step + step + k * step;
  }

  /** Dwell pacing: a stay that began after `db` in a zone that never reminds more often
      than every `interval` seconds has raised at most one reminder per full interval of
      the time seen inside, whether or not enter alerts are on. */
  lemma DwellsArePaced(db: DB, ops: seq<Op>, p: Pair, interval: nat)
    requires RowsInv(db) && p !in db.presence && interval > 0
    requires forall k :: 0 <= k < |ops| ==> AtLeast(ApplyOps(db, ops[..k]).zones, p.zone, interval)
    ensures var after := ApplyOps(db, ops);
            p in after.presence ==>
              && after.presence[p].entered <= after.presence[p].lastAlert <= after.presence[p].lastSeen
              && Dwells(Story(after.log, p)) <= FullIntervals(after.presence[p], interval)
  {
    RunKeepsRows(db, ops);
    RunKeepsPaced(db, ops, p, interval);
    PacedCounts(ApplyOps(db, ops), p, interval);
  }

  lemma PacedCounts(db: DB, p: Pair, interval: nat)
    requires RowsInv(db) && Paced(db, p, interval) && interval > 0
    ensures p in db.presence ==>
              Dwells(Story(db.log, p)) <= FullIntervals(db.presence[p], interval)
  {
    if p in db.presence {
      CountFits(Dwells(Story(db.log, p)), 1000 * interval, db.presence[p].lastSeen - db.presence[p].entered);
    }
  }
}
