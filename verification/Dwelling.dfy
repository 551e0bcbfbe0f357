/** What a committed batch says about a zone and a device, case by case, and that reminders
    come neither late nor never. */
module Dwelling {
  import opened Options
  import opened Geofence
  import opened AlertHistory
  import opened Records

  // ---------------------------------------------------------------------------
  // One batch, one pair
  // ---------------------------------------------------------------------------

  /** The event a device makes by standing at `at` at time `t`. */
  function Said(p: Pair, kind: Kind, t: int, at: Point, announced: bool): Event {
    Event(p, kind, t, at, announced, false)
  }

  ghost predicate RowIs(db: DB, p: Pair, row: Row) {
    p in db.presence && db.presence[p] == row
  }

  /** The pair's row and story are as they were. */
  ghost predicate Untouched(db: DB, after: DB, p: Pair) {
    && Story(after.log, p) == Story(db.log, p)
    && (p in after.presence <==> p in db.presence)
    && (p in db.presence ==> RowIs(after, p, db.presence[p]))
  }

  lemma RowsAndStory(db: DB, recs: seq<Record>, p: Pair)
    ensures Named(Newest(recs))
    ensures var acc, after := Accepted(db.positions, Newest(recs)), ApplyBatch(db, recs);
            && Story(after.log, p) == Story(db.log, p)
                 + (if EventOf(db, acc, p).Some? then [EventOf(db, acc, p).value] else [])
            && (p in after.presence <==> Inside(db, acc, p))
            && (p in after.presence ==> after.presence[p] == RowAfter(db, acc, p))
            && (SameRow(db.positions, after.positions, p.device) <==> p.device !in acc)
            && (p.device in acc ==>
                  p.device in after.positions && after.positions[p.device] == PositionOf(acc[p.device]))
  {
    NewestIsNewest(recs);
    BatchStory(db, recs, p);
    BatchRow(db, recs, p);
  }

  /** A batch that does not move a device, or knows no such zone, says nothing of the pair. */
  lemma NothingSaid(db: DB, recs: seq<Record>, p: Pair)
    requires SameRow(db.positions, ApplyBatch(db, recs).positions, p.device) || p.zone !in db.zones
    ensures Untouched(db, ApplyBatch(db, recs), p)
  {
    RowsAndStory(db, recs, p);
    assert Story(db.log, p) + [] == Story(db.log, p);
  }

  /** Moved into a zone it was not in: one enter, announced if the zone asks for it, and a row
      that dates everything from now. */
  lemma EnterSaid(db: DB, recs: seq<Record>, p: Pair)
    requires !SameRow(db.positions, ApplyBatch(db, recs).positions, p.device)
    requires p.device in ApplyBatch(db, recs).positions && p.zone in db.zones && p !in db.presence
    requires db.zones[p.zone].area(ApplyBatch(db, recs).positions[p.device].at)
    ensures var after := ApplyBatch(db, recs);
            var now := after.positions[p.device];
            && Story(after.log, p) == Story(db.log, p)
                 + [Said(p, Enter, now.reported, now.at, db.zones[p.zone].onEnter)]
            && RowIs(after, p, Row(now.reported, now.reported, now.reported))
  {
    RowsAndStory(db, recs, p);
  }

  /** Moved within a zone it was in: a reminder if and only if the zone asks for reminders and at
      least its interval has gone by since the last one, or since it came in; the row keeps its
      beginning, is seen now, and restarts the clock exactly with a reminder. */
  lemma DwellIff(db: DB, recs: seq<Record>, p: Pair)
    requires !SameRow(db.positions, ApplyBatch(db, recs).positions, p.device)
    requires p.device in ApplyBatch(db, recs).positions && p.zone in db.zones && p in db.presence
    requires db.zones[p.zone].area(ApplyBatch(db, recs).positions[p.device].at)
    ensures var after, row, zone := ApplyBatch(db, recs), db.presence[p], db.zones[p.zone];
            var now := after.positions[p.device];
            if zone.dwell.Some? && now.reported - row.lastAlert >= 1000 * zone.dwell.value then
              && Story(after.log, p) == Story(db.log, p) + [Said(p, Dwell, now.reported, now.at, true)]
              && RowIs(after, p, Row(row.entered, now.reported, now.reported))
            else
              && Story(after.log, p) == Story(db.log, p)
              && RowIs(after, p, Row(row.entered, now.reported, row.lastAlert))
  {
    RowsAndStory(db, recs, p);
    assert Story(db.log, p) + [] == Story(db.log, p);
  }

  /** Moved out of a zone it was in: one exit, announced if the zone asks for it, and no row. */
  lemma ExitSaid(db: DB, recs: seq<Record>, p: Pair)
    requires !SameRow(db.positions, ApplyBatch(db, recs).positions, p.device)
    requires p.device in ApplyBatch(db, recs).positions && p.zone in db.zones && p in db.presence
    requires !db.zones[p.zone].area(ApplyBatch(db, recs).positions[p.device].at)
    ensures var after := ApplyBatch(db, recs);
            var now := after.positions[p.device];
            && Story(after.log, p) == Story(db.log, p)
                 + [Said(p, Exit, now.reported, now.at, db.zones[p.zone].onExit)]
            && p !in after.presence
  {
    RowsAndStory(db, recs, p);
  }

  /** Moved about outside a zone it was not in: nothing. */
  lemma OutsideSaid(db: DB, recs: seq<Record>, p: Pair)
    requires !SameRow(db.positions, ApplyBatch(db, recs).positions, p.device)
    requires p.device in ApplyBatch(db, recs).positions && p.zone in db.zones && p !in db.presence
    requires !db.zones[p.zone].area(ApplyBatch(db, recs).positions[p.device].at)
    ensures Untouched(db, ApplyBatch(db, recs), p)
  {
    RowsAndStory(db, recs, p);
    assert Story(db.log, p) + [] == Story(db.log, p);
  }

  // ---------------------------------------------------------------------------
  // Rows tell the story
  // ---------------------------------------------------------------------------

  /** When the stay that is under way began. */
  function EnteredAt(evs: seq<Event>): Option<int> {
    if evs == [] then None
    else if evs[|evs| - 1].kind == Enter then Some(evs[|evs| - 1].time)
    else EnteredAt(evs[..|evs| - 1])
  }

  ghost predicate Tells(db: DB, p: Pair) {
    p in db.presence ==>
      var evs := Story(db.log, p);
      && evs != [] && db.presence[p].lastAlert == evs[|evs| - 1].time
      && EnteredAt(evs) == Some(db.presence[p].entered)
  }

  lemma EnteredAppend(evs: seq<Event>, e: Event)
    ensures EnteredAt(evs + [e]) == if e.kind == Enter then Some(e.time) else EnteredAt(evs)
  {
    assert (evs + [e])[..|evs|] == evs;
  }

  lemma BatchTells(db: DB, recs: seq<Record>, p: Pair)
    requires Tells(db, p)
    ensures Tells(ApplyBatch(db, recs), p)
  {
    var after := ApplyBatch(db, recs);
    RowsAndStory(db, recs, p);
    if SameRow(db.positions, after.positions, p.device) || p.zone !in db.zones {
      NothingSaid(db, recs, p);
    } else if db.zones[p.zone].area(after.positions[p.device].at) {
      var now := after.positions[p.device];
      if p in db.presence {
        DwellIff(db, recs, p);
        EnteredAppend(Story(db.log, p), Said(p, Dwell, now.reported, now.at, true));
      } else {
        EnterSaid(db, recs, p);
        EnteredAppend(Story(db.log, p), Said(p, Enter, now.reported, now.at, db.zones[p.zone].onEnter));
      }
    } else if p in db.presence {
      ExitSaid(db, recs, p);
    } else {
      OutsideSaid(db, recs, p);
    }
  }

  lemma StepTells(db: DB, op: Op, p: Pair)
    requires Tells(db, p)
    ensures Tells(Apply(db, op), p)
  {
    match op {
      case Batch(recs) => BatchTells(db, recs, p);
      case SetZone(_, _) =>
      case DropZone(z) => OrphansElsewhere(db.log, z, p);
    }
  }

  /** Over every run: a presence row is dated by its pair's story. The stay began with the last
      enter, and the reminder clock runs from the last enter or reminder, announced or not. */
  lemma {:induction false} RowsTellTheStory(db: DB, ops: seq<Op>, p: Pair)
    requires Tells(db, p)
    ensures Tells(ApplyOps(db, ops), p)
  {
    if ops != [] {
      RowsTellTheStory(db, ops[..|ops| - 1], p);
      StepTells(ApplyOps(db, ops[..|ops| - 1]), ops[|ops| - 1], p);
    }
  }

  // ---------------------------------------------------------------------------
  // Never late
  // ---------------------------------------------------------------------------

  /** The zone, while it exists, asks for a reminder every `interval` seconds. */
  predicate Asks(zones: map<ZoneId, Zone>, z: ZoneId, interval: nat) {
    z in zones ==> zones[z].dwell == Some(interval)
  }

  ghost predicate NotOverdue(db: DB, p: Pair, interval: nat) {
    p in db.presence ==> db.presence[p].lastSeen - db.presence[p].lastAlert < 1000 * interval
  }

  lemma StepNotOverdue(db: DB, op: Op, p: Pair, interval: nat)
    requires interval > 0 && NotOverdue(db, p, interval) && Asks(db.zones, p.zone, interval)
    ensures NotOverdue(Apply(db, op), p, interval)
  {
    if op.Batch? {
      var recs := op.recs;
      var after := ApplyBatch(db, recs);
      RowsAndStory(db, recs, p);
      if SameRow(db.positions, after.positions, p.device) || p.zone !in db.zones {
        NothingSaid(db, recs, p);
      } else if db.zones[p.zone].area(after.positions[p.device].at) {
        if p in db.presence { DwellIff(db, recs, p); } else { EnterSaid(db, recs, p); }
      } else if p in db.presence {
        ExitSaid(db, recs, p);
      } else {
        OutsideSaid(db, recs, p);
      }
    }
  }

  /** Reminders come on time: throughout a run in which the zone asks for one every `interval`
      seconds, a device is never seen inside a full interval after the last enter or reminder
      without a reminder having been raised. */
  lemma {:induction false} RemindersAreOnTime(db: DB, ops: seq<Op>, p: Pair, interval: nat)
    requires interval > 0 && NotOverdue(db, p, interval)
    requires forall k :: 0 <= k < |ops| ==> Asks(ApplyOps(db, ops[..k]).zones, p.zone, interval)
    ensures NotOverdue(ApplyOps(db, ops), p, interval)
  {
    if ops != [] {
      var init := ops[..|ops| - 1];
      forall k | 0 <= k < |init| ensures Asks(ApplyOps(db, init[..k]).zones, p.zone, interval) {
        assert init[..k] == ops[..k];
        assert Asks(ApplyOps(db, ops[..k]).zones, p.zone, interval);
      }
      RemindersAreOnTime(db, init, p, interval);
      assert Asks(ApplyOps(db, ops[..|ops| - 1]).zones, p.zone, interval);
      StepNotOverdue(ApplyOps(db, init), ops[|ops| - 1], p, interval);
    }
  }
}
