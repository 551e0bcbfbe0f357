/** The daily history partitions: the maintenance round, and why a report that passes the
    storable check always finds its partition. Days are counted from the epoch in UTC. */
module Partitions {
  import opened Options
  import opened Geofence
  import opened Delivery

  const DAY: int := 86_400_000
  const DAYS_AHEAD: int := 2
  const MIGRATION_DAYS: int := 7

  function DayOf(t: int): int {
    t / DAY
  }

  predicate Within(first: int, last: int, d: int) {
    first <= d <= last
  }

  function Window(first: int, last: int): (w: set<int>)
    ensures forall d :: d in w <==> Within(first, last, d)
  {
    set d: int | first <= d <= last && Within(first, last, d)
  }

  /** The calendar is monotone, and a whole number of days moves it by that number. */
  lemma DayOfShift(t: int, k: int)
    ensures DayOf(t + k * DAY) == DayOf(t) + k
  {
    var q, m := t / DAY, t % DAY;
    assert t + k * DAY == (q + k) * DAY + m;
  }

  lemma DayOfMonotone(a: int, b: int)
    requires a <= b
    ensures DayOf(a) <= DayOf(b)
  {
  }

  // ---------------------------------------------------------------------------
  // Rounds
  // ---------------------------------------------------------------------------

  function From(days: set<int>, before: int): set<int> {
    set d | d in days && before <= d
  }

  /** What one led round at time `t` makes of the partitions. */
  function Round(days: set<int>, t: int, retention: int): set<int> {
    From(days + Window(DayOf(t) - retention, DayOf(t) + DAYS_AHEAD), DayOf(t) - retention)
  }

  /** A led round; retention is a setting and may change between rounds. */
  datatype Led = Led(at: int, retention: nat)

  function Rounds(days: set<int>, rounds: seq<Led>): set<int> {
    if rounds == [] then days
    else Round(Rounds(days, rounds[..|rounds| - 1]), rounds[|rounds| - 1].at, rounds[|rounds| - 1].retention)
  }

  ghost predicate Forward(start: int, rounds: seq<Led>) {
    && (forall i :: 0 <= i < |rounds| ==> start <= rounds[i].at)
    && (forall i, j :: 0 <= i < j < |rounds| ==> rounds[i].at <= rounds[j].at)
  }

  // ---------------------------------------------------------------------------
  // Coverage
  // ---------------------------------------------------------------------------

  lemma {:induction false} NothingTooFarAhead(days: set<int>, start: int, rounds: seq<Led>, t: int)
    requires Forward(start, rounds) && start <= t && (forall i :: 0 <= i < |rounds| ==> rounds[i].at <= t)
    requires forall d :: d in days ==> d <= DayOf(start) + DAYS_AHEAD
    ensures forall d :: d in Rounds(days, rounds) ==> d <= DayOf(t) + DAYS_AHEAD
  {
    if rounds == [] {
      DayOfMonotone(start, t);
    } else {
      NothingTooFarAhead(days, start, rounds[..|rounds| - 1], t);
      DayOfMonotone(rounds[|rounds| - 1].at, t);
    }
  }

  /** After any run of rounds, however many were missed and whatever retention was set, the
      partitions are exactly the window of the last one. */
  lemma WindowIsExact(days: set<int>, start: int, rounds: seq<Led>)
    requires Forward(start, rounds) && rounds != []
    requires forall d :: d in days ==> d <= DayOf(start) + DAYS_AHEAD
    ensures var last := rounds[|rounds| - 1];
            Rounds(days, rounds) == Window(DayOf(last.at) - last.retention, DayOf(last.at) + DAYS_AHEAD)
  {
    var last := rounds[|rounds| - 1];
    NothingTooFarAhead(days, start, rounds[..|rounds| - 1], last.at);
  }

  /** A report time the storable check lets through at time `t`. */
  predicate InTime(keepMs: nat, skew: nat, t: int, reported: int) {
    t - keepMs <= reported <= t + skew
  }

  /** Coverage, exactly: every time judged storable has its partition if and only if the last
      round's window reaches from the oldest one's day to the newest one's. */
  lemma CoveredIff(t0: int, retention: nat, keepMs: nat, skew: nat, t: int)
    ensures (forall r :: InTime(keepMs, skew, t, r) ==>
               DayOf(r) in Window(DayOf(t0) - retention, DayOf(t0) + DAYS_AHEAD))
       <==> DayOf(t0) - retention <= DayOf(t - keepMs) && DayOf(t + skew) <= DayOf(t0) + DAYS_AHEAD
  {
    assert InTime(keepMs, skew, t, t + skew) && InTime(keepMs, skew, t, t - keepMs);
    if DayOf(t0) - retention <= DayOf(t - keepMs) && DayOf(t + skew) <= DayOf(t0) + DAYS_AHEAD {
      forall r | InTime(keepMs, skew, t, r)
        ensures DayOf(r) in Window(DayOf(t0) - retention, DayOf(t0) + DAYS_AHEAD)
      {
        DayOfMonotone(r, t + skew);
        DayOfMonotone(t - keepMs, r);
      }
    } else {
      WindowHasEdges(t0, retention, t - keepMs);
      WindowHasEdges(t0, retention, t + skew);
      DayOfMonotone(t - keepMs, t + skew);
    }
  }

  lemma WindowHasEdges(t0: int, retention: nat, r: int)
    ensures DayOf(r) in Window(DayOf(t0) - retention, DayOf(t0) + DAYS_AHEAD)
       <==> DayOf(t0) - retention <= DayOf(r) <= DayOf(t0) + DAYS_AHEAD
  {
    assert Within(DayOf(t0) - retention, DayOf(t0) + DAYS_AHEAD, DayOf(r))
      <==> DayOf(t0) - retention <= DayOf(r) <= DayOf(t0) + DAYS_AHEAD;
  }

  /** Partition coverage: with the last led round no further back than two days less the
      permitted skew, and the batch keeping no more than that round did, every report the
      processor judges storable has its partition. */
  lemma StorableHasPartition(days: set<int>, start: int, rounds: seq<Led>, limits: Limits, t: int, r: Record)
    requires Forward(start, rounds) && rounds != []
    requires forall d :: d in days ==> d <= DayOf(start) + DAYS_AHEAD
    requires var last := rounds[|rounds| - 1];
             && last.at <= t && (t - last.at) + limits.skewMs <= DAYS_AHEAD * DAY
             && limits.retentionMs <= last.retention * DAY
    requires Storable(limits, t, r)
    ensures DayOf(r.reported) in Rounds(days, rounds)
  {
    var last := rounds[|rounds| - 1];
    WindowIsExact(days, start, rounds);
    DayOfShift(last.at, DAYS_AHEAD);
    DayOfMonotone(t + limits.skewMs, last.at + DAYS_AHEAD * DAY);
    DayOfShift(last.at, -(last.retention as int));
    DayOfMonotone(last.at - last.retention * DAY, t - limits.retentionMs);
    CoveredIff(last.at, last.retention, limits.retentionMs, limits.skewMs, t);
    assert InTime(limits.retentionMs, limits.skewMs, t, r.reported);
  }

  // ---------------------------------------------------------------------------
  // The stored functions and the lease
  // ---------------------------------------------------------------------------

  class History {
    ghost const start: int
    var days: set<int>
    var lead: Option<nat>           // the replica holding the maintenance lease
    ghost var rounds: seq<Led>      // the rounds led so far

    /** The partitions are what the migration and the rounds led since have made of them. */
    ghost predicate Valid()
      reads this
    {
      && Forward(start, rounds)
      && days == Rounds(Window(DayOf(start) - MIGRATION_DAYS, DayOf(start) + DAYS_AHEAD), rounds)
    }

    /** What the first migration leaves behind. */
    constructor (now: int)
      ensures Valid() && start == now && rounds == [] && lead == None
      ensures days == Window(DayOf(now) - MIGRATION_DAYS, DayOf(now) + DAYS_AHEAD)
    {
      start, days, lead, rounds := now, {}, None, [];
      new;
      var created := Ensure(DayOf(now) - MIGRATION_DAYS, DayOf(now) + DAYS_AHEAD);
    }

    /** Create the missing days one by one; a window the wrong way round is an error. */
    method Ensure(first: int, last: int) returns (created: Option<nat>)
      modifies this`days
      ensures created.None? <==> first > last
      ensures days == old(days) + Window(first, last)
      ensures created.Some? ==> created.value == |days| - |old(days)|
    {
      if first > last {
        return None;
      }
      var day, count: nat := first, 0;
      while day <= last
        invariant first <= day <= last + 1
        invariant days == old(days) + Window(first, day - 1)
        invariant count == |days| - |old(days)|
      {
        if day !in days {
          days := days + {day};
          count := count + 1;
        }
        day := day + 1;
      }
      return Some(count);
    }

    /** Drop every partition of a day before `before`. */
    method Drop(before: int) returns (dropped: nat)
      modifies this`days
      ensures days == From(old(days), before)
      ensures dropped == |old(days)| - |days|
    {
      dropped := 0;
      var children := set d | d in days && d < before;
      while children != {}
        invariant children <= days
        invariant forall d :: d in children ==> d < before
        invariant days == From(old(days), before) + children
        invariant dropped == |old(days)| - |days|
      {
        var child :| child in children;
        children := children - {child};
        days := days - {child};
        dropped := dropped + 1;
      }
    }

    /** Take the lease if nobody has it. */
    method TakeLead(me: nat) returns (taken: bool)
      modifies this`lead
      ensures taken <==> old(lead).None?
      ensures lead == if taken then Some(me) else old(lead)
    {
      taken := lead.None?;
      if taken { lead := Some(me); }
    }

    /** The lease outlived its time to live. */
    method LeaseExpired()
      modifies this`lead
      ensures lead == None
    {
      lead := None;
    }

    /** The round's transaction: create, then drop, or nothing at all. */
    method Maintain(now: int, retention: nat, fails: bool) returns (done: bool)
      requires Valid() && start <= now && forall i :: 0 <= i < |rounds| ==> rounds[i].at <= now
      modifies this`days, this`rounds
      ensures Valid() && (done <==> !fails)
      ensures rounds == if done then old(rounds) + [Led(now, retention)] else old(rounds)
      ensures days == if done then Round(old(days), now, retention) else old(days)
    {
      var was := days;
      var created := Ensure(DayOf(now) - retention, DayOf(now) + DAYS_AHEAD);
      if fails {
        days := was;
        return false;
      }
      var dropped := Drop(DayOf(now) - retention);
      assert (rounds + [Led(now, retention)])[..|rounds|] == rounds;
      rounds := rounds + [Led(now, retention)];
      done := true;
    }

    /** Compare and delete: whoever holds the lease by now keeps it, unless it is `me`. */
    method GiveUpLead(me: nat)
      modifies this`lead
      ensures lead == if old(lead) == Some(me) then None else old(lead)
    {
      if lead == Some(me) { lead := None; }
    }

    /** One round of replica `me` that nothing interrupts: either it leads and the window
        moves, or nothing changes and the lease is free for the next one to try. */
    method RunOnce(me: nat, now: int, retention: nat, fails: bool) returns (led: bool)
      requires Valid() && start <= now && forall i :: 0 <= i < |rounds| ==> rounds[i].at <= now
      modifies this`days, this`lead, this`rounds
      ensures Valid() && (led <==> old(lead).None? && !fails)
      ensures rounds == if led then old(rounds) + [Led(now, retention)] else old(rounds)
      ensures days == if led then Round(old(days), now, retention) else old(days)
      ensures lead == if led then Some(me) else old(lead)
    {
      var taken := TakeLead(me);
      if !taken {
        return false;
      }
      led := Maintain(now, retention, fails);
      if !led { GiveUpLead(me); }
    }

    /** Whatever the fleet did: between a led round and the end of its headroom, every report
        judged storable finds its partition here. */
    lemma AlwaysCovered(limits: Limits, t: int, r: Record)
      requires Valid() && rounds != []
      requires var last := rounds[|rounds| - 1];
               && last.at <= t && (t - last.at) + limits.skewMs <= DAYS_AHEAD * DAY
               && limits.retentionMs <= last.retention * DAY
      requires Storable(limits, t, r)
      ensures DayOf(r.reported) in days
    {
      StorableHasPartition(Window(DayOf(start) - MIGRATION_DAYS, DayOf(start) + DAYS_AHEAD),
                           start, rounds, limits, t, r);
    }
  }
}
