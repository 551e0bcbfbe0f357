/** The load generator's fleet: deadlines, private random streams and what they promise.

    Movement and the random streams are abstract: a world says how a device moves over an
    interval and how a stream yields the next interval. Times are integers. */
module GeneratorFleet {
  import opened Sets

  /** `K` is a device's position, heading and speed; `G` the state of a random stream. */
  datatype World<!K, !G> = World(
    interval: int,
    advance: (K, int, G) -> (K, G),
    jitter: (int, G) -> (int, G),      // an interval, give or take
    fraction: (int, G) -> (int, G))    // any part of an interval

  /** One device: where it is, its movement stream, its interval stream, and the length of
      the step its next report will take. */
  datatype Device<K, G> = Device(state: K, rng: G, clock: G, dt: int)

  datatype Report<K> = Report(index: nat, state: K, moment: int)

  // ---------------------------------------------------------------------------
  // The reports of a device
  // ---------------------------------------------------------------------------

  function Moved<K, G>(w: World<K, G>, d: Device<K, G>): Device<K, G> {
    var (state, rng) := w.advance(d.state, d.dt, d.rng);
    Device(state, rng, d.clock, d.dt)
  }

  function Rearmed<K, G>(w: World<K, G>, d: Device<K, G>): Device<K, G> {
    var (dt, clock) := w.jitter(w.interval, d.clock);
    Device(d.state, d.rng, clock, dt)
  }

  /** The device once it has reported `n` times. */
  function After<K, G>(w: World<K, G>, d: Device<K, G>, n: nat): Device<K, G> {
    if n == 0 then d else Rearmed(w, Moved(w, After(w, d, n - 1)))
  }

  /** Its first `n` reports: a function of how the seed set it up, and of `n`. */
  function First<K, G>(w: World<K, G>, d: Device<K, G>, n: nat): (r: seq<K>)
    ensures |r| == n
  {
    if n == 0 then [] else First(w, d, n - 1) + [Moved(w, After(w, d, n - 1)).state]
  }

  lemma {:induction false} FirstIsPrefix<K, G>(w: World<K, G>, d: Device<K, G>, n: nat, m: nat)
    requires n <= m
    ensures First(w, d, n) <= First(w, d, m)
  {
    if n < m { FirstIsPrefix(w, d, n, m - 1); }
  }

  // The streams, each on its own.

  /** An interval stream after `n` draws, and the interval of the n-th. */
  function Clock<K, G>(w: World<K, G>, g: G, n: nat): G {
    if n == 0 then g else w.jitter(w.interval, Clock(w, g, n - 1)).1
  }

  function Interval<K, G>(w: World<K, G>, g: G, n: nat): int
    requires n > 0
  {
    w.jitter(w.interval, Clock(w, g, n - 1)).0
  }

  /** The length of the step after `n` reports: the plain interval first, then one draw each. */
  function StepLength<K, G>(w: World<K, G>, d: Device<K, G>, n: nat): int {
    if n == 0 then d.dt else Interval(w, d.clock, n)
  }

  /** Position and movement stream after `n` steps. */
  function Path<K, G>(w: World<K, G>, d: Device<K, G>, n: nat): (K, G) {
    if n == 0 then (d.state, d.rng)
    else w.advance(Path(w, d, n - 1).0, StepLength(w, d, n - 1), Path(w, d, n - 1).1)
  }

  /** Movement and intervals come from separate streams: the n-th step is as long as the n-th
      draw says, one draw per report, and nothing else feeds into where a device is. */
  lemma {:induction false} StreamsAreSeparate<K, G>(w: World<K, G>, d: Device<K, G>, n: nat)
    ensures After(w, d, n) == Device(Path(w, d, n).0, Path(w, d, n).1, Clock(w, d.clock, n), StepLength(w, d, n))
  {
    if n > 0 { StreamsAreSeparate(w, d, n - 1); }
  }

  /** Every report is the end of a path of as many steps. */
  lemma {:induction false} ReportIsPathEnd<K, G>(w: World<K, G>, d: Device<K, G>, n: nat, k: nat)
    requires k < n
    ensures First(w, d, n)[k] == Path(w, d, k + 1).0
  {
    if k == n - 1 {
      StreamsAreSeparate(w, d, k);
    } else {
      ReportIsPathEnd(w, d, n - 1, k);
    }
  }

  /** The schedule's own stream after `n` devices were laid out, and the offset of device `n`. */
  function Layout<K, G>(w: World<K, G>, g: G, n: nat): G {
    if n == 0 then g else w.fraction(w.interval, Layout(w, g, n - 1)).1
  }

  function Offset<K, G>(w: World<K, G>, g: G, n: nat): int {
    w.fraction(w.interval, Layout(w, g, n)).0
  }

  /** How far into the ramp-up device `i` of `n` starts. */
  function Share(spread: int, i: nat, n: nat): int {
    if n == 0 then 0 else spread * i / n
  }

  function FirstDue<K, G>(w: World<K, G>, g: G, now: int, spread: int, n: nat, i: nat): int {
    now + Share(spread, i, n) + Offset(w, g, i)
  }

  /** What a log of reports holds of one device. */
  function ReportsOf<K>(log: seq<Report<K>>, i: nat): seq<K> {
    if log == [] then []
    else ReportsOf(log[..|log| - 1], i) + if log[|log| - 1].index == i then [log[|log| - 1].state] else []
  }

  /** Who reported, in order. */
  function Reporters<K>(log: seq<Report<K>>): (r: seq<nat>)
    ensures |r| == |log|
  {
    seq(|log|, i requires 0 <= i < |log| => log[i].index)
  }

  lemma ReportersJoin<K>(a: seq<Report<K>>, b: seq<Report<K>>)
    ensures Reporters(a + b) == Reporters(a) + Reporters(b)
  {
  }

  lemma ReportersGrow<K>(log: seq<Report<K>>, r: Report<K>)
    ensures Reporters(log + [r]) == Reporters(log) + [r.index]
  {
  }

  /** The log grew by one report of each of `who`, in that order. */
  ghost predicate Grew<K>(before: seq<Report<K>>, after: seq<Report<K>>, who: seq<nat>) {
    before <= after && Reporters(after) == Reporters(before) + who
  }

  lemma GrewByNone<K>(log: seq<Report<K>>)
    ensures Grew(log, log, [])
  {
    assert Reporters(log) + [] == Reporters(log);
  }

  lemma GrewByOne<K>(before: seq<Report<K>>, log: seq<Report<K>>, due: seq<nat>, k: nat, r: Report<K>)
    requires k < |due| && Grew(before, log, due[..k]) && r.index == due[k]
    ensures Grew(before, log + [r], due[..k + 1])
  {
    ReportersGrow(log, r);
    assert due[..k + 1] == due[..k] + [due[k]];
    assert Reporters(before) + due[..k] + [due[k]] == Reporters(before) + due[..k + 1];
  }

  /** Every device's reports in the log are its first ones, in order, none left out. */
  ghost predicate Faithful<K, G>(w: World<K, G>, origins: seq<Device<K, G>>, log: seq<Report<K>>) {
    forall i :: 0 <= i < |origins| ==> ReportsOf(log, i) == First(w, origins[i], |ReportsOf(log, i)|)
  }

  /** Seed determinism: two runs from one seed, whatever their throttles, deferrals,
      restarts and transports, agree on every report both of them got to. */
  lemma SameSeedSameReports<K, G>(w: World<K, G>, origins: seq<Device<K, G>>,
                                  a: seq<Report<K>>, b: seq<Report<K>>, i: nat, n: nat)
    requires Faithful(w, origins, a) && Faithful(w, origins, b) && i < |origins|
    requires n < |ReportsOf(a, i)| && n < |ReportsOf(b, i)|
    ensures ReportsOf(a, i)[n] == ReportsOf(b, i)[n]
  {
    var x, y := |ReportsOf(a, i)|, |ReportsOf(b, i)|;
    FirstIsPrefix(w, origins[i], if x < y then x else y, if x < y then y else x);
  }

  // ---------------------------------------------------------------------------
  // The schedule
  // ---------------------------------------------------------------------------

  datatype Deadline = Deadline(due: int, index: nat)

  predicate Before(a: Deadline, b: Deadline) {
    a.due < b.due || (a.due == b.due && a.index <= b.index)
  }

  predicate Sorted(heap: seq<Deadline>) {
    forall i, j :: 0 <= i < j < |heap| ==> Before(heap[i], heap[j])
  }

  function Indices(heap: seq<Deadline>): (r: seq<nat>)
    ensures |r| == |heap|
  {
    seq(|heap|, i requires 0 <= i < |heap| => heap[i].index)
  }

  /** How often each device is scheduled. */
  function Load(heap: seq<Deadline>): multiset<nat> {
    multiset(Indices(heap))
  }

  function Range(n: nat): (r: multiset<nat>)
    ensures forall i: nat :: r[i] == if i < n then 1 else 0
  {
    if n == 0 then multiset{} else Range(n - 1) + multiset{n - 1}
  }

  lemma LoadSplit(a: seq<Deadline>, b: seq<Deadline>)
    ensures Load(a + b) == Load(a) + Load(b)
  {
    assert Indices(a + b) == Indices(a) + Indices(b);
  }

  function Inserted(heap: seq<Deadline>, e: Deadline): seq<Deadline> {
    if heap == [] || Before(e, heap[0]) then [e] + heap else [heap[0]] + Inserted(heap[1..], e)
  }

  lemma {:induction false} InsertedLoad(heap: seq<Deadline>, e: Deadline)
    ensures Load(Inserted(heap, e)) == Load(heap) + multiset{e.index}
  {
    if heap == [] || Before(e, heap[0]) {
      LoadSplit([e], heap);
    } else {
      InsertedLoad(heap[1..], e);
      LoadSplit([heap[0]], Inserted(heap[1..], e));
      LoadSplit([heap[0]], heap[1..]);
      assert heap == [heap[0]] + heap[1..];
    }
  }

  lemma {:induction false} InsertedMembers(heap: seq<Deadline>, e: Deadline)
    ensures forall x :: x in Inserted(heap, e) <==> x in heap || x == e
  {
    if heap != [] && !Before(e, heap[0]) { InsertedMembers(heap[1..], e); }
  }

  lemma ConsSorted(x: Deadline, rest: seq<Deadline>)
    requires Sorted(rest) && forall y :: y in rest ==> Before(x, y)
    ensures Sorted([x] + rest)
  {
  }

  lemma {:induction false} InsertedSorted(heap: seq<Deadline>, e: Deadline)
    requires Sorted(heap)
    ensures Sorted(Inserted(heap, e))
  {
    if heap == [] || Before(e, heap[0]) {
      ConsSorted(e, heap);
    } else {
      InsertedSorted(heap[1..], e);
      InsertedMembers(heap[1..], e);
      ConsSorted(heap[0], Inserted(heap[1..], e));
    }
  }

  /** Who is due, earliest first. */
  function Served(heap: seq<Deadline>, now: int): seq<nat> {
    if heap == [] || heap[0].due > now then [] else [heap[0].index] + Served(heap[1..], now)
  }

  lemma IndicesGrow(heap: seq<Deadline>, k: nat)
    requires k < |heap|
    ensures Indices(heap[..k + 1]) == Indices(heap[..k]) + [heap[k].index]
    ensures heap[k..][1..] == heap[k + 1..]
  {
  }

  lemma LoadCut(heap: seq<Deadline>, k: nat)
    requires k <= |heap|
    ensures Load(heap) == Load(heap[k..]) + multiset(Indices(heap[..k]))
  {
    LoadSplit(heap[..k], heap[k..]);
    assert heap == heap[..k] + heap[k..];
  }

  lemma TailIsLater(heap: seq<Deadline>, now: int)
    requires Sorted(heap) && (heap != [] ==> heap[0].due > now)
    ensures forall e :: e in heap ==> e.due > now
  {
    forall e | e in heap ensures e.due > now {
      var i :| 0 <= i < |heap| && heap[i] == e;
      assert i == 0 || Before(heap[0], heap[i]);
    }
  }

  class Schedule {
    var heap: seq<Deadline>     // the heap, as the order it is popped in

    constructor ()
      ensures heap == []
    {
      heap := [];
    }

    method Push(index: nat, due: int)
      requires Sorted(heap)
      modifies this
      ensures Sorted(heap) && heap == Inserted(old(heap), Deadline(due, index))
      ensures Load(heap) == old(Load(heap)) + multiset{index}
    {
      InsertedLoad(heap, Deadline(due, index));
      InsertedSorted(heap, Deadline(due, index));
      heap := Inserted(heap, Deadline(due, index));
    }

    /** Serve those whose deadline has passed, earliest first, and nobody else. */
    method PopDue(now: int) returns (due: seq<nat>)
      requires Sorted(heap)
      modifies this
      ensures |due| <= |old(heap)| && due == Indices(old(heap)[..|due|]) && heap == old(heap)[|due|..]
      ensures Sorted(heap) && due == Served(old(heap), now)
      ensures forall e :: e in heap ==> e.due > now
      ensures Load(heap) + multiset(due) == old(Load(heap))
    {
      due := [];
      while heap != [] && heap[0].due <= now
        invariant |due| <= |old(heap)| && heap == old(heap)[|due|..]
        invariant due == Indices(old(heap)[..|due|])
        invariant due + Served(heap, now) == Served(old(heap), now)
        decreases |heap|
      {
        IndicesGrow(old(heap), |due|);
        due := due + [heap[0].index];
        heap := heap[1..];
      }
      LoadCut(old(heap), |due|);
      TailIsLater(heap, now);
    }

    method Clear()
      modifies this
      ensures heap == []
    {
      heap := [];
    }
  }

  /** Popped devices are distinct members of the fleet, because the schedule was exact. */
  lemma DueIsDistinct(rest: multiset<nat>, due: seq<nat>, n: nat)
    requires rest + multiset(due) == Range(n)
    ensures forall i :: 0 <= i < |due| ==> due[i] < n
    ensures forall i, j :: 0 <= i < j < |due| ==> due[i] != due[j]
  {
    forall i | 0 <= i < |due| ensures due[i] < n {
      assert due[i] in multiset(due) && Range(n)[due[i]] > 0;
    }
    forall i, j | 0 <= i < j < |due| ensures due[i] != due[j] {
      assert due == due[..j] + [due[j]] + due[j + 1..];
      assert multiset(due) == multiset(due[..j]) + multiset{due[j]} + multiset(due[j + 1..]);
      assert due[..j][i] in multiset(due[..j]);
      assert Range(n)[due[i]] <= 1;
    }
  }

  lemma InRange(rest: multiset<nat>, due: multiset<nat>, n: nat, i: nat)
    requires rest + due == Range(n) && i in due
    ensures i < n
  {
    assert Range(n)[i] > 0;
  }

  // ---------------------------------------------------------------------------
  // The devices
  // ---------------------------------------------------------------------------

  /** The generator's parallel lists. */
  datatype Bank<K, G> = Bank(states: seq<K>, rngs: seq<G>, clocks: seq<G>, dt: seq<int>)

  ghost predicate Shaped<K, G>(b: Bank<K, G>, n: nat) {
    |b.states| == n && |b.rngs| == n && |b.clocks| == n && |b.dt| == n
  }

  ghost function DeviceAt<K, G>(b: Bank<K, G>, i: nat): Device<K, G>
    requires Shaped(b, |b.states|) && i < |b.states|
  {
    Device(b.states[i], b.rngs[i], b.clocks[i], b.dt[i])
  }

  /** Device `i` is where its own reports put it, and ready for the next one. */
  ghost predicate SettledAt<K, G>(w: World<K, G>, origin: Device<K, G>, b: Bank<K, G>, log: seq<Report<K>>, i: nat)
    requires Shaped(b, |b.states|) && i < |b.states|
  {
    DeviceAt(b, i) == After(w, origin, |ReportsOf(log, i)|)
  }

  /** It has moved for its last report and is not rescheduled yet. */
  ghost predicate BetweenAt<K, G>(w: World<K, G>, origin: Device<K, G>, b: Bank<K, G>, log: seq<Report<K>>, i: nat)
    requires Shaped(b, |b.states|) && i < |b.states|
  {
    && |ReportsOf(log, i)| > 0
    && DeviceAt(b, i) == Moved(w, After(w, origin, |ReportsOf(log, i)| - 1))
  }

  /** The devices in `moved` are between, the others settled. */
  ghost predicate Midway<K, G>(w: World<K, G>, origins: seq<Device<K, G>>, b: Bank<K, G>,
                               log: seq<Report<K>>, moved: set<nat>)
    requires Shaped(b, |origins|)
  {
    forall i: nat :: i < |origins| ==>
      if i in moved then BetweenAt(w, origins[i], b, log, i) else SettledAt(w, origins[i], b, log, i)
  }

  ghost predicate AllSettled<K, G>(w: World<K, G>, origins: seq<Device<K, G>>, b: Bank<K, G>, log: seq<Report<K>>)
    requires Shaped(b, |origins|)
  {
    Midway(w, origins, b, log, {})
  }

  lemma MembersSplit(s: seq<nat>, k: nat)
    requires k < |s| && forall i, j :: 0 <= i < j < |s| ==> s[i] != s[j]
    ensures Members(s[..k + 1]) == Members(s[..k]) + {s[k]} && s[k] !in Members(s[..k])
    ensures Members(s[k..]) == Members(s[k + 1..]) + {s[k]} && s[k] !in Members(s[k + 1..])
  {
    assert s[..k + 1] == s[..k] + [s[k]];
    assert s[k..] == [s[k]] + s[k + 1..];
  }

  /** Having reported, a device is due again after the step it drew. */
  predicate NextDue(e: Deadline, due: set<nat>, now: int, dt: seq<int>) {
    e.index in due && e.index < |dt| && e.due == now + dt[e.index]
  }

  /** One more device goes back; those that went before keep their deadlines. */
  lemma NextDueOn(was: seq<Deadline>, heap: seq<Deadline>, first: seq<Deadline>, done: set<nat>, i: nat, now: int,
                  lengths: seq<int>, dt: seq<int>)
    requires i !in done && |dt| == |lengths| && forall j :: 0 <= j < |dt| && j != i ==> dt[j] == lengths[j]
    requires forall e :: e in was ==> e in first || NextDue(e, done, now, lengths)
    requires forall e :: e in heap ==> e in was || (i < |dt| && e == Deadline(now + dt[i], i))
    ensures forall e :: e in heap ==> e in first || NextDue(e, done + {i}, now, dt)
  {
  }

  /** One of the first `n` devices held back, each by a draw of the schedule's own stream. */
  ghost predicate Deferred<K, G>(w: World<K, G>, g: G, e: Deadline, due: seq<nat>, n: nat, until: int) {
    exists k: nat :: k < n && k < |due| && HeldBack(w, g, e, due[k], k, until)
  }

  predicate HeldBack<K, G>(w: World<K, G>, g: G, e: Deadline, i: nat, k: nat, until: int) {
    e.index == i && e.due == until + Interval(w, g, k + 1)
  }

  lemma ClockOn<K, G>(w: World<K, G>, g: G, k: nat)
    ensures Clock(w, Clock(w, g, k), 1) == Clock(w, g, k + 1)
    ensures Interval(w, Clock(w, g, k), 1) == Interval(w, g, k + 1)
  {
    assert Clock(w, Clock(w, g, k), 0) == Clock(w, g, k);
  }

  /** The schedule once the first `k` due devices have been held back. */
  function HoldingBack<K, G>(w: World<K, G>, g: G, heap: seq<Deadline>, due: seq<nat>, k: nat, until: int)
    : seq<Deadline>
    requires k <= |due|
  {
    if k == 0 then heap
    else Inserted(HoldingBack(w, g, heap, due, k - 1, until), Deadline(until + Interval(w, g, k), due[k - 1]))
  }

  lemma {:induction false} HeldBackLoad<K, G>(
    w: World<K, G>, g: G, heap: seq<Deadline>, due: seq<nat>, k: nat, until: int)
    requires Sorted(heap) && k <= |due|
    ensures var after := HoldingBack(w, g, heap, due, k, until);
            Sorted(after) && Load(after) == Load(heap) + multiset(due[..k])
  {
    if k > 0 {
      HeldBackLoad(w, g, heap, due, k - 1, until);
      var before, e := HoldingBack(w, g, heap, due, k - 1, until), Deadline(until + Interval(w, g, k), due[k - 1]);
      InsertedSorted(before, e);
      InsertedLoad(before, e);
      assert due[..k] == due[..k - 1] + [due[k - 1]];
    }
  }

  lemma {:induction false} HeldBackAll<K, G>(
    w: World<K, G>, g: G, heap: seq<Deadline>, due: seq<nat>, k: nat, until: int)
    requires k <= |due|
    ensures forall e :: e in HoldingBack(w, g, heap, due, k, until) ==>
              e in heap || Deferred(w, g, e, due, k, until)
  {
    if k > 0 {
      HeldBackAll(w, g, heap, due, k - 1, until);
      var before, e := HoldingBack(w, g, heap, due, k - 1, until), Deadline(until + Interval(w, g, k), due[k - 1]);
      InsertedMembers(before, e);
      HeldBackOn(w, g, due, k - 1, until);
    }
  }

  lemma HeldBackOn<K, G>(w: World<K, G>, g: G, due: seq<nat>, k: nat, until: int)
    requires k < |due|
    ensures Deferred(w, g, Deadline(until + Interval(w, g, k + 1), due[k]), due, k + 1, until)
    ensures forall e :: Deferred(w, g, e, due, k, until) ==> Deferred(w, g, e, due, k + 1, until)
  {
    assert HeldBack(w, g, Deadline(until + Interval(w, g, k + 1), due[k]), due[k], k, until);
    forall e | Deferred(w, g, e, due, k, until) ensures Deferred(w, g, e, due, k + 1, until) {
      var j: nat :| j < k && j < |due| && HeldBack(w, g, e, due[j], j, until);
    }
  }

  class Devices<K(!new), G(!new)> {
    const world: World<K, G>
    const schedule: Schedule
    ghost const origins: seq<Device<K, G>>
    var states: seq<K>
    var rngs: seq<G>
    var clocks: seq<G>
    var dt: seq<int>
    var rng: G
    var driving: bool
    ghost var log: seq<Report<K>>

    ghost function Books(): Bank<K, G>
      reads this
    {
      Bank(states, rngs, clocks, dt)
    }

    ghost predicate Honest()
      reads this
    {
      Shaped(Books(), |origins|) && Faithful(world, origins, log)
    }

    ghost predicate Settled(i: nat)
      requires Honest() && i < |origins|
      reads this
    {
      SettledAt(world, origins[i], Books(), log, i)
    }

    ghost predicate Between(i: nat)
      requires Honest() && i < |origins|
      reads this
    {
      BetweenAt(world, origins[i], Books(), log, i)
    }

    /** What holds at every await: the log is faithful, no device is half-way through a
        report, and while somebody drives the fleet every device is scheduled exactly once. */
    ghost predicate Valid()
      reads this, schedule
    {
      && Honest() && Sorted(schedule.heap)
      && AllSettled(world, origins, Books(), log)
      && (driving ==> Load(schedule.heap) == Range(|origins|))
    }

    /** Between two awaits: all is settled, and the devices off the schedule are `due`. */
    ghost predicate Holding(due: multiset<nat>)
      reads this, schedule
    {
      && Honest() && Sorted(schedule.heap)
      && AllSettled(world, origins, Books(), log)
      && Load(schedule.heap) + due == Range(|origins|)
    }

    constructor (world: World<K, G>, states: seq<K>, rngs: seq<G>, clocks: seq<G>, rng: G)
      requires |rngs| == |states| && |clocks| == |states|
      ensures Valid() && !driving && log == [] && this.world == world && fresh(schedule)
      ensures origins == seq(|states|, i requires 0 <= i < |states| =>
                               Device(states[i], rngs[i], clocks[i], world.interval))
    {
      this.world, this.states, this.rngs, this.clocks, this.rng := world, states, rngs, clocks, rng;
      dt := seq(|states|, i => world.interval);
      origins := seq(|states|, i requires 0 <= i < |states| => Device(states[i], rngs[i], clocks[i], world.interval));
      schedule := new Schedule();
      driving := false;
      log := [];
    }

    /** Claim the fleet for one task; a second owner is refused and changes nothing. */
    method Drive(now: int, spread: int) returns (ok: bool)
      requires Valid()
      modifies this, schedule
      ensures Valid() && log == old(log)
      ensures ok <==> !old(driving)
      ensures driving
      ensures ok ==> forall e :: e in schedule.heap ==>
                e.due == FirstDue(world, old(rng), now, spread, |origins|, e.index)
    {
      if driving {
        return false;
      }
      Start(now, spread);
      driving := true;
      ok := true;
    }

    /** The driving task ended, at an await. */
    method Release()
      requires Valid()
      modifies this`driving
      ensures Valid() && !driving
    {
      driving := false;
    }

    /** Rebuild the schedule: every device once, whatever was in it before. */
    method Start(now: int, spread: int)
      requires Valid()
      modifies this`rng, schedule
      ensures Valid() && Load(schedule.heap) == Range(|origins|)
      ensures forall e :: e in schedule.heap ==> e.due == FirstDue(world, old(rng), now, spread, |origins|, e.index)
    {
      schedule.Clear();
      for index := 0 to |states|
        invariant Sorted(schedule.heap) && Load(schedule.heap) == Range(index)
        invariant rng == Layout(world, old(rng), index)
        invariant forall e :: e in schedule.heap ==>
                    e.due == FirstDue(world, old(rng), now, spread, |origins|, e.index)
      {
        var (wait, next) := world.fraction(world.interval, rng);
        rng := next;
        var due := now + Share(spread, index, |states|) + wait;
        InsertedMembers(schedule.heap, Deadline(due, index));
        schedule.Push(index, due);
      }
    }

    /** One step of a device's own length, drawn from its own movement stream. */
    method Step(i: nat, moment: int) returns (report: Report<K>)
      requires Honest() && i < |origins| && Settled(i)
      modifies this`states, this`rngs, this`log
      ensures Honest() && Between(i) && log == old(log) + [report]
      ensures report == Report(i, states[i], moment)
      ensures forall j :: 0 <= j < |origins| && j != i ==>
                DeviceAt(Books(), j) == old(DeviceAt(Books(), j)) && ReportsOf(log, j) == old(ReportsOf(log, j))
    {
      var (state, next) := world.advance(states[i], dt[i], rngs[i]);
      states, rngs := states[i := state], rngs[i := next];
      report := Report(i, state, moment);
      assert (log + [report])[..|log|] == log;
      log := log + [report];
    }

    /** Put a device back, one interval from now: the only draw on its interval stream. */
    method Reschedule(i: nat, now: int)
      requires Honest() && i < |origins| && Between(i) && Sorted(schedule.heap)
      modifies this`clocks, this`dt, schedule
      ensures Honest() && Settled(i) && Sorted(schedule.heap)
      ensures forall j :: 0 <= j < |origins| && j != i ==> DeviceAt(Books(), j) == old(DeviceAt(Books(), j))
      ensures |dt| == old(|dt|) && forall j :: 0 <= j < |dt| && j != i ==> dt[j] == old(dt[j])
      ensures schedule.heap == Inserted(old(schedule.heap), Deadline(now + dt[i], i))
      ensures Load(schedule.heap) == old(Load(schedule.heap)) + multiset{i}
    {
      var (delay, next) := world.jitter(world.interval, clocks[i]);
      clocks, dt := clocks[i := next], dt[i := delay];
      schedule.Push(i, now + delay);
    }

    /** Push a device's deadline back, its own streams untouched. */
    method Defer(i: nat, until: int)
      requires Sorted(schedule.heap)
      modifies this`rng, schedule
      ensures Sorted(schedule.heap) && Load(schedule.heap) == old(Load(schedule.heap)) + multiset{i}
      ensures rng == Clock(world, old(rng), 1)
      ensures schedule.heap == Inserted(old(schedule.heap), Deadline(until + Interval(world, old(rng), 1), i))
    {
      var (wait, next) := world.jitter(world.interval, rng);
      rng := next;
      schedule.Push(i, until + wait);
    }

    /** Take the due devices off the schedule. */
    method Collect(now: int) returns (due: seq<nat>)
      requires Valid() && driving
      modifies schedule
      ensures due == Served(old(schedule.heap), now) && Holding(multiset(due))
    {
      due := schedule.PopDue(now);
    }

    /** Step and reschedule one due device. */
    method ReportOnce(i: nat, now: int, moment: int, ghost due: multiset<nat>) returns (report: Report<K>)
      requires Holding(due) && i in due
      modifies this`states, this`rngs, this`clocks, this`dt, this`log, schedule
      ensures Holding(due - multiset{i}) && i < |dt|
      ensures schedule.heap == Inserted(old(schedule.heap), Deadline(now + dt[i], i))
      ensures log == old(log) + [report] && report.index == i && report.moment == moment
    {
      InRange(Load(schedule.heap), due, |origins|, i);
      report := Step(i, moment);
      Reschedule(i, now);
    }

    method StepInto(i: nat, moment: int, ghost moved: set<nat>) returns (report: Report<K>)
      requires Honest() && Midway(world, origins, Books(), log, moved) && i < |origins| && i !in moved
      modifies this`states, this`rngs, this`log
      ensures Honest() && Midway(world, origins, Books(), log, moved + {i})
      ensures log == old(log) + [report] && report.index == i
    {
      report := Step(i, moment);
    }

    method RescheduleOutOf(i: nat, now: int, ghost moved: set<nat>)
      requires Honest() && Midway(world, origins, Books(), log, moved) && i < |origins| && i in moved
      requires Sorted(schedule.heap)
      modifies this`clocks, this`dt, schedule
      ensures Honest() && Midway(world, origins, Books(), log, moved - {i}) && Sorted(schedule.heap)
      ensures Load(schedule.heap) == old(Load(schedule.heap)) + multiset{i}
      ensures |dt| == old(|dt|) && forall j :: 0 <= j < |dt| && j != i ==> dt[j] == old(dt[j])
      ensures forall e :: e in schedule.heap ==> e in old(schedule.heap) || (i < |dt| && e == Deadline(now + dt[i], i))
    {
      Reschedule(i, now);
      InsertedMembers(old(schedule.heap), Deadline(now + dt[i], i));
    }

    /** Move every due device. */
    method StepAll(due: seq<nat>, moment: int) returns (reports: seq<Report<K>>)
      requires Honest() && Midway(world, origins, Books(), log, {})
      requires forall i :: 0 <= i < |due| ==> due[i] < |origins|
      requires forall i, j :: 0 <= i < j < |due| ==> due[i] != due[j]
      modifies this`states, this`rngs, this`log
      ensures Honest() && log == old(log) + reports && Reporters(reports) == due
      ensures Midway(world, origins, Books(), log, Members(due))
    {
      reports := [];
      for k := 0 to |due|
        invariant Honest() && log == old(log) + reports && Reporters(reports) == due[..k]
        invariant Midway(world, origins, Books(), log, Members(due[..k]))
      {
        MembersSplit(due, k);
        var report := StepInto(due[k], moment, Members(due[..k]));
        ReportersGrow(reports, report);
        reports := reports + [report];
        assert due[..k + 1] == due[..k] + [due[k]];
      }
      assert due[..|due|] == due;
    }

    /** Every due device moves and reports, then every one goes back on the schedule. */
    method ServeAll(due: seq<nat>, now: int, moment: int) returns (reports: seq<Report<K>>)
      requires Holding(multiset(due))
      modifies this`states, this`rngs, this`clocks, this`dt, this`log, schedule
      ensures Holding(multiset{}) && Grew(old(log), log, due) && log == old(log) + reports
      ensures forall e :: e in schedule.heap ==> e in old(schedule.heap) || NextDue(e, Members(due), now, dt)
    {
      DueIsDistinct(Load(schedule.heap), due, |origins|);
      reports := StepAll(due, moment);
      ReportersJoin(old(log), reports);
      RescheduleAll(due, now);
    }

    /** Put every one of them back. */
    method RescheduleAll(due: seq<nat>, now: int)
      requires Honest() && Midway(world, origins, Books(), log, Members(due)) && Sorted(schedule.heap)
      requires forall i :: 0 <= i < |due| ==> due[i] < |origins|
      requires forall i, j :: 0 <= i < j < |due| ==> due[i] != due[j]
      modifies this`clocks, this`dt, schedule
      ensures Honest() && Midway(world, origins, Books(), log, {}) && Sorted(schedule.heap)
      ensures Load(schedule.heap) == old(Load(schedule.heap)) + multiset(due)
      ensures forall e :: e in schedule.heap ==> e in old(schedule.heap) || NextDue(e, Members(due), now, dt)
    {
      assert due[0..] == due && due[..0] == [];
      for k := 0 to |due|
        invariant Honest() && Midway(world, origins, Books(), log, Members(due[k..])) && Sorted(schedule.heap)
        invariant Load(schedule.heap) == old(Load(schedule.heap)) + multiset(due[..k])
        invariant forall e :: e in schedule.heap ==>
                    e in old(schedule.heap) || NextDue(e, Members(due[..k]), now, dt)
      {
        MembersSplit(due, k);
        ghost var was, lengths := schedule.heap, dt;
        RescheduleOutOf(due[k], now, Members(due[k..]));
        assert Members(due[k..]) - {due[k]} == Members(due[k + 1..]);
        NextDueOn(was, schedule.heap, old(schedule.heap), Members(due[..k]), due[k], now, lengths, dt);
        assert due[..k + 1] == due[..k] + [due[k]];
      }
      assert due[..|due|] == due && Members(due[|due|..]) == {};
    }

    /** Hold every due device back; nobody moves. */
    method DeferAll(due: seq<nat>, until: int)
      requires Holding(multiset(due))
      modifies this`rng, schedule
      ensures Holding(multiset{})
      ensures forall e :: e in schedule.heap ==>
                e in old(schedule.heap) || Deferred(world, old(rng), e, due, |due|, until)
    {
      HeldBackAll(world, rng, schedule.heap, due, |due|, until);
      HeldBackLoad(world, rng, schedule.heap, due, |due|, until);
      assert due[..|due|] == due;
      DeferEach(due, until);
    }

    method DeferEach(due: seq<nat>, until: int)
      requires Sorted(schedule.heap)
      modifies this`rng, schedule
      ensures schedule.heap == HoldingBack(world, old(rng), old(schedule.heap), due, |due|, until)
    {
      for k := 0 to |due|
        invariant Sorted(schedule.heap) && rng == Clock(world, old(rng), k)
        invariant schedule.heap == HoldingBack(world, old(rng), old(schedule.heap), due, k, until)
      {
        ClockOn(world, old(rng), k);
        Defer(due[k], until);
      }
    }
  }
}
