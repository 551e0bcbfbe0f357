/** The load generator's books: every report produced is sent, dropped, or still somewhere
    it can be counted, and reports leave in order. */
module ReportFlow {
  import opened Options
  import opened GeneratorFleet

  const HTTP_ATTEMPTS: nat := 3
  const QUEUE_DEPTH_FACTOR: nat := 4

  // ---------------------------------------------------------------------------
  // Sequences of batches
  // ---------------------------------------------------------------------------

  function Flat<T>(batches: seq<seq<T>>): seq<T> {
    if batches == [] then [] else Flat(batches[..|batches| - 1]) + batches[|batches| - 1]
  }

  lemma {:induction false} FlatJoins<T>(a: seq<seq<T>>, b: seq<seq<T>>)
    ensures Flat(a + b) == Flat(a) + Flat(b)
  {
    if b == [] {
      assert a + b == a;
    } else {
      var init, last := b[..|b| - 1], b[|b| - 1];
      calc {
        Flat(a + b);
        { assert (a + b)[..|a + b| - 1] == a + init && (a + b)[|a + b| - 1] == last; }
        Flat(a + init) + last;
        { FlatJoins(a, init); }
        (Flat(a) + Flat(init)) + last;
        Flat(a) + (Flat(init) + last);
        Flat(a) + Flat(b);
      }
    }
  }

  lemma FlatOne<T>(batch: seq<T>)
    ensures Flat([batch]) == batch
  {
    assert [batch][..0] == [];
  }

  /** Everything made so far, in order: what left the queue, what is in it, what is being
      batched. */
  function Line<T>(gone: seq<seq<T>>, queue: seq<seq<T>>, batched: seq<T>): seq<T> {
    Flat(gone) + Flat(queue) + batched
  }

  lemma LineLength<T>(gone: seq<seq<T>>, queue: seq<seq<T>>, batched: seq<T>)
    ensures |Line(gone, queue, batched)| == |Flat(gone)| + |Flat(queue)| + |batched|
  {
  }

  /** The head of the queue leaves it; the line stays what it was. */
  lemma LineMoves<T>(gone: seq<seq<T>>, queue: seq<seq<T>>, batched: seq<T>)
    requires queue != []
    ensures Line(gone + [queue[0]], queue[1..], batched) == Line(gone, queue, batched)
    ensures |Flat(gone + [queue[0]])| == |Flat(gone)| + |queue[0]|
    ensures gone + [queue[0]] + queue[1..] == gone + queue
  {
    FlatLast(gone, queue[0]);
    FlatHead(queue);
    assert (Flat(gone) + queue[0]) + Flat(queue[1..]) == Flat(gone) + (queue[0] + Flat(queue[1..]));
  }

  /** A batch goes from the batcher to the back of the queue. */
  lemma LineAdvances<T>(gone: seq<seq<T>>, queue: seq<seq<T>>, batch: seq<T>, rest: seq<T>)
    ensures Line(gone, queue + [batch], rest) == Line(gone, queue, batch + rest)
  {
    FlatJoins(queue, [batch]);
    FlatOne(batch);
  }

  lemma LineGrows<T>(gone: seq<seq<T>>, queue: seq<seq<T>>, batched: seq<T>, more: seq<T>)
    ensures Line(gone, queue, batched + more) == Line(gone, queue, batched) + more
  {
  }

  /** Every batch is a request the server would take: not empty and within the limit. */
  ghost predicate Sized<T>(batches: seq<seq<T>>, size: nat) {
    forall i :: 0 <= i < |batches| ==> 1 <= |batches[i]| <= size
  }

  lemma OneLess(due: seq<nat>, k: nat)
    requires k < |due|
    ensures due[k] in multiset(due[k..]) && multiset(due[k..]) - multiset{due[k]} == multiset(due[k + 1..])
  {
    assert due[k..] == [due[k]] + due[k + 1..];
  }

  /** What a sender has in hand: a batch and the attempts it has left. */
  datatype Held<K> = Held(batch: seq<Report<K>>, left: nat)

  function InHand<K>(held: seq<Option<Held<K>>>): nat {
    if held == [] then 0
    else InHand(held[..|held| - 1]) + Size(held[|held| - 1])
  }

  function Size<K>(h: Option<Held<K>>): nat {
    if h.Some? then |h.value.batch| else 0
  }

  lemma {:induction false} InHandUpdate<K>(held: seq<Option<Held<K>>>, i: nat, h: Option<Held<K>>)
    requires i < |held|
    ensures InHand(held[i := h]) == InHand(held) - Size(held[i]) + Size(h)
    ensures Size(held[i]) <= InHand(held)
  {
    var n := |held| - 1;
    if i == n {
      assert held[i := h][..n] == held[..n];
    } else {
      InHandUpdate(held[..n], i, h);
      assert held[i := h][..n] == held[..n][i := h];
    }
  }

  lemma {:induction false} NothingInHand<K>(held: seq<Option<Held<K>>>)
    requires forall i :: 0 <= i < |held| ==> held[i].None?
    ensures InHand(held) == 0
  {
    if held != [] { NothingInHand(held[..|held| - 1]); }
  }

  // ---------------------------------------------------------------------------
  // HTTP
  // ---------------------------------------------------------------------------

  /** Batches are only ever added, and only full ones unless the window is over. */
  ghost predicate Justified<T>(before: seq<seq<T>>, after: seq<seq<T>>, size: nat, overdue: bool) {
    before <= after && forall i :: |before| <= i < |after| ==> |after[i]| == size || overdue
  }

  class Batcher<K(!new)> {
    const size: nat
    const window: int
    var reports: seq<Report<K>>
    var oldestAt: int

    constructor (size: nat, window: int)
      ensures this.size == size && this.window == window && reports == []
    {
      this.size, this.window := size, window;
      reports, oldestAt := [], 0;
    }

    method Add(report: Report<K>, now: int)
      modifies this
      ensures reports == old(reports) + [report]
      ensures oldestAt == if old(reports) == [] then now else old(oldestAt)
    {
      if reports == [] { oldestAt := now; }
      reports := reports + [report];
    }

    /** Seconds until the batch has to leave. */
    function Remaining(now: int): Option<int>
      reads this
    {
      if reports == [] then None
      else if oldestAt + window - now < 0 then Some(0) else Some(oldestAt + window - now)
    }

    predicate Ready(now: int)
      reads this
    {
      Remaining(now).Some? && (|reports| >= size || Remaining(now).value <= 0)
    }

    /** At most one request's worth leaves; the deadline is not reset for the rest. */
    method Take() returns (batch: seq<Report<K>>)
      modifies this`reports
      ensures batch + reports == old(reports) && |batch| <= size
      ensures |old(reports)| <= size ==> reports == []
      ensures |old(reports)| > size ==> |batch| == size
    {
      if |reports| <= size {
        batch, reports := reports, [];
        return;
      }
      batch, reports := reports[..size], reports[size..];
    }
  }

  datatype Response = Unreachable | Accepted | Busy | Refused

  class HttpRunner<K(!new), G(!new)> {
    const connections: nat
    const devices: Devices<K, G>
    const batcher: Batcher<K>
    var queue: seq<seq<Report<K>>>
    var held: seq<Option<Held<K>>>
    var produced: nat
    var sent: nat
    var rejected: nat
    var dropped: nat
    ghost var gone: seq<seq<Report<K>>>     // the batches that left the queue, in order

    ghost predicate Requests()
      reads this
    {
      && 1 <= batcher.size && 1 <= connections
      && |queue| <= connections * QUEUE_DEPTH_FACTOR && |held| == connections
      && (forall i :: 0 <= i < |held| && held[i].Some? ==> held[i].value.left > 0)
      && Sized(gone + queue, batcher.size)
    }

    ghost predicate Booked()
      reads this
    {
      |Flat(gone)| == sent + dropped + InHand(held)
    }

    /** Nothing overtakes: the batches that left, the queue and the batcher spell out the
        log, and what left is accounted for. */
    ghost predicate Valid()
      reads this, batcher, devices, devices.schedule
    {
      && Requests() && Booked()
      && Line(gone, queue, batcher.reports) == devices.log && produced == |devices.log|
      && devices.Valid() && devices.driving
    }

    /** Report conservation, at every await. */
    lemma Balance()
      requires Valid()
      ensures produced == sent + dropped + |batcher.reports| + |Flat(queue)| + InHand(held)
    {
      LineLength(gone, queue, batcher.reports);
    }

    constructor (connections: nat, size: nat, window: int, devices: Devices<K, G>)
      requires 1 <= connections && 1 <= size
      requires devices.Valid() && devices.driving && devices.log == []
      ensures Valid() && this.connections == connections && this.devices == devices && fresh(batcher)
      ensures batcher.size == size && produced == 0
    {
      this.connections, this.devices := connections, devices;
      batcher := new Batcher(size, window);
      queue, gone := [], [];
      held := seq(connections, _ => None);
      produced, sent, rejected, dropped := 0, 0, 0, 0;
      new;
      NothingInHand(held);
    }

    /** Queue a batch; when the queue is full the oldest one makes room and is counted. */
    method Offer(batch: seq<Report<K>>, ghost rest: seq<Report<K>>)
      requires Requests() && Booked() && 1 <= |batch| <= batcher.size
      modifies this`queue, this`dropped, this`gone
      ensures Requests() && Booked() && queue != [] && queue[|queue| - 1] == batch
      ensures Line(gone, queue, rest) == Line(old(gone), old(queue), batch + rest)
      ensures gone + queue == old(gone + queue) + [batch]
      ensures old(|queue| < connections * QUEUE_DEPTH_FACTOR) ==>
                queue == old(queue) + [batch] && dropped == old(dropped)
      ensures old(|queue| == connections * QUEUE_DEPTH_FACTOR) ==>
                queue == old(queue)[1..] + [batch] && dropped == old(dropped) + |old(queue)[0]|
    {
      if |queue| >= connections * QUEUE_DEPTH_FACTOR {
        Shed(batch + rest);
      }
      LineAdvances(gone, queue, batch, rest);
      assert gone + (queue + [batch]) == (gone + queue) + [batch];
      queue := queue + [batch];
    }

    method Shed(ghost batched: seq<Report<K>>)
      requires Requests() && Booked() && queue != []
      modifies this`queue, this`dropped, this`gone
      ensures Requests() && Booked() && queue == old(queue)[1..] && dropped == old(dropped) + |old(queue)[0]|
      ensures gone + queue == old(gone + queue)
      ensures Line(gone, queue, batched) == Line(old(gone), old(queue), batched)
    {
      LineMoves(gone, queue, batched);
      dropped := dropped + |queue[0]|;
      gone, queue := gone + [queue[0]], queue[1..];
    }

    /** The drain loop of a tick: full batches, and whatever has waited out its window. */
    method DrainReady(now: int)
      requires Requests() && Booked()
      modifies this`queue, this`dropped, this`gone, batcher`reports
      ensures Requests() && Booked() && !batcher.Ready(now)
      ensures Justified(old(gone + queue), gone + queue, batcher.size, now >= batcher.oldestAt + batcher.window)
      ensures Line(gone, queue, batcher.reports) == Line(old(gone), old(queue), old(batcher.reports))
    {
      while batcher.Ready(now)
        invariant Requests() && Booked()
        invariant Justified(old(gone + queue), gone + queue, batcher.size, now >= batcher.oldestAt + batcher.window)
        invariant Line(gone, queue, batcher.reports) == Line(old(gone), old(queue), old(batcher.reports))
        decreases |batcher.reports|
      {
        var batch := batcher.Take();
        Offer(batch, batcher.reports);
      }
    }

    /** One producer tick, await to await: every due device moves, reports and goes back on
        the schedule, and no batch stays that is full or overdue. */
    method Tick(now: int, moment: int)
      requires Valid()
      modifies this`queue, this`dropped, this`gone, this`produced
      modifies batcher, devices, devices.schedule
      ensures Valid() && Grew(old(devices.log), devices.log, old(Served(devices.schedule.heap, now)))
      ensures batcher.reports == [] || (|batcher.reports| < batcher.size && now < batcher.oldestAt + batcher.window)
    {
      var due := devices.Collect(now);
      Report(due, now, moment);
      produced := produced + |due|;
      DrainReady(now);
    }

    method Report(due: seq<nat>, now: int, moment: int)
      requires devices.Holding(multiset(due)) && Line(gone, queue, batcher.reports) == devices.log
      modifies batcher, devices`states, devices`rngs, devices`clocks, devices`dt, devices`log, devices.schedule
      ensures devices.Holding(multiset{}) && Line(gone, queue, batcher.reports) == devices.log
      ensures Grew(old(devices.log), devices.log, due)
    {
      GrewByNone(devices.log);
      assert due[..0] == [] && due[0..] == due;
      for k := 0 to |due|
        invariant devices.Holding(multiset(due[k..])) && Line(gone, queue, batcher.reports) == devices.log
        invariant Grew(old(devices.log), devices.log, due[..k])
      {
        ghost var was := devices.log;
        OneLess(due, k);
        var report := devices.ReportOnce(due[k], now, moment, multiset(due[k..]));
        GrewByOne(old(devices.log), was, due, k, report);
        LineGrows(gone, queue, batcher.reports, [report]);
        batcher.Add(report, now);
      }
      assert due[..|due|] == due;
    }

    /** An idle sender takes the oldest batch. */
    method Pull(sender: nat)
      requires Valid() && sender < connections && held[sender].None? && queue != []
      modifies this`queue, this`held, this`gone
      ensures Valid() && queue == old(queue)[1..]
      ensures held == old(held)[sender := Some(Held(old(queue)[0], HTTP_ATTEMPTS))]
    {
      LineMoves(gone, queue, batcher.reports);
      var hand := Some(Held(queue[0], HTTP_ATTEMPTS));
      InHandUpdate(held, sender, hand);
      held := held[sender := hand];
      gone, queue := gone + [queue[0]], queue[1..];
    }

    /** One attempt of a sender came back. Whatever it took, the batch is booked once: as sent when
        it is answered, as dropped when no attempt is left. */
    method Attempt(sender: nat, response: Response) returns (settled: bool)
      requires Valid() && sender < connections && held[sender].Some?
      modifies this`held, this`sent, this`rejected, this`dropped
      ensures Valid()
      ensures var h := old(held)[sender].value;
              && (settled <==> response.Accepted? || response.Refused? || h.left == 1)
              && held == old(held)[sender := if settled then None else Some(Held(h.batch, h.left - 1))]
              && sent == old(sent) + (if response.Accepted? || response.Refused? then |h.batch| else 0)
              && rejected == old(rejected) + (if response.Refused? then |h.batch| else 0)
              && sent + dropped == old(sent + dropped) + (if settled then |h.batch| else 0)
    {
      var h := held[sender].value;
      InHandUpdate(held, sender, None);
      InHandUpdate(held, sender, Some(Held(h.batch, h.left - 1)));
      match response {
        case Accepted => sent, settled := sent + |h.batch|, true;
        case Refused => sent, rejected, settled := sent + |h.batch|, rejected + |h.batch|, true;
        case _ =>
          settled := h.left == 1;
          if settled { dropped := dropped + |h.batch|; }
      }
      held := held[sender := if settled then None else Some(Held(h.batch, h.left - 1))];
    }
  }

  // ---------------------------------------------------------------------------
  // Websocket
  // ---------------------------------------------------------------------------

  function Chunked<T>(s: seq<T>, size: nat): seq<seq<T>>
    requires 1 <= size
  {
    if s == [] then [] else if |s| <= size then [s] else [s[..size]] + Chunked(s[size..], size)
  }

  /** Frames carry everything in order, and all but the last are full. */
  lemma {:induction false} ChunkedIsAll<T>(s: seq<T>, size: nat)
    requires 1 <= size
    ensures Flat(Chunked(s, size)) == s && Sized(Chunked(s, size), size)
    ensures forall i :: 0 <= i < |Chunked(s, size)| - 1 ==> |Chunked(s, size)[i]| == size
  {
    if s != [] && |s| <= size {
      FlatOne(s);
    } else if s != [] {
      ChunkedIsAll(s[size..], size);
      FlatJoins([s[..size]], Chunked(s[size..], size));
      FlatOne(s[..size]);
    }
  }

  /** The reports of a log that got through, `fate` saying which of the first ones did. */
  function Through<T>(log: seq<T>, fate: seq<bool>): seq<T>
    requires |fate| <= |log|
  {
    if fate == [] then []
    else Through(log, fate[..|fate| - 1]) + if fate[|fate| - 1] then [log[|fate| - 1]] else []
  }

  function Same(n: nat, ok: bool): (r: seq<bool>)
    ensures |r| == n
  {
    seq(n, _ => ok)
  }

  lemma {:induction false} ThroughRun<T>(log: seq<T>, fate: seq<bool>, n: nat, ok: bool)
    requires |fate| + n <= |log|
    ensures Through(log, fate + Same(n, ok)) == Through(log, fate) + if ok then log[|fate|..|fate| + n] else []
  {
    if n == 0 {
      assert fate + Same(0, ok) == fate;
    } else {
      ThroughRun(log, fate, n - 1, ok);
      var longer := fate + Same(n, ok);
      assert longer[..|longer| - 1] == fate + Same(n - 1, ok);
      assert log[|fate|..|fate| + n] == log[|fate|..|fate| + n - 1] + [log[|fate| + n - 1]];
    }
  }

  lemma {:induction false} ThroughGrows<T>(log: seq<T>, more: seq<T>, fate: seq<bool>)
    requires |fate| <= |log|
    ensures Through(log + more, fate) == Through(log, fate)
  {
    if fate != [] { ThroughGrows(log, more, fate[..|fate| - 1]); }
  }

  /** The log is accounted for report by report: the wire carries the ones that got through,
      in order, and the frames in flight the ones not settled yet. */
  ghost predicate Spelled<T>(log: seq<T>, wire: seq<seq<T>>, flight: seq<seq<T>>, fate: seq<bool>) {
    && |fate| <= |log|
    && Flat(wire) == Through(log, fate)
    && log[|fate|..] == Flat(flight)
  }

  lemma FlightStarts<T>(log: seq<T>, wire: seq<seq<T>>, fate: seq<bool>, reports: seq<T>, size: nat)
    requires Spelled(log, wire, [], fate) && 1 <= size
    ensures Spelled(log + reports, wire, Chunked(reports, size), fate)
  {
    ThroughGrows(log, reports, fate);
    ChunkedIsAll(reports, size);
    assert log[|fate|..] == [];
    assert (log + reports)[|fate|..] == reports;
  }

  lemma CutAt<T>(log: seq<T>, at: nat, head: seq<T>, rest: seq<T>)
    requires at <= |log| && log[at..] == head + rest
    ensures at + |head| <= |log| && log[at..at + |head|] == head && log[at + |head|..] == rest
  {
    assert |log[at..]| == |head| + |rest|;
    assert log[at..at + |head|] == log[at..][..|head|];
    assert log[at + |head|..] == log[at..][|head|..];
  }

  lemma FlatHead<T>(batches: seq<seq<T>>)
    requires batches != []
    ensures Flat(batches) == batches[0] + Flat(batches[1..])
  {
    FlatOne(batches[0]);
    FlatJoins([batches[0]], batches[1..]);
    assert [batches[0]] + batches[1..] == batches;
  }

  lemma FlatLast<T>(batches: seq<seq<T>>, batch: seq<T>)
    ensures Flat(batches + [batch]) == Flat(batches) + batch
  {
    FlatOne(batch);
    FlatJoins(batches, [batch]);
  }

  lemma FrameLands<T>(log: seq<T>, wire: seq<seq<T>>, flight: seq<seq<T>>, fate: seq<bool>)
    requires Spelled(log, wire, flight, fate) && flight != []
    ensures |Flat(flight)| == |flight[0]| + |Flat(flight[1..])|
    ensures |Flat(wire + [flight[0]])| == |Flat(wire)| + |flight[0]|
    ensures Spelled(log, wire + [flight[0]], flight[1..], fate + Same(|flight[0]|, true))
  {
    FlatHead(flight);
    FlatLast(wire, flight[0]);
    CutAt(log, |fate|, flight[0], Flat(flight[1..]));
    ThroughRun(log, fate, |flight[0]|, true);
  }

  lemma FlightFails<T>(log: seq<T>, wire: seq<seq<T>>, flight: seq<seq<T>>, fate: seq<bool>)
    requires Spelled(log, wire, flight, fate)
    ensures Spelled(log, wire, [], fate + Same(|Flat(flight)|, false))
  {
    ThroughRun(log, fate, |Flat(flight)|, false);
  }

  lemma MovesOver<T>(wire: seq<T>, flight: seq<T>)
    requires flight != []
    ensures wire + [flight[0]] + flight[1..] == wire + flight
  {
  }

  /** How many frames the socket takes before it fails. */
  function Landed(frames: nat, breaks: Option<nat>): nat {
    if breaks.Some? && breaks.value < frames then breaks.value else frames
  }

  class WebsocketWorker<K(!new), G(!new)> {
    const maxBatch: nat
    const devices: Devices<K, G>
    var pauseUntil: int
    var seqNo: nat
    var flight: seq<seq<Report<K>>>         // the frames of this turn not yet taken, the next one first
    var undelivered: nat
    var produced: nat
    var sent: nat
    var dropped: nat
    ghost var wire: seq<seq<Report<K>>>     // the frames the socket took
    ghost var fate: seq<bool>               // which settled reports got through

    /** Report conservation at every await, a send half-way through its frames included. */
    ghost predicate Ledger()
      reads this
    {
      && 1 <= maxBatch && Sized(wire, maxBatch) && Sized(flight, maxBatch)
      && undelivered == |Flat(flight)| && sent == |Flat(wire)|
      && produced == sent + dropped + undelivered
    }

    ghost predicate Valid()
      reads this, devices, devices.schedule
    {
      && Ledger() && Spelled(devices.log, wire, flight, fate) && produced == |devices.log|
      && devices.Valid() && devices.driving
    }

    constructor (maxBatch: nat, devices: Devices<K, G>)
      requires 1 <= maxBatch && devices.Valid() && devices.driving && devices.log == []
      ensures Valid() && this.maxBatch == maxBatch && this.devices == devices && produced == 0 && flight == []
    {
      this.maxBatch, this.devices := maxBatch, devices;
      pauseUntil, seqNo, produced, sent, dropped, wire := 0, 0, 0, 0, 0, [];
      flight, undelivered, fate := [], 0, [];
    }

    /** A throttle frame arrived; no pause shortens another. */
    method Throttled(until: int)
      modifies this`pauseUntil
      ensures pauseUntil >= old(pauseUntil) && pauseUntil >= until
      ensures pauseUntil == old(pauseUntil) || pauseUntil == until
    {
      if until > pauseUntil { pauseUntil := until; }
    }

    /** The socket took the frame; the next one follows. */
    method FrameTaken()
      requires Valid() && flight != []
      modifies this`seqNo, this`flight, this`undelivered, this`sent, this`wire, this`fate
      ensures Valid() && flight == old(flight)[1..] && wire == old(wire) + [old(flight)[0]]
      ensures sent == old(sent) + |old(flight)[0]|
      ensures seqNo == old(seqNo) + if flight == [] then 0 else 1
    {
      FrameLands(devices.log, wire, flight, fate);
      fate := fate + Same(|flight[0]|, true);
      wire := wire + [flight[0]];
      sent, undelivered := sent + |flight[0]|, undelivered - |flight[0]|;
      flight := flight[1..];
      if flight != [] { seqNo := seqNo + 1; }
    }

    /** The socket failed, or the run is shutting down: this frame and those after it are lost,
        and counted. */
    method SocketFailed()
      requires Valid()
      modifies this`flight, this`undelivered, this`dropped, this`fate
      ensures Valid() && flight == [] && dropped == old(dropped) + |Flat(old(flight))|
    {
      FlightFails(devices.log, wire, flight, fate);
      fate := fate + Same(|Flat(flight)|, false);
      dropped, undelivered, flight := dropped + undelivered, 0, [];
    }

    /** A whole send, `breaks` being the frame the socket fails on, if any: sent and dropped
        together grow by exactly the reports it was given. */
    method Send(breaks: Option<nat>) returns (ok: bool)
      requires Valid()
      modifies this`seqNo, this`flight, this`undelivered, this`sent, this`dropped, this`wire, this`fate
      ensures Valid() && flight == []
      ensures var landed := Landed(|old(flight)|, breaks);
              && wire == old(wire + flight)[..|old(wire)| + landed]
              && (ok <==> landed == |old(flight)|)
      ensures sent + dropped == old(sent + dropped) + |Flat(old(flight))|
      ensures ok ==> dropped == old(dropped)
    {
      var taken := 0;
      while flight != []
        invariant Valid() && wire + flight == old(wire + flight) && |wire| == |old(wire)| + taken
        invariant breaks.Some? ==> taken <= breaks.value
        invariant dropped == old(dropped) && sent + undelivered == old(sent + undelivered)
        decreases |flight|
      {
        if breaks == Some(taken) {
          SocketFailed();
          return false;
        }
        MovesOver(wire, flight);
        FrameTaken();
        taken := taken + 1;
      }
      ok := true;
    }

    /** The due devices report and their frames take off. */
    method Serve(due: seq<nat>, now: int, moment: int)
      requires Ledger() && Spelled(devices.log, wire, flight, fate) && flight == [] && produced == |devices.log|
      requires devices.driving && devices.Holding(multiset(due)) && due != []
      modifies this`produced, this`seqNo, this`flight, this`undelivered
      modifies devices`states, devices`rngs, devices`clocks, devices`dt, devices`log, devices.schedule
      ensures Valid() && Grew(old(devices.log), devices.log, due)
      ensures flight == Chunked(devices.log[|old(devices.log)|..], maxBatch)
    {
      var reports := devices.ServeAll(due, now, moment);
      FlightStarts(old(devices.log), wire, fate, reports, maxBatch);
      ChunkedIsAll(reports, maxBatch);
      assert devices.log[|old(devices.log)|..] == reports;
      produced := produced + |reports|;
      flight, undelivered, seqNo := Chunked(reports, maxBatch), |reports|, seqNo + 1;
    }

    /** A throttle holds the due devices back and moves nobody; otherwise they report. */
    method Act(due: seq<nat>, now: int, moment: int)
      requires Ledger() && Spelled(devices.log, wire, flight, fate) && flight == [] && produced == |devices.log|
      requires devices.driving && devices.Holding(multiset(due))
      modifies this`produced, this`seqNo, this`flight, this`undelivered
      modifies devices`states, devices`rngs, devices`clocks, devices`dt, devices`log, devices`rng, devices.schedule
      ensures Valid() && Grew(old(devices.log), devices.log, if pauseUntil > now then [] else due)
      ensures flight == Chunked(devices.log[|old(devices.log)|..], maxBatch)
    {
      if due == [] || pauseUntil > now {
        GrewByNone(devices.log);
        devices.DeferAll(due, pauseUntil);
      } else {
        Serve(due, now, moment);
      }
    }

    /** The sender wakes up: the devices due report once each and their frames take off, or, if
        throttled, nobody reports. Either way the schedule is whole before the next await. */
    method Turn(now: int, moment: int)
      requires Valid() && flight == []
      modifies this`produced, this`seqNo, this`flight, this`undelivered
      modifies devices`states, devices`rngs, devices`clocks, devices`dt, devices`log, devices`rng, devices.schedule
      ensures Valid()
      ensures Grew(old(devices.log), devices.log,
                   if pauseUntil > now then [] else old(Served(devices.schedule.heap, now)))
      ensures flight == Chunked(devices.log[|old(devices.log)|..], maxBatch)
    {
      var due := devices.Collect(now);
      Act(due, now, moment);
    }
  }
}
