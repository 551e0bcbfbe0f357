/** Where the shipped browser and the hub part ways: a frame that lists a device both ways,
    and a report older than the one on screen. Each is shown on steps the system takes. */
module Disagreements {
  import opened Options
  import opened Grid
  import opened HubState
  import opened TickFrames
  import opened ConnectionState
  import opened LiveView
  import opened ShippedBrowser

  const LEFT_HALF: Window := [Rect(0, 0, 1, 0)]

  /** Within one tick a device crosses from one visible cell through a hidden one into
      another visible cell: its frame lists it both ways, and the shipped order drops a
      device the hub shows. */
  lemma DetourIsLost(h: Hub)
    requires Valid(h) && h.size == DEG && h.changed == map[] && h.departed == map[]
    requires "d" in h.latest && h.latest["d"].item == Item("d", 0, 0, 1)
    ensures var h1 := ApplyItem(h, Item("d", 5 * DEG, 0, 2));
            var h2 := ApplyItem(h1, Item("d", 0, DEG, 3));
            && Valid(h2) && OneCell(DeltaOf(h2).chunks)
            && var f := FrameFor(LEFT_HALF, DeltaOf(h2));
               "d" in Visible(h2, LEFT_HALF) && "d" in f.items && forall view :: "d" !in Browse(view, f)
  {
    var d := "d";
    var out, back := Item(d, 5 * DEG, 0, 2), Item(d, 0, DEG, 3);
    var h1 := ApplyItem(h, out);
    var h2 := ApplyItem(h1, back);
    WrapInRange(0);
    WrapInRange(DEG);
    assert CellOf(0, 0, DEG) == Cell(0, 0);
    assert CellOf(5 * DEG, 0, DEG) == Cell(0, 5);
    assert CellOf(0, DEG, DEG) == Cell(1, 0);
    ApplyMoves(h, out);
    ApplyKeepsValid(h, out);
    ApplyMoves(h1, back);
    ApplyKeepsValid(h1, back);
    assert Left(h1.departed, Cell(0, 0), d);
    assert Left(h2.departed, Cell(0, 0), d);
    assert LEFT_HALF[0].Contains(Cell(0, 0)) && LEFT_HALF[0].Contains(Cell(1, 0));
    assert !InView(LEFT_HALF, Some(Cell(0, 5)));
    assert Covers(LEFT_HALF, Cell(0, 0)) && !InView(LEFT_HALF, h2.departed[Cell(0, 0)][d]);
    ListedIsRemoved(h2, LEFT_HALF, d);
    assert Holds(h2.changed, Cell(1, 0), d);
    DrainItems(h2, LEFT_HALF, d);
  }

  /** A slow client between two ticks: one delta still pending, a device on its screen, and
      a report of that device on its way that is older than the one on screen. */
  ghost predicate AboutToRefuse(s: System, id: nat, older: Item) {
    && Inv(s) && s.hub.changed == map[] && s.hub.departed == map[]
    && id in s.links && s.links[id].wire == [] && s.links[id].conn.control == []
    && Watching(s.links[id].conn) && s.links[id].conn.pending.Some?
    && older.device in s.hub.latest && Covers(s.links[id].conn.viewport.value, s.hub.latest[older.device].cell)
    && Covers(s.links[id].conn.viewport.value, CellOf(older.lat, older.lon, s.hub.size))
    && older.device in s.links[id].browser && older.at < s.links[id].browser[older.device].at
  }

  /** States that follow one another by enabled actions. */
  ghost predicate Follow(states: seq<System>, actions: seq<Action>) {
    && |states| == |actions| + 1
    && forall i :: 0 <= i < |actions| ==>
         Valid(states[i].hub) && Enabled(states[i], actions[i]) && states[i + 1] == Next(states[i], actions[i])
  }

  lemma SweptIsListed(h: Hub, v: Window, d: DeviceId)
    requires Valid(h) && d in h.latest && Covers(v, h.latest[d].cell)
    ensures Valid(Forget(h, d)) && OneCell(DeltaOf(Forget(h, d)).chunks)
    ensures d in RemovedFrom(v, DeltaOf(Forget(h, d)).departures)
    ensures DeltaOf(Forget(h, d)) != TickDelta(map[], map[])
  {
    var h', c := Forget(h, d), h.latest[d].cell;
    ForgetMoves(h, d);
    ForgetKeepsValid(h, d);
    DeltaOneCell(h');
    assert Left(h'.departed, c, d) && !InView(v, h'.departed[c][d]);
    ListedIsRemoved(h', v, d);
    assert d in FrameFor(v, DeltaOf(h')).removed;
  }

  /** Swept, the device is to be taken off the screen; the pending delta turns that into a
      snapshot debt. */
  lemma RemovalIsConflated(h: Hub, l: Link, d: DeviceId)
    requires Valid(h) && Coherent(l.conn) && Watching(l.conn) && l.conn.pending.Some?
    requires d in h.latest && Covers(l.conn.viewport.value, h.latest[d].cell)
    ensures Valid(Forget(h, d))
    ensures TickLink(Forget(h, d), l) == l.(conn := l.conn.(pending := None, needsSnapshot := true))
  {
    SweptIsListed(h, l.conn.viewport.value, d);
  }

  /** A client owes a snapshot, and a device it shows has been forgotten by the hub. */
  ghost predicate OwesSnapshot(s: System, id: nat, older: Item, shown: Item) {
    && Inv(s) && id in s.links && s.links[id].wire == [] && s.links[id].conn.control == []
    && Watching(s.links[id].conn) && s.links[id].conn.needsSnapshot
    && older.device !in s.hub.latest
    && Covers(s.links[id].conn.viewport.value, CellOf(older.lat, older.lon, s.hub.size))
    && older.device in s.links[id].browser && s.links[id].browser[older.device] == shown && older.at < shown.at
  }

  lemma SweepLeavesDebt(s: System, id: nat, older: Item)
    requires AboutToRefuse(s, id, older)
    ensures var s1 := Next(s, Happen(Gone(older.device)));
            Inv(s1) && OwesSnapshot(Next(s1, Tick), id, older, s.links[id].browser[older.device])
  {
    RemovalIsConflated(s.hub, s.links[id], older.device);
    ForgetMoves(s.hub, older.device);
    StepKeepsInv(s, Happen(Gone(older.device)));
    var s1 := Next(s, Happen(Gone(older.device)));
    StepKeepsInv(s1, Tick);
  }

  /** A snapshot brings a forgotten device back as the hub now has it; a browser that still
      holds something newer keeps that. */
  lemma SnapshotIsRefused(s: System, id: nat, older: Item, shown: Item)
    requires OwesSnapshot(s, id, older, shown)
    ensures var s1 := Next(s, Happen(Report(older)));
            && Inv(s1) && Enabled(s1, Send(id))
            && var s2 := Next(s1, Send(id));
               && Inv(s2) && Enabled(s2, Deliver(id)) && Disagree(Next(s2, Deliver(id)), id, older, shown)
  {
    StepKeepsInv(s, Happen(Report(older)));
    ApplyMoves(s.hub, older);
    var s1 := Next(s, Happen(Report(older)));
    StepKeepsInv(s1, Send(id));
    SnapshotCarries(s1, id, older, shown);
  }

  /** What the sender writes for a snapshot debt. */
  lemma SnapshotSent(h: Hub, l: Link, v: Window)
    requires Valid(h) && l.conn.control == [] && l.conn.needsSnapshot && l.conn.viewport == Some(v)
    ensures SendLink(h, l) ==
              l.(conn := l.conn.(needsSnapshot := false), wire := l.wire + [Frame(true, Visible(h, v), {})])
    ensures SendHub(h, l.conn) == Cached(h, v)
  {
    SnapshotIsVisible(h, v);
    assert NextOut(l.conn) == Snapshot(v);
  }

  /** A full frame shows a device it names, in the later of the two places. */
  lemma FullFrameShows(view: Chunk, items: Chunk, d: DeviceId)
    requires d in items
    ensures d in Browse(view, Frame(true, items, {})) && Browse(view, Frame(true, items, {}))[d].at >= items[d].at
    ensures d in view && view[d].at > items[d].at ==> Browse(view, Frame(true, items, {}))[d] == view[d]
  {
  }

  lemma SnapshotCarries(s: System, id: nat, older: Item, shown: Item)
    requires Valid(s.hub) && id in s.links && s.links[id].wire == [] && s.links[id].conn.control == []
    requires Watching(s.links[id].conn) && s.links[id].conn.needsSnapshot
    requires older.device in s.hub.latest && s.hub.latest[older.device].item == older
    requires Covers(s.links[id].conn.viewport.value, s.hub.latest[older.device].cell)
    requires older.device in s.links[id].browser && s.links[id].browser[older.device] == shown && older.at < shown.at
    ensures var s' := Next(s, Send(id));
            Valid(s'.hub) ==> Enabled(s', Deliver(id)) && Disagree(Next(s', Deliver(id)), id, older, shown)
  {
    var l, v := s.links[id], s.links[id].conn.viewport.value;
    SnapshotSent(s.hub, l, v);
    var s' := Next(s, Send(id));
    assert s'.links[id].wire == [Frame(true, Visible(s.hub, v), {})];
    FullFrameShows(l.browser, Visible(s.hub, v), older.device);
    assert Visible(s'.hub, v) == Visible(s.hub, v);
  }

  /** Hub and "items win" have the older report of a device, the screen has `shown`. */
  ghost predicate Disagree(s: System, id: nat, older: Item, shown: Item) {
    && id in s.links && s.links[id].conn.viewport.Some?
    && var l, d := s.links[id], older.device;
       && d in l.browser && l.browser[d] == shown
       && d in l.client && l.client[d] == older
       && d in Visible(s.hub, l.conn.viewport.value) && Visible(s.hub, l.conn.viewport.value)[d] == older
  }

  lemma FollowStep(s: System, a: Action)
    requires Valid(s.hub) && Enabled(s, a)
    ensures Follow([s, Next(s, a)], [a])
  {
  }

  lemma FollowJoin(xs: seq<System>, ps: seq<Action>, ys: seq<System>, qs: seq<Action>)
    requires Follow(xs, ps) && Follow(ys, qs) && xs[|ps|] == ys[0]
    ensures Follow(xs + ys[1..], ps + qs)
  {
    var states, actions := xs + ys[1..], ps + qs;
    forall i | 0 <= i < |actions|
      ensures Valid(states[i].hub) && Enabled(states[i], actions[i]) && states[i + 1] == Next(states[i], actions[i])
    {
      if i < |ps| {
        assert states[i] == xs[i] && states[i + 1] == xs[i + 1] && actions[i] == ps[i];
      } else {
        var k := i - |ps|;
        assert states[i] == ys[k] && states[i + 1] == ys[k + 1] && actions[i] == qs[k];
      }
    }
  }

  /** The sweep forgets the device, the tick that says so meets the pending delta and turns
      into a snapshot debt, and the older report arrives before the sender wakes up. */
  function Sweeping(older: Item): seq<Action> {
    [Happen(Gone(older.device))] + [Tick]
  }

  function Resending(id: nat, older: Item): seq<Action> {
    [Happen(Report(older))] + [Send(id)] + [Deliver(id)]
  }

  lemma SweepRun(s: System, id: nat, older: Item) returns (states: seq<System>)
    requires AboutToRefuse(s, id, older)
    ensures Follow(states, Sweeping(older)) && states[0] == s
    ensures OwesSnapshot(states[2], id, older, s.links[id].browser[older.device])
  {
    SweepLeavesDebt(s, id, older);
    var s1 := Next(s, Happen(Gone(older.device)));
    var s2 := Next(s1, Tick);
    FollowStep(s, Happen(Gone(older.device)));
    FollowStep(s1, Tick);
    FollowJoin([s, s1], [Happen(Gone(older.device))], [s1, s2], [Tick]);
    states := [s, s1] + [s1, s2][1..];
  }

  lemma ResendRun(s: System, id: nat, older: Item, shown: Item) returns (states: seq<System>)
    requires OwesSnapshot(s, id, older, shown)
    ensures Follow(states, Resending(id, older)) && states[0] == s
    ensures Disagree(states[3], id, older, shown)
  {
    SnapshotIsRefused(s, id, older, shown);
    var s1 := Next(s, Happen(Report(older)));
    var s2 := Next(s1, Send(id));
    var s3 := Next(s2, Deliver(id));
    FollowStep(s, Happen(Report(older)));
    FollowStep(s1, Send(id));
    FollowStep(s2, Deliver(id));
    FollowJoin([s, s1], [Happen(Report(older))], [s1, s2], [Send(id)]);
    states := [s, s1] + [s1, s2][1..];
    FollowJoin(states, [Happen(Report(older))] + [Send(id)], [s2, s3], [Deliver(id)]);
    states := states + [s2, s3][1..];
  }

  /** Why `Timely`: from any such state these steps are enabled one after the other, and end
      with the hub showing the older report and the browser the newer one. */
  lemma OldReportIsRefused(s: System, id: nat, older: Item) returns (states: seq<System>)
    requires AboutToRefuse(s, id, older)
    ensures Follow(states, Sweeping(older) + Resending(id, older)) && states[0] == s
    ensures Disagree(states[5], id, older, s.links[id].browser[older.device])
  {
    var first := SweepRun(s, id, older);
    var second := ResendRun(first[2], id, older, s.links[id].browser[older.device]);
    FollowJoin(first, Sweeping(older), second, Resending(id, older));
    states := first + second[1..];
    assert states[5] == second[3];
  }

  // ---------------------------------------------------------------------------
  // Such a state is reached
  // ---------------------------------------------------------------------------

  const OLD := Item("d", 0, 0, 5)
  const SHOWN := Item("d", 0, 0, 10)
  const NEXT := Item("d", 0, 0, 11)

  /** A quiet hub that shows device "d" in a cell of the window. */
  ghost predicate Shows(s: System, item: Item) {
    && Inv(s) && s.hub.size == DEG && item.device in s.hub.latest
    && s.hub.latest[item.device] == Entry(item, Cell(0, 0))
  }

  /** A client of that window with nothing pending and nothing under way. */
  ghost predicate Listening(s: System, debt: bool) {
    && 0 in s.links && s.links[0].wire == []
    && s.links[0].conn == Conn(Some(LEFT_HALF), None, debt, false, [], 1)
  }

  lemma AtOrigin()
    ensures CellOf(0, 0, DEG) == Cell(0, 0) && Covers(LEFT_HALF, Cell(0, 0))
  {
    WrapInRange(0);
    assert LEFT_HALF[0].Contains(Cell(0, 0));
  }

  /** A replica that starts with the device loaded. */
  lemma WarmStart() returns (s: System)
    ensures Init(s) && Shows(s, SHOWN)
  {
    AtOrigin();
    var h := Empty(DEG);
    assert Valid(h);
    ApplyMoves(h, SHOWN);
    ApplyKeepsValid(h, SHOWN);
    var hub := Drained(ApplyItem(h, SHOWN));
    DrainedKeepsValid(ApplyItem(h, SHOWN));
    s := System(hub, map d | d in hub.latest :: hub.latest[d].item, map[]);
  }

  lemma Joining(s: System) returns (states: seq<System>)
    requires Shows(s, SHOWN) && s.links == map[]
    ensures Follow(states, [Connect(0, 1, map[])] + [MoveWindow(0, LEFT_HALF)]) && states[0] == s
    ensures Shows(states[2], SHOWN) && Listening(states[2], true) && states[2].hub == s.hub
  {
    var s1 := Next(s, Connect(0, 1, map[]));
    var s2 := Next(s1, MoveWindow(0, LEFT_HALF));
    StepKeepsInv(s, Connect(0, 1, map[]));
    StepKeepsInv(s1, MoveWindow(0, LEFT_HALF));
    FollowStep(s, Connect(0, 1, map[]));
    FollowStep(s1, MoveWindow(0, LEFT_HALF));
    FollowJoin([s, s1], [Connect(0, 1, map[])], [s1, s2], [MoveWindow(0, LEFT_HALF)]);
    states := [s, s1] + [s1, s2][1..];
  }

  lemma FirstSnapshot(s: System) returns (states: seq<System>)
    requires Shows(s, SHOWN) && Listening(s, true) && s.hub.changed == map[] && s.hub.departed == map[]
    ensures Follow(states, [Send(0)] + [Deliver(0)]) && states[0] == s
    ensures Shows(states[2], SHOWN) && Listening(states[2], false)
    ensures states[2].hub.changed == map[] && states[2].hub.departed == map[]
    ensures "d" in states[2].links[0].browser && states[2].links[0].browser["d"].at >= 10
  {
    AtOrigin();
    var s1 := Sent(s);
    var s2 := Next(s1, Deliver(0));
    FullFrameShows(s.links[0].browser, Visible(s.hub, LEFT_HALF), "d");
    StepKeepsInv(s1, Deliver(0));
    FollowStep(s, Send(0));
    FollowStep(s1, Deliver(0));
    FollowJoin([s, s1], [Send(0)], [s1, s2], [Deliver(0)]);
    states := [s, s1] + [s1, s2][1..];
  }

  lemma Sent(s: System) returns (s1: System)
    requires Shows(s, SHOWN) && Listening(s, true)
    ensures s1 == Next(s, Send(0)) && Shows(s1, SHOWN) && s1.hub == Cached(s.hub, LEFT_HALF)
    ensures 0 in s1.links && s1.links[0] ==
              s.links[0].(conn := s.links[0].conn.(needsSnapshot := false),
                          wire := [Frame(true, Visible(s.hub, LEFT_HALF), {})])
  {
    SnapshotSent(s.hub, s.links[0], LEFT_HALF);
    StepKeepsInv(s, Send(0));
    s1 := Next(s, Send(0));
  }

  lemma ReportedIsOffered(h: Hub, l: Link)
    requires Valid(h) && h.size == DEG && "d" in h.latest && h.latest["d"] == Entry(SHOWN, Cell(0, 0))
    requires h.changed == map[] && h.departed == map[]
    requires l.conn == Conn(Some(LEFT_HALF), None, false, false, [], 1)
    ensures var h' := ApplyItem(h, NEXT);
            && Valid(h') && "d" in h'.latest && h'.latest["d"] == Entry(NEXT, Cell(0, 0)) && h'.size == DEG
            && TickLink(h', l).conn.pending.Some?
            && TickLink(h', l) == l.(conn := l.conn.(pending := TickLink(h', l).conn.pending))
  {
    AtOrigin();
    ApplyMoves(h, NEXT);
    ApplyKeepsValid(h, NEXT);
    var h' := ApplyItem(h, NEXT);
    DeltaOneCell(h');
    assert Holds(h'.changed, Cell(0, 0), "d");
    assert Cell(0, 0) in ChunksIn(LEFT_HALF, DeltaOf(h').chunks);
  }

  lemma PendingDelta(s: System) returns (states: seq<System>)
    requires Shows(s, SHOWN) && Listening(s, false) && s.hub.changed == map[] && s.hub.departed == map[]
    requires "d" in s.links[0].browser && s.links[0].browser["d"].at >= 10
    ensures Follow(states, [Happen(Report(NEXT))] + [Tick]) && states[0] == s
    ensures AboutToRefuse(states[2], 0, OLD)
  {
    AtOrigin();
    ReportedIsOffered(s.hub, s.links[0]);
    StepKeepsInv(s, Happen(Report(NEXT)));
    var s1 := Next(s, Happen(Report(NEXT)));
    StepKeepsInv(s1, Tick);
    var s2 := Next(s1, Tick);
    FollowStep(s, Happen(Report(NEXT)));
    FollowStep(s1, Tick);
    FollowJoin([s, s1], [Happen(Report(NEXT))], [s1, s2], [Tick]);
    states := [s, s1] + [s1, s2][1..];
  }

  /** From the start of a replica: a whole run into the disagreement. */
  lemma RefusalIsReached() returns (states: seq<System>, actions: seq<Action>, shown: Item)
    ensures Run(states, actions) && Disagree(states[|actions|], 0, OLD, shown) && shown.at > OLD.at
  {
    var s := WarmStart();
    var a := Joining(s);
    var b := FirstSnapshot(a[2]);
    var c := PendingDelta(b[2]);
    var d := OldReportIsRefused(c[2], 0, OLD);
    var joining, first := [Connect(0, 1, map[])] + [MoveWindow(0, LEFT_HALF)], [Send(0)] + [Deliver(0)];
    var pending, refusal := [Happen(Report(NEXT))] + [Tick], Sweeping(OLD) + Resending(0, OLD);
    FollowJoin(c, pending, d, refusal);
    FollowJoin(b, first, c + d[1..], pending + refusal);
    FollowJoin(a, joining, b + (c + d[1..])[1..], first + (pending + refusal));
    states, actions := a + (b + (c + d[1..])[1..])[1..], joining + (first + (pending + refusal));
    shown := c[2].links[0].browser["d"];
    assert states[|actions|] == d[5];
  }
}
