/** The live view end to end: hub, connections, wire and browser as one step system.

    Every interleaving of reports, sweeps, ticks, viewport moves, sender steps and
    deliveries leaves a client that does not owe a snapshot equal to the hub's picture
    restricted to its viewport, once the frames still under way have been folded in. */
module LiveView {
  import opened Options
  import opened Grid
  import opened HubState
  import opened TickFrames
  import opened ConnectionState

  /** A connection with the position frames written but not yet read, what a client folding
      them with "items win" holds, what the shipped browser holds, and the control frames
      written so far. */
  datatype Link = Link(conn: Conn, wire: seq<Frame>, client: Chunk, browser: Chunk, told: seq<string>)

  /** `seen` is the newest report ever accepted per device; the hub itself forgets it when
      it sweeps. */
  datatype System = System(hub: Hub, seen: Chunk, links: map<nat, Link>)

  datatype Action =
    | Happen(event: HubEvent)
    | Tick
    | Connect(id: nat, controlMax: nat, leftover: Chunk)
    | MoveWindow(id: nat, window: Window)
    | QueueControl(id: nat, text: string)
    | Send(id: nat)
    | Deliver(id: nat)
    | Hangup(id: nat)

  // ---------------------------------------------------------------------------
  // The browser
  // ---------------------------------------------------------------------------

  /** The shipped merge: an item is taken only if it is newer than the one on screen. */
  function MergeNewer(view: Chunk, items: Chunk): Chunk {
    map d | d in view.Keys + items.Keys ::
      if d in items && (d in view ==> view[d].at < items[d].at) then items[d] else view[d]
  }

  /** The shipped order: apply the items, drop what a full frame leaves out, then remove. */
  function Browse(view: Chunk, f: Frame): Chunk {
    var merged := MergeNewer(view, f.items);
    (if f.full then merged - (merged.Keys - f.items.Keys) else merged) - f.removed
  }

  predicate InOrder(view: Chunk, items: Chunk) {
    forall d :: d in items && d in view ==> view[d].at < items[d].at || view[d] == items[d]
  }

  predicate NoOverlap(f: Frame) {
    f.items.Keys !! f.removed
  }

  /** The shipped browser agrees with "items win" on exactly the frames that neither list
      a device twice nor bring back an older report of a device on screen. */
  lemma BrowserAgreesIff(view: Chunk, f: Frame)
    requires f.full ==> f.removed == {}
    ensures Browse(view, f) == Receive(view, f) <==> NoOverlap(f) && InOrder(view, f.items)
  {
    var shipped, ideal := Browse(view, f), Receive(view, f);
    forall d
      ensures (d in shipped <==> d in ideal) && (d in ideal ==> shipped[d] == ideal[d])
         <==> (d in f.items ==>
                 d !in f.removed && (d in view ==> view[d].at < f.items[d].at || view[d] == f.items[d]))
    {
    }
    if shipped == ideal {
      forall d | d in f.items
        ensures d !in f.removed
        ensures d in view ==> view[d].at < f.items[d].at || view[d] == f.items[d]
      {
        assert d in ideal;
      }
    } else {
      var d :| (d in shipped) != (d in ideal) || (d in ideal && shipped[d] != ideal[d]);
      assert d in f.items;
    }
  }

  // ---------------------------------------------------------------------------
  // Steps
  // ---------------------------------------------------------------------------

  function Fold(view: Chunk, frames: seq<Frame>): Chunk
    decreases |frames|
  {
    if frames == [] then view else Fold(Receive(view, frames[0]), frames[1..])
  }

  lemma {:induction false} FoldAppend(view: Chunk, frames: seq<Frame>, f: Frame)
    ensures Fold(view, frames + [f]) == Receive(Fold(view, frames), f)
    decreases |frames|
  {
    if frames == [] {
      assert (frames + [f])[1..] == [];
    } else {
      FoldAppend(Receive(view, frames[0]), frames[1..], f);
      assert (frames + [f])[1..] == frames[1..] + [f];
    }
  }

  /** Everything already decided for a client: frames on the wire, then the pending delta. */
  function Owed(l: Link): seq<Frame> {
    l.wire + if l.conn.pending.Some? then [l.conn.pending.value] else []
  }

  /** Fan-out: drained only if somebody is watching, discarded otherwise; the picture is
      the same either way. */
  function TickLink(h: Hub, l: Link): Link
    requires Valid(h)
  {
    var delta := DeltaOf(h);
    DeltaOneCell(h);
    if delta == TickDelta(map[], map[]) || !Watching(l.conn) then l else l.(conn := Offer(l.conn, delta))
  }

  function SendLink(h: Hub, l: Link): Link
    requires Valid(h)
  {
    match NextOut(l.conn)
    case Nothing => l
    case Control(text) => l.(conn := AfterOut(l.conn), told := l.told + [text])
    case Snapshot(v) =>
      SnapshotIsVisible(h, v);
      l.(conn := AfterOut(l.conn), wire := l.wire + [Frame(true, Merge(SnapshotChunks(h, v)), {})])
    case Delta(f) => l.(conn := AfterOut(l.conn), wire := l.wire + [f])
  }

  function SendHub(h: Hub, c: Conn): Hub
    requires Valid(h)
  {
    match NextOut(c)
    case Snapshot(v) => Cached(h, v)
    case _ => h
  }

  predicate Enabled(s: System, a: Action) {
    match a
    case Happen(_) => true
    case Tick => true
    case Connect(id, _, _) => id !in s.links
    case MoveWindow(id, _) => id in s.links
    case QueueControl(id, _) => id in s.links
    case Send(id) => id in s.links && !s.links[id].conn.closing
    case Deliver(id) => id in s.links && s.links[id].wire != []
    case Hangup(id) => id in s.links
  }

  function Next(s: System, a: Action): System
    requires Valid(s.hub) && Enabled(s, a)
  {
    match a
    case Happen(e) =>
      s.(hub := HubStep(s.hub, e),
         seen := if e.Report? && Accepts(s.hub, e.item) then s.seen[e.item.device := e.item] else s.seen)
    case Tick =>
      s.(hub := Drained(s.hub), links := map id | id in s.links :: TickLink(s.hub, s.links[id]))
    case Connect(id, controlMax, leftover) =>
      s.(links := s.links[id := Link(Fresh(controlMax), [], leftover, leftover, [])])
    case MoveWindow(id, v) =>
      s.(links := s.links[id := s.links[id].(conn := SetViewport(s.links[id].conn, v))])
    case QueueControl(id, text) =>
      s.(links := s.links[id := s.links[id].(conn := SendControl(s.links[id].conn, text))])
    case Send(id) =>
      s.(hub := SendHub(s.hub, s.links[id].conn), links := s.links[id := SendLink(s.hub, s.links[id])])
    case Deliver(id) =>
      var l := s.links[id];
      s.(links := s.links[id := l.(wire := l.wire[1..],
                                   client := Receive(l.client, l.wire[0]),
                                   browser := Browse(l.browser, l.wire[0]))])
    case Hangup(id) =>
      s.(links := s.links[id := s.links[id].(conn := Close(s.links[id].conn))])
  }

  /** The picture a replica starts with, warm or cold, before its first client. */
  ghost predicate Init(s: System) {
    && Valid(s.hub) && s.hub.changed == map[] && s.hub.departed == map[]
    && s.seen == (map d | d in s.hub.latest :: s.hub.latest[d].item)
    && s.links == map[]
  }

  /** A run: every state follows from the one before by an enabled action. */
  ghost predicate Run(states: seq<System>, actions: seq<Action>) {
    && |states| == |actions| + 1
    && Init(states[0])
    && forall i :: 0 <= i < |actions| ==>
         Valid(states[i].hub) && Enabled(states[i], actions[i]) && states[i + 1] == Next(states[i], actions[i])
  }

  // ---------------------------------------------------------------------------
  // Synchronisation
  // ---------------------------------------------------------------------------

  ghost predicate LinkInv(h: Hub, l: Link) {
    && Coherent(l.conn)
    && (forall i :: 0 <= i < |l.wire| && l.wire[i].full ==> l.wire[i].removed == {})
    && (Watching(l.conn) && !l.conn.needsSnapshot ==>
          Synced(h, l.conn.viewport.value, Fold(l.client, Owed(l))))
  }

  ghost predicate Inv(s: System) {
    Valid(s.hub) && forall id :: id in s.links ==> LinkInv(s.hub, s.links[id])
  }

  /** A tick that shows a window nothing has nothing to say to it. */
  lemma QuietFrame(v: Window, delta: TickDelta, view: Chunk)
    requires OneCell(delta.chunks)
    requires ChunksIn(v, delta.chunks) == map[] && RemovedFrom(v, delta.departures) == {}
    ensures Receive(view, FrameFor(v, delta)) == view
  {
    assert FrameFor(v, delta).items == map[];
  }

  /** What a tick leaves with a watching client, fully folded, is the hub's picture. */
  lemma TickCompletes(h: Hub, l: Link)
    requires Valid(h) && LinkInv(h, l) && Watching(l.conn) && !l.conn.needsSnapshot
    ensures var l' := TickLink(h, l);
            l'.conn.needsSnapshot || Fold(l.client, Owed(l')) == Visible(h, l.conn.viewport.value)
  {
    var v, view, l' := l.conn.viewport.value, Fold(l.client, Owed(l)), TickLink(h, l);
    DrainCompletes(h, v, view);
    if l'.conn == l.conn {
      QuietFrame(v, DeltaOf(h), view);
    } else if l.conn.pending.None? {
      assert Owed(l) == l.wire && Owed(l') == l.wire + [FrameFor(v, DeltaOf(h))];
      FoldAppend(l.client, l.wire, FrameFor(v, DeltaOf(h)));
    }
  }

  lemma TickKeepsLink(h: Hub, l: Link)
    requires Valid(h) && LinkInv(h, l)
    ensures LinkInv(Drained(h), TickLink(h, l))
  {
    if Watching(l.conn) && !l.conn.needsSnapshot {
      TickCompletes(h, l);
      LiveViewIsSynced(Drained(h), l.conn.viewport.value);
      assert Visible(Drained(h), l.conn.viewport.value) == Visible(h, l.conn.viewport.value);
    }
  }

  lemma SendKeepsLink(h: Hub, l: Link)
    requires Valid(h) && LinkInv(h, l) && !l.conn.closing
    ensures Valid(SendHub(h, l.conn))
    ensures LinkInv(SendHub(h, l.conn), SendLink(h, l))
  {
    var l' := SendLink(h, l);
    match NextOut(l.conn) {
      case Nothing =>
      case Control(_) => assert Owed(l') == Owed(l);
      case Snapshot(v) =>
        CachedKeepsValid(h, v);
        SnapshotIsVisible(h, v);
        var f := Frame(true, Visible(h, v), {});
        assert Owed(l') == l.wire + [f];
        FoldAppend(l.client, l.wire, f);
        LiveViewIsSynced(Cached(h, v), v);
        assert Visible(Cached(h, v), v) == Visible(h, v);
      case Delta(f) => assert Owed(l') == Owed(l);
    }
  }

  lemma SyncedIgnoresCache(h: Hub, h': Hub, v: Window, view: Chunk)
    requires Synced(h, v, view)
    requires h'.latest == h.latest && h'.changed == h.changed && h'.departed == h.departed
    ensures Synced(h', v, view)
  {
    forall d ensures SyncedAt(h', v, view, d) {
      assert SyncedAt(h, v, view, d);
      if Listed(h, v, d) {
        var c :| Covers(v, c) && Left(h.departed, c, d) && !InView(v, h.departed[c][d]);
        assert Left(h'.departed, c, d);
      }
    }
  }

  lemma HappenKeepsLink(h: Hub, e: HubEvent, l: Link)
    requires Valid(h) && LinkInv(h, l)
    ensures LinkInv(HubStep(h, e), l)
  {
    if Watching(l.conn) && !l.conn.needsSnapshot {
      StepKeepsSynced(h, e, l.conn.viewport.value, Fold(l.client, Owed(l)));
    }
  }

  lemma HappenKeepsInv(s: System, e: HubEvent)
    requires Inv(s)
    ensures Inv(Next(s, Happen(e)))
  {
    match e {
      case Report(item) => ApplyKeepsValid(s.hub, item);
      case Gone(d) => if d in s.hub.latest { ForgetKeepsValid(s.hub, d); }
    }
    forall id | id in s.links ensures LinkInv(HubStep(s.hub, e), s.links[id]) {
      HappenKeepsLink(s.hub, e, s.links[id]);
    }
  }

  lemma TickKeepsInv(s: System)
    requires Inv(s)
    ensures Inv(Next(s, Tick))
  {
    DrainedKeepsValid(s.hub);
    forall id | id in s.links ensures LinkInv(Drained(s.hub), TickLink(s.hub, s.links[id])) {
      TickKeepsLink(s.hub, s.links[id]);
    }
  }

  lemma SendKeepsInv(s: System, id: nat)
    requires Inv(s) && Enabled(s, Send(id))
    ensures Inv(Next(s, Send(id)))
  {
    SendKeepsLink(s.hub, s.links[id]);
    var hub := SendHub(s.hub, s.links[id].conn);
    forall j | j in s.links && j != id ensures LinkInv(hub, s.links[j]) {
      var l := s.links[j];
      if Watching(l.conn) && !l.conn.needsSnapshot {
        SyncedIgnoresCache(s.hub, hub, l.conn.viewport.value, Fold(l.client, Owed(l)));
      }
    }
  }

  lemma StepKeepsInv(s: System, a: Action)
    requires Inv(s) && Enabled(s, a)
    ensures Inv(Next(s, a))
  {
    var s' := Next(s, a);
    match a {
      case Happen(e) => HappenKeepsInv(s, e);
      case Tick => TickKeepsInv(s);
      case Send(id) => SendKeepsInv(s, id);
      case Deliver(id) =>
        assert Owed(s'.links[id]) == Owed(s.links[id])[1..];
      case QueueControl(id, text) =>
        assert Owed(s'.links[id]) == Owed(s.links[id]) || s'.links[id].conn.closing;
      case Connect(_, _, _) =>
      case MoveWindow(_, _) =>
      case Hangup(_) =>
    }
  }

  lemma DrainedKeepsValid(h: Hub)
    requires Valid(h)
    ensures Valid(Drained(h))
  {
    forall c, d ensures Holds(Drained(h).cells, c, d) <==> Place(Drained(h), d) == Some(c) {
      assert Holds(h.cells, c, d) <==> Place(h, d) == Some(c);
    }
  }

  lemma {:induction false} RunKeepsInv(states: seq<System>, actions: seq<Action>, k: nat)
    requires Run(states, actions) && k < |states|
    ensures Inv(states[k])
  {
    if k > 0 {
      RunKeepsInv(states, actions, k - 1);
      StepKeepsInv(states[k - 1], actions[k - 1]);
    }
  }

  /** Bounded memory, in every state of every run: a connection keeps one position frame at
      most, never beside a snapshot debt, and no more control frames than its limit. */
  lemma MemoryIsBounded(states: seq<System>, actions: seq<Action>, k: nat, id: nat)
    requires Run(states, actions) && k < |states| && id in states[k].links
    ensures Coherent(states[k].links[id].conn)
  {
    RunKeepsInv(states, actions, k);
    assert LinkInv(states[k].hub, states[k].links[id]);
  }

  // ---------------------------------------------------------------------------
  // The window a client asked for
  // ---------------------------------------------------------------------------

  predicate AsksWindow(a: Action, id: nat) {
    a.MoveWindow? && a.id == id
  }

  /** Step `j` is the last before `k` at which client `id` asked for a window, and it was `v`. */
  ghost predicate LastAsked(actions: seq<Action>, j: nat, k: nat, id: nat, v: Window) {
    && j < k <= |actions| && actions[j] == MoveWindow(id, v)
    && forall i :: j < i < k ==> !AsksWindow(actions[i], id)
  }

  /** Nothing but the client's own request moves its window. */
  lemma OnlyMovesMove(s: System, a: Action, id: nat)
    requires Valid(s.hub) && Enabled(s, a) && id in s.links && !AsksWindow(a, id)
    ensures id in Next(s, a).links && Next(s, a).links[id].conn.viewport == s.links[id].conn.viewport
  {
  }

  /** A connection serves the window its client asked for last. */
  lemma {:induction false} WindowIsLastAsked(
    states: seq<System>, actions: seq<Action>, j: nat, k: nat, id: nat, v: Window)
    requires Run(states, actions) && LastAsked(actions, j, k, id, v)
    ensures id in states[k].links && states[k].links[id].conn.viewport == Some(v)
  {
    assert states[k] == Next(states[k - 1], actions[k - 1]);
    if j < k - 1 {
      WindowIsLastAsked(states, actions, j, k - 1, id, v);
      OnlyMovesMove(states[k - 1], actions[k - 1], id);
    }
  }

  /** Before its first request it serves none. */
  lemma {:induction false} NoWindowUnasked(states: seq<System>, actions: seq<Action>, k: nat, id: nat)
    requires Run(states, actions) && k < |states| && id in states[k].links
    requires forall i :: 0 <= i < k ==> !AsksWindow(actions[i], id)
    ensures states[k].links[id].conn.viewport == None
  {
    if k > 0 {
      assert states[k] == Next(states[k - 1], actions[k - 1]);
      if id in states[k - 1].links {
        NoWindowUnasked(states, actions, k - 1, id);
        OnlyMovesMove(states[k - 1], actions[k - 1], id);
      }
    }
  }

  /** The live view is never wrong: in every reachable state, a connection whose client has
      asked for a window either owes a snapshot, or its client, the frames on the wire, the
      pending delta and the delta a drain would give right now add up to the hub's picture of
      the window asked for last. */
  lemma LiveViewTheorem(states: seq<System>, actions: seq<Action>, j: nat, k: nat, id: nat, v: Window)
    requires Run(states, actions) && LastAsked(actions, j, k, id, v)
    ensures id in states[k].links && Valid(states[k].hub) && OneCell(DeltaOf(states[k].hub).chunks)
    ensures var s, l := states[k], states[k].links[id];
            !l.conn.closing && !l.conn.needsSnapshot ==>
              Receive(Fold(l.client, Owed(l)), FrameFor(v, DeltaOf(s.hub))) == Visible(s.hub, v)
  {
    RunKeepsInv(states, actions, k);
    WindowIsLastAsked(states, actions, j, k, id, v);
    var l := states[k].links[id];
    DeltaOneCell(states[k].hub);
    if !l.conn.closing && !l.conn.needsSnapshot {
      DrainCompletes(states[k].hub, v, Fold(l.client, Owed(l)));
    }
  }

  /** Once a tick has been folded in and nothing is under way, the client shows the window it
      asked for. */
  lemma QuietClientIsExact(states: seq<System>, actions: seq<Action>, j: nat, k: nat, id: nat, v: Window)
    requires Run(states, actions) && LastAsked(actions, j, k, id, v) && actions[k - 1].Tick?
    requires id in states[k].links && Owed(states[k].links[id]) == []
    requires !states[k].links[id].conn.closing && !states[k].links[id].conn.needsSnapshot
    ensures states[k].links[id].client == Visible(states[k].hub, v)
  {
    LiveViewTheorem(states, actions, j, k, id, v);
    var s, l := states[k], states[k].links[id];
    assert s == Next(states[k - 1], Tick);
    NoNewsNoFrame(s.hub, v);
    assert Fold(l.client, Owed(l)) == l.client;
    assert l.client - {} + map[] == l.client;
  }

  lemma NoNewsNoFrame(h: Hub, v: Window)
    requires Valid(h) && h.changed == map[] && h.departed == map[]
    ensures OneCell(DeltaOf(h).chunks) && FrameFor(v, DeltaOf(h)) == Frame(false, map[], {})
  {
    DeltaOneCell(h);
    assert ChunksIn(v, DeltaOf(h).chunks) == map[];
  }

  /** End to end, for a box on the map: when everything under way is folded in, a device that
      stands inside the box is shown, with its newest report, unless it stands on 180 itself
      and the box neither crosses it nor begins in the westernmost column. */
  lemma BoxIsServed(states: seq<System>, actions: seq<Action>, j: nat, k: nat, id: nat, box: BBox, d: DeviceId)
    requires Run(states, actions) && box.Valid() && k < |states| && states[k].hub.size > 0
    requires LastAsked(actions, j, k, id, RectsFor(box, states[k].hub.size))
    requires id in states[k].links && !states[k].links[id].conn.closing && !states[k].links[id].conn.needsSnapshot
    requires d in states[k].hub.latest
    requires var item := states[k].hub.latest[d].item;
             && -HALF <= item.lon <= HALF && box.Contains(item.lat, item.lon)
             && (item.lon < HALF || box.Crosses()
                 || ColumnOf(box.west, states[k].hub.size) == -HALF / states[k].hub.size)
    ensures Valid(states[k].hub) && OneCell(DeltaOf(states[k].hub).chunks)
    ensures var l, v := states[k].links[id], RectsFor(box, states[k].hub.size);
            var shown := Receive(Fold(l.client, Owed(l)), FrameFor(v, DeltaOf(states[k].hub)));
            d in shown && shown[d] == states[k].hub.latest[d].item
  {
    var h := states[k].hub;
    LiveViewTheorem(states, actions, j, k, id, RectsFor(box, h.size));
    ContainedIsCovered(box, h.latest[d].item.lat, h.latest[d].item.lon, h.size);
  }
}
