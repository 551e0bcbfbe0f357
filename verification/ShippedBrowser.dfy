/** The live view in the browser as shipped: items first, removals after, and an item only
    if it is newer than the one on screen. */
module ShippedBrowser {
  import opened Options
  import opened Grid
  import opened HubState
  import opened TickFrames
  import opened ConnectionState
  import opened LiveView

  /** Nothing in `m` is newer than the newest report accepted for its device. */
  ghost predicate Behind(seen: Chunk, m: Chunk) {
    forall d :: d in m ==> d in seen && (m[d].at < seen[d].at || m[d] == seen[d])
  }

  /** Frames that bring each device forward in time. */
  ghost predicate Chain(view: Chunk, frames: seq<Frame>)
    decreases |frames|
  {
    frames == [] || (InOrder(view, frames[0].items) && Chain(Receive(view, frames[0]), frames[1..]))
  }

  lemma {:induction false} ChainAppend(view: Chunk, frames: seq<Frame>, f: Frame)
    requires Chain(view, frames) && InOrder(Fold(view, frames), f.items)
    ensures Chain(view, frames + [f])
    decreases |frames|
  {
    if frames == [] {
      assert (frames + [f])[1..] == [];
    } else {
      ChainAppend(Receive(view, frames[0]), frames[1..], f);
      assert (frames + [f])[1..] == frames[1..] + [f];
    }
  }

  lemma {:induction false} ChainPrefix(view: Chunk, frames: seq<Frame>, k: nat)
    requires Chain(view, frames) && k <= |frames|
    ensures Chain(view, frames[..k])
    decreases |frames|
  {
    if k > 0 {
      ChainPrefix(Receive(view, frames[0]), frames[1..], k - 1);
      assert frames[..k][1..] == frames[1..][..k - 1];
    }
  }

  lemma {:induction false} FoldBehind(seen: Chunk, view: Chunk, frames: seq<Frame>)
    requires Behind(seen, view) && forall i :: 0 <= i < |frames| ==> Behind(seen, frames[i].items)
    ensures Behind(seen, Fold(view, frames))
    decreases |frames|
  {
    if frames != [] {
      FoldBehind(seen, Receive(view, frames[0]), frames[1..]);
    }
  }

  ghost predicate LinkOrdered(seen: Chunk, l: Link) {
    && Behind(seen, l.client)
    && (forall i :: 0 <= i < |Owed(l)| ==> Behind(seen, Owed(l)[i].items))
    && Chain(l.client, Owed(l))
  }

  ghost predicate Ordered(s: System) {
    && (forall d :: d in s.hub.latest ==> d in s.seen && s.seen[d] == s.hub.latest[d].item)
    && (forall id :: id in s.links ==> LinkOrdered(s.seen, s.links[id]))
  }

  /** A device the hub has forgotten comes back with a newer report; upstream the database
      accepts nothing else. */
  predicate Timely(s: System, a: Action) {
    match a
    case Happen(Report(item)) =>
      item.device in s.seen && item.device !in s.hub.latest ==> item.at > s.seen[item.device].at
    case _ => true
  }

  /** Besides, a browser that reconnects holds nothing newer than this replica has accepted. */
  ghost predicate Orderly(s: System, a: Action) {
    && Timely(s, a)
    && (a.Connect? ==> Behind(s.seen, a.leftover))
  }

  /** Adding a frame whose items are the hub's own keeps a link in order. */
  lemma AppendKeepsOrdered(s: System, l: Link, f: Frame, l': Link)
    requires LinkOrdered(s.seen, l) && Behind(s.seen, f.items)
    requires forall d :: d in f.items ==> d in s.seen && f.items[d] == s.seen[d]
    requires l'.client == l.client && Owed(l') == Owed(l) + [f]
    ensures LinkOrdered(s.seen, l')
  {
    FoldBehind(s.seen, l.client, Owed(l));
    assert InOrder(Fold(l.client, Owed(l)), f.items);
    ChainAppend(l.client, Owed(l), f);
  }

  lemma DropKeepsOrdered(seen: Chunk, l: Link, l': Link, k: nat)
    requires LinkOrdered(seen, l) && k <= |Owed(l)|
    requires l'.client == l.client && Owed(l') == Owed(l)[..k]
    ensures LinkOrdered(seen, l')
  {
    ChainPrefix(l.client, Owed(l), k);
  }

  /** Every item of a drain or a snapshot is the newest report of its device. */
  lemma FramesAreNewest(h: Hub, seen: Chunk, v: Window)
    requires Valid(h)
    requires forall d :: d in h.latest ==> d in seen && seen[d] == h.latest[d].item
    ensures OneCell(DeltaOf(h).chunks)
    ensures forall d :: d in FrameFor(v, DeltaOf(h)).items ==>
              d in seen && FrameFor(v, DeltaOf(h)).items[d] == seen[d]
    ensures OneCell(SnapshotChunks(h, v))
    ensures forall d :: d in Merge(SnapshotChunks(h, v)) ==> d in seen && Merge(SnapshotChunks(h, v))[d] == seen[d]
  {
    DeltaOneCell(h);
    forall d | d in FrameFor(v, DeltaOf(h)).items
      ensures d in seen && FrameFor(v, DeltaOf(h)).items[d] == seen[d]
    {
      DrainItems(h, v, d);
    }
    SnapshotIsVisible(h, v);
  }

  /** A tick leaves the frames owed alone, drops the pending one, or adds its own. */
  lemma OfferOwes(l: Link, delta: TickDelta)
    requires OneCell(delta.chunks) && Coherent(l.conn)
    ensures var l' := l.(conn := Offer(l.conn, delta));
            || Owed(l') == Owed(l)
            || Owed(l') == Owed(l)[..|l.wire|]
            || (l.conn.viewport.Some? && Owed(l') == Owed(l) + [FrameFor(l.conn.viewport.value, delta)])
  {
    var c := Offer(l.conn, delta);
    if c != l.conn {
      if l.conn.pending.Some? {
        assert Owed(l)[..|l.wire|] == l.wire;
      } else {
        assert c.pending == Some(FrameFor(l.conn.viewport.value, delta));
        assert Owed(l) == l.wire;
      }
    }
  }

  lemma TickOwes(h: Hub, l: Link)
    requires Valid(h) && Coherent(l.conn)
    ensures OneCell(DeltaOf(h).chunks)
    ensures var l' := TickLink(h, l);
            || Owed(l') == Owed(l)
            || Owed(l') == Owed(l)[..|l.wire|]
            || (l.conn.viewport.Some? && Owed(l') == Owed(l) + [FrameFor(l.conn.viewport.value, DeltaOf(h))])
    ensures TickLink(h, l).client == l.client
  {
    DeltaOneCell(h);
    OfferOwes(l, DeltaOf(h));
  }

  lemma SendOwes(h: Hub, l: Link)
    requires Valid(h) && Coherent(l.conn)
    ensures var l' := SendLink(h, l);
            if NextOut(l.conn).Snapshot? then
              && OneCell(SnapshotChunks(h, l.conn.viewport.value))
              && Owed(l') == Owed(l) + [Frame(true, Merge(SnapshotChunks(h, l.conn.viewport.value)), {})]
            else Owed(l') == Owed(l)
    ensures SendLink(h, l).client == l.client
  {
    if NextOut(l.conn).Snapshot? { SnapshotIsVisible(h, l.conn.viewport.value); }
  }

  lemma TickKeepsOrdered(s: System, l: Link)
    requires Valid(s.hub) && Coherent(l.conn) && LinkOrdered(s.seen, l)
    requires forall d :: d in s.hub.latest ==> d in s.seen && s.seen[d] == s.hub.latest[d].item
    ensures LinkOrdered(s.seen, TickLink(s.hub, l))
  {
    var l' := TickLink(s.hub, l);
    TickOwes(s.hub, l);
    if Owed(l') == Owed(l)[..|l.wire|] {
      DropKeepsOrdered(s.seen, l, l', |l.wire|);
    } else if Owed(l') != Owed(l) {
      FramesAreNewest(s.hub, s.seen, l.conn.viewport.value);
      AppendKeepsOrdered(s, l, FrameFor(l.conn.viewport.value, DeltaOf(s.hub)), l');
    }
  }

  lemma SendKeepsOrdered(s: System, l: Link)
    requires Valid(s.hub) && Coherent(l.conn) && LinkOrdered(s.seen, l) && !l.conn.closing
    requires forall d :: d in s.hub.latest ==> d in s.seen && s.seen[d] == s.hub.latest[d].item
    ensures LinkOrdered(s.seen, SendLink(s.hub, l))
  {
    var l' := SendLink(s.hub, l);
    SendOwes(s.hub, l);
    if NextOut(l.conn).Snapshot? {
      FramesAreNewest(s.hub, s.seen, l.conn.viewport.value);
      AppendKeepsOrdered(s, l, Frame(true, Merge(SnapshotChunks(s.hub, l.conn.viewport.value)), {}), l');
    }
  }

  /** Steps on one connection that write nothing: frames already owed stay, or are dropped
      from the end. */
  lemma LocalKeepsOrdered(s: System, a: Action, id: nat)
    requires Valid(s.hub) && Enabled(s, a) && id in s.links && LinkOrdered(s.seen, s.links[id])
    requires a in {MoveWindow(id, if a.MoveWindow? then a.window else []),
                   QueueControl(id, if a.QueueControl? then a.text else ""), Hangup(id)}
    ensures LinkOrdered(s.seen, Next(s, a).links[id])
  {
    var l, l' := s.links[id], Next(s, a).links[id];
    var k := if l'.conn.pending.None? then |l.wire| else |Owed(l)|;
    assert Owed(l') == Owed(l)[..k];
    DropKeepsOrdered(s.seen, l, l', k);
  }

  lemma DeliverKeepsOrdered(s: System, id: nat)
    requires Valid(s.hub) && Enabled(s, Deliver(id)) && LinkOrdered(s.seen, s.links[id])
    ensures LinkOrdered(s.seen, Next(s, Deliver(id)).links[id])
  {
    var l, l' := s.links[id], Next(s, Deliver(id)).links[id];
    assert Owed(l') == Owed(l)[1..];
    assert l.wire[0] == Owed(l)[0];
  }

  /** One connection's share of a step: what was in order stays in order. */
  ghost predicate LinkReady(s: System, id: nat) {
    && Valid(s.hub) && id in s.links && Coherent(s.links[id].conn) && LinkOrdered(s.seen, s.links[id])
    && forall d :: d in s.hub.latest ==> d in s.seen && s.seen[d] == s.hub.latest[d].item
  }

  lemma TickAllKeepsOrdered(s: System)
    requires Inv(s) && Ordered(s)
    ensures Ordered(Next(s, Tick))
  {
    forall id | id in s.links ensures LinkOrdered(s.seen, TickLink(s.hub, s.links[id])) {
      assert LinkInv(s.hub, s.links[id]);
      TickKeepsOrdered(s, s.links[id]);
    }
  }

  lemma ConnectKeepsOrdered(s: System, a: Action)
    requires Ordered(s) && Valid(s.hub) && a.Connect? && Enabled(s, a) && Behind(s.seen, a.leftover)
    ensures Ordered(Next(s, a))
  {
    var s' := Next(s, a);
    assert Owed(s'.links[a.id]) == [];
    forall id | id in s'.links ensures LinkOrdered(s.seen, s'.links[id]) {
      if id != a.id { assert s'.links[id] == s.links[id]; }
    }
  }

  /** A step on one connection leaves the others as they were. */
  lemma OneLinkKeepsOrdered(s: System, s': System, id: nat)
    requires Ordered(s) && s'.seen == s.seen && s'.hub.latest == s.hub.latest
    requires id in s'.links && LinkOrdered(s.seen, s'.links[id])
    requires s'.links == s.links[id := s'.links[id]]
    ensures Ordered(s')
  {
    forall j | j in s'.links ensures LinkOrdered(s.seen, s'.links[j]) {
      if j != id { assert s'.links[j] == s.links[j]; }
    }
  }

  lemma LinkKeepsOrdered(s: System, a: Action)
    requires !a.Happen? && !a.Tick? && !a.Connect?
    requires Valid(s.hub) && Enabled(s, a) && LinkReady(s, a.id)
    ensures LinkOrdered(s.seen, Next(s, a).links[a.id])
  {
    if a.Send? {
      SendKeepsOrdered(s, s.links[a.id]);
    } else if a.Deliver? {
      DeliverKeepsOrdered(s, a.id);
    } else {
      LocalKeepsOrdered(s, a, a.id);
    }
  }

  lemma StepKeepsOrdered(s: System, a: Action)
    requires Inv(s) && Ordered(s) && Enabled(s, a) && Orderly(s, a)
    ensures Ordered(Next(s, a))
  {
    if a.Happen? {
      HappenKeepsOrdered(s, a.event);
    } else if a.Tick? {
      TickAllKeepsOrdered(s);
    } else if a.Connect? {
      ConnectKeepsOrdered(s, a);
    } else {
      assert LinkInv(s.hub, s.links[a.id]);
      LocalStepKeepsOrdered(s, a);
    }
  }

  lemma LocalStepKeepsOrdered(s: System, a: Action)
    requires !a.Happen? && !a.Tick? && !a.Connect?
    requires Valid(s.hub) && Ordered(s) && Enabled(s, a) && Coherent(s.links[a.id].conn)
    ensures Ordered(Next(s, a))
  {
    LinkKeepsOrdered(s, a);
    TouchesOneLink(s, a);
    OneLinkKeepsOrdered(s, Next(s, a), a.id);
  }

  lemma TouchesOneLink(s: System, a: Action)
    requires !a.Happen? && !a.Tick? && !a.Connect? && Valid(s.hub) && Enabled(s, a)
    ensures var s' := Next(s, a);
            && s'.seen == s.seen && s'.hub.latest == s.hub.latest
            && a.id in s'.links && s'.links == s.links[a.id := s'.links[a.id]]
  {
  }

  lemma HappenKeepsOrdered(s: System, e: HubEvent)
    requires Inv(s) && Ordered(s) && Orderly(s, Happen(e))
    ensures Ordered(Next(s, Happen(e)))
  {
    var s' := Next(s, Happen(e));
    match e {
      case Report(item) => if Accepts(s.hub, item) { ApplyMoves(s.hub, item); }
      case Gone(d) => if d in s.hub.latest { ForgetMoves(s.hub, d); }
    }
    forall m | Behind(s.seen, m) ensures Behind(s'.seen, m) {
    }
    forall id | id in s.links ensures LinkOrdered(s'.seen, s.links[id]) {
      assert LinkOrdered(s.seen, s.links[id]);
    }
  }

  /** Delivering a frame to a browser that was right leaves it right if and only if the
      frame does not list a device both ways. */
  lemma DeliveryExact(s: System, id: nat)
    requires Inv(s) && Ordered(s) && Enabled(s, Deliver(id))
    requires s.links[id].browser == s.links[id].client
    ensures var l := Next(s, Deliver(id)).links[id];
            l.browser == l.client <==> NoOverlap(s.links[id].wire[0])
  {
    var l := s.links[id];
    assert l.wire[0] == Owed(l)[0];
    BrowserAgreesIff(l.client, l.wire[0]);
  }

  /** A tick's frame lists a device both ways exactly when the device is visible now and,
      since the last drain, left some covered cell for a place the window does not reach. */
  lemma OverlapIff(h: Hub, v: Window)
    requires Valid(h)
    ensures OneCell(DeltaOf(h).chunks)
    ensures !NoOverlap(FrameFor(v, DeltaOf(h))) <==> exists d :: InView(v, Place(h, d)) && Listed(h, v, d)
  {
    DeltaOneCell(h);
    var f := FrameFor(v, DeltaOf(h));
    if !NoOverlap(f) {
      var d :| d in f.items && d in f.removed;
      DrainItems(h, v, d);
      ListedIsRemoved(h, v, d);
    }
    if d :| InView(v, Place(h, d)) && Listed(h, v, d) {
      DrainItems(h, v, d);
      ListedIsRemoved(h, v, d);
      var c :| Covers(v, c) && Left(h.departed, c, d) && !InView(v, h.departed[c][d]);
      assert Changed(h, d);
      assert d in f.items && d in f.removed;
    }
  }

  ghost predicate OrderlyRun(states: seq<System>, actions: seq<Action>) {
    Run(states, actions) && forall i :: 0 <= i < |actions| ==> Orderly(states[i], actions[i])
  }

  lemma {:induction false} RunKeepsOrdered(states: seq<System>, actions: seq<Action>, k: nat)
    requires OrderlyRun(states, actions) && k < |states|
    ensures Ordered(states[k])
  {
    if k > 0 {
      RunKeepsOrdered(states, actions, k - 1);
      RunKeepsInv(states, actions, k - 1);
      assert Orderly(states[k - 1], actions[k - 1]);
      StepKeepsOrdered(states[k - 1], actions[k - 1]);
    }
  }

  /** Only a delivery changes what is on a screen. */
  lemma OnlyDeliveryShows(s: System, a: Action, id: nat)
    requires Valid(s.hub) && Enabled(s, a) && a != Deliver(id) && id in Next(s, a).links
    ensures var l' := Next(s, a).links[id];
            if id in s.links then l'.browser == s.links[id].browser && l'.client == s.links[id].client
            else l'.browser == l'.client
  {
  }

  // ---------------------------------------------------------------------------
  // What the shipped order loses, exactly
  // ---------------------------------------------------------------------------

  /** The devices missing from a screen once a frame has been shown on it. */
  function LostAfter(before: set<DeviceId>, f: Frame): set<DeviceId> {
    if f.full then {} else (before - f.items.Keys - f.removed) + f.items.Keys * f.removed
  }

  ghost predicate DeliveredAt(states: seq<System>, actions: seq<Action>, i: nat, id: nat) {
    && i < |actions| && i < |states| && actions[i] == Deliver(id)
    && id in states[i].links && states[i].links[id].wire != []
  }

  ghost function FrameAt(states: seq<System>, actions: seq<Action>, i: nat, id: nat): Frame
    requires DeliveredAt(states, actions, i, id)
  {
    states[i].links[id].wire[0]
  }

  /** What the screen of `id` lacks after the first `k` steps of a run. */
  ghost function Lost(states: seq<System>, actions: seq<Action>, k: nat, id: nat): set<DeviceId> {
    if k == 0 then {}
    else if DeliveredAt(states, actions, k - 1, id) then
      LostAfter(Lost(states, actions, k - 1, id), FrameAt(states, actions, k - 1, id))
    else Lost(states, actions, k - 1, id)
  }

  /** One frame, shown on a screen that lacks `lost` and is right about the rest. */
  lemma ShowingExact(client: Chunk, lost: set<DeviceId>, f: Frame)
    requires InOrder(client, f.items) && lost <= client.Keys && (f.full ==> f.removed == {})
    ensures Browse(client - lost, f) == Receive(client, f) - LostAfter(lost, f)
    ensures LostAfter(lost, f) <= Receive(client, f).Keys
  {
    forall d ensures SamePlace(Browse(client - lost, f), Receive(client, f) - LostAfter(lost, f), d) {
      assert d in client && d in f.items ==> client[d].at < f.items[d].at || client[d] == f.items[d];
    }
    SameChunks(Browse(client - lost, f), Receive(client, f) - LostAfter(lost, f));
  }

  lemma DeliveryLoses(s: System, id: nat, lost: set<DeviceId>)
    requires Inv(s) && Ordered(s) && Enabled(s, Deliver(id))
    requires lost <= s.links[id].client.Keys && s.links[id].browser == s.links[id].client - lost
    ensures var l, after := Next(s, Deliver(id)).links[id], LostAfter(lost, s.links[id].wire[0]);
            after <= l.client.Keys && l.browser == l.client - after
  {
    var l := s.links[id];
    assert LinkInv(s.hub, l) && LinkOrdered(s.seen, l);
    assert l.wire[0] == Owed(l)[0];
    ShowingExact(l.client, lost, l.wire[0]);
  }

  /** A connection nobody has made yet has lost nothing. */
  lemma {:induction false} NothingLostYet(states: seq<System>, actions: seq<Action>, k: nat, id: nat)
    requires Run(states, actions) && k < |states| && id !in states[k].links
    ensures Lost(states, actions, k, id) == {}
  {
    if k > 0 {
      assert states[k] == Next(states[k - 1], actions[k - 1]);
      NothingLostYet(states, actions, k - 1, id);
    }
  }

  /** The code as shipped, in every state of every orderly run: the browser shows what
      "items win" shows, except for the devices its frames have lost it. */
  lemma {:induction false} ShippedBrowserTheorem(states: seq<System>, actions: seq<Action>, k: nat, id: nat)
    requires OrderlyRun(states, actions) && k < |states| && id in states[k].links
    ensures Lost(states, actions, k, id) <= states[k].links[id].client.Keys
    ensures states[k].links[id].browser == states[k].links[id].client - Lost(states, actions, k, id)
  {
    if k > 0 {
      var s, a := states[k - 1], actions[k - 1];
      if a != Deliver(id) { OnlyDeliveryShows(s, a, id); }
      if id in s.links {
        ShippedBrowserTheorem(states, actions, k - 1, id);
        if a == Deliver(id) {
          RunKeepsInv(states, actions, k - 1);
          RunKeepsOrdered(states, actions, k - 1);
          assert DeliveredAt(states, actions, k - 1, id);
          DeliveryLoses(s, id, Lost(states, actions, k - 1, id));
        }
      } else {
        NothingLostYet(states, actions, k - 1, id);
      }
    }
  }

  /** A screen is right exactly when nothing is lost, and never wrong about what it shows. */
  lemma RightUnlessLost(states: seq<System>, actions: seq<Action>, k: nat, id: nat)
    requires OrderlyRun(states, actions) && k < |states| && id in states[k].links
    ensures states[k].links[id].browser == states[k].links[id].client <==> Lost(states, actions, k, id) == {}
    ensures forall d :: d in states[k].links[id].browser ==>
              d in states[k].links[id].client && states[k].links[id].browser[d] == states[k].links[id].client[d]
  {
    ShippedBrowserTheorem(states, actions, k, id);
    var lost, client := Lost(states, actions, k, id), states[k].links[id].client;
    if d :| d in lost { assert d in client && d !in client - lost; }
  }

  /** Frame `j` lists `d` both ways, and no later frame before step `k` names it or is full. */
  ghost predicate LostSince(states: seq<System>, actions: seq<Action>, j: nat, k: nat, id: nat, d: DeviceId) {
    && DeliveredAt(states, actions, j, id) && j < k
    && !FrameAt(states, actions, j, id).full
    && d in FrameAt(states, actions, j, id).items && d in FrameAt(states, actions, j, id).removed
    && forall i :: j < i < k && DeliveredAt(states, actions, i, id) ==> Silent(FrameAt(states, actions, i, id), d)
  }

  predicate Silent(f: Frame, d: DeviceId) {
    !f.full && d !in f.items && d !in f.removed
  }

  /** How a device gets lost and how it heals: it is lost exactly from a frame that lists it
      both ways until the next frame that names it, or the next full one. */
  lemma {:induction false} LostIff(states: seq<System>, actions: seq<Action>, k: nat, id: nat, d: DeviceId)
    ensures d in Lost(states, actions, k, id) <==> exists j: nat :: LostSince(states, actions, j, k, id, d)
  {
    if k > 0 {
      LostIff(states, actions, k - 1, id, d);
      if d in Lost(states, actions, k, id) {
        if d in Lost(states, actions, k - 1, id) &&
           (DeliveredAt(states, actions, k - 1, id) ==> Silent(FrameAt(states, actions, k - 1, id), d)) {
          var j: nat :| LostSince(states, actions, j, k - 1, id, d);
          assert LostSince(states, actions, j, k, id, d);
        } else {
          assert LostSince(states, actions, k - 1, k, id, d);
        }
      }
      if j: nat :| LostSince(states, actions, j, k, id, d) {
        if j < k - 1 {
          assert LostSince(states, actions, j, k - 1, id, d);
          assert DeliveredAt(states, actions, k - 1, id) ==> Silent(FrameAt(states, actions, k - 1, id), d);
        }
      }
    }
  }

  /** A browser none of whose own frames so far listed a device both ways is right. */
  lemma NoOverlapIsRight(states: seq<System>, actions: seq<Action>, k: nat, id: nat)
    requires OrderlyRun(states, actions) && k < |states| && id in states[k].links
    requires forall i: nat :: i < k && DeliveredAt(states, actions, i, id) ==>
               NoOverlap(FrameAt(states, actions, i, id))
    ensures states[k].links[id].browser == states[k].links[id].client
  {
    RightUnlessLost(states, actions, k, id);
    forall d ensures d !in Lost(states, actions, k, id) { LostIff(states, actions, k, id, d); }
  }

  /** End to end: after a tick, with nothing under way, the screen is the hub's picture of
      the window less the devices lost. */
  lemma QuietScreenIsExact(states: seq<System>, actions: seq<Action>, j: nat, k: nat, id: nat, v: Window)
    requires OrderlyRun(states, actions) && LastAsked(actions, j, k, id, v) && actions[k - 1].Tick?
    requires id in states[k].links && Owed(states[k].links[id]) == []
    requires !states[k].links[id].conn.closing && !states[k].links[id].conn.needsSnapshot
    ensures states[k].links[id].browser == Visible(states[k].hub, v) - Lost(states, actions, k, id)
  {
    QuietClientIsExact(states, actions, j, k, id, v);
    ShippedBrowserTheorem(states, actions, k, id);
  }
}
