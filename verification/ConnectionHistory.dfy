/** What a connection does over whole runs besides staying right: it catches up, owes a
    snapshot only when it must, passes control frames on in order and closes only for cause. */
module ConnectionHistory {
  import opened Options
  import opened Grid
  import opened HubState
  import opened TickFrames
  import opened ConnectionState
  import opened LiveView

  // ---------------------------------------------------------------------------
  // Catching up
  // ---------------------------------------------------------------------------

  ghost predicate Open(s: System, id: nat) {
    Inv(s) && id in s.links && !s.links[id].conn.closing
  }

  /** The sender wakes up `n` times, and nothing else happens. */
  ghost function AfterSends(s: System, id: nat, n: nat): (r: System)
    requires Open(s, id)
    ensures Open(r, id)
    decreases n
  {
    if n == 0 then s
    else
      StepKeepsInv(s, Send(id));
      AfterSends(Next(s, Send(id)), id, n - 1)
  }

  /** The browser reads `n` of the frames written to it, and nothing else happens. */
  ghost function AfterDeliveries(s: System, id: nat, n: nat): (r: System)
    requires Inv(s) && id in s.links && n <= |s.links[id].wire|
    ensures Inv(r) && id in r.links
    decreases n
  {
    if n == 0 then s
    else
      StepKeepsInv(s, Deliver(id));
      AfterDeliveries(Next(s, Deliver(id)), id, n - 1)
  }

  /** A link after the first `n` of its control frames have been written. */
  function Spoke(l: Link, n: nat): Link
    requires n <= |l.conn.control|
  {
    l.(conn := l.conn.(control := l.conn.control[n..]), told := l.told + l.conn.control[..n])
  }

  lemma SpokeOnce(s: System, id: nat)
    requires Open(s, id) && s.links[id].conn.control != []
    ensures Next(s, Send(id)) == s.(links := s.links[id := Spoke(s.links[id], 1)])
  {
    var l := s.links[id];
    assert NextOut(l.conn) == Control(l.conn.control[0]);
    assert l.conn.control[..1] == [l.conn.control[0]];
  }

  lemma SpokeAgain(l: Link, n: nat)
    requires 0 < n <= |l.conn.control|
    ensures Spoke(Spoke(l, 1), n - 1) == Spoke(l, n)
  {
    var control := l.conn.control;
    assert control[1..][n - 1..] == control[n..];
    assert control[..1] + control[1..][..n - 1] == control[..n];
    assert (l.told + control[..1]) + control[1..][..n - 1] == l.told + (control[..1] + control[1..][..n - 1]);
  }

  /** Control frames go first, oldest before newest. */
  lemma {:induction false} ControlGoesFirst(s: System, id: nat, n: nat)
    requires Open(s, id) && n <= |s.links[id].conn.control|
    ensures AfterSends(s, id, n).hub == s.hub && AfterSends(s, id, n).links[id] == Spoke(s.links[id], n)
    decreases n
  {
    var l := s.links[id];
    if n == 0 {
      assert Spoke(l, 0) == l by { assert l.told + [] == l.told; }
    } else {
      StepKeepsInv(s, Send(id));
      SpokeOnce(s, id);
      ControlGoesFirst(Next(s, Send(id)), id, n - 1);
      SpokeAgain(l, n);
    }
  }

  /** Then whatever position frame is owed: one send settles it. */
  lemma OneSendSettles(s: System, id: nat)
    requires Open(s, id) && s.links[id].conn.control == []
    ensures var s' := Next(s, Send(id));
            && Inv(s') && s'.hub.latest == s.hub.latest
            && s'.hub.changed == s.hub.changed && s'.hub.departed == s.hub.departed
            && s'.links[id].conn.viewport == s.links[id].conn.viewport && !s'.links[id].conn.closing
            && s'.links[id].conn.control == [] && s'.links[id].conn.pending.None?
            && !s'.links[id].conn.needsSnapshot && s'.links[id].told == s.links[id].told
  {
    StepKeepsInv(s, Send(id));
    assert LinkInv(s.hub, s.links[id]);
  }

  lemma {:induction false} DeliveriesFold(s: System, id: nat)
    requires Inv(s) && id in s.links
    ensures var r := AfterDeliveries(s, id, |s.links[id].wire|);
            && r.hub == s.hub && r.links[id].wire == []
            && r.links[id].client == Fold(s.links[id].client, s.links[id].wire)
    decreases |s.links[id].wire|
  {
    if s.links[id].wire != [] {
      StepKeepsInv(s, Deliver(id));
      DeliveriesFold(Next(s, Deliver(id)), id);
    }
  }

  lemma SettledIsVisible(h: Hub, l: Link, v: Window)
    requires Valid(h) && LinkInv(h, l) && h.changed == map[] && h.departed == map[]
    requires l.conn.viewport == Some(v) && !l.conn.closing && !l.conn.needsSnapshot && l.conn.pending.None?
    ensures Fold(l.client, l.wire) == Visible(h, v)
  {
    assert Owed(l) == l.wire;
    forall d ensures SamePlace(Fold(l.client, l.wire), Visible(h, v), d) {
      assert SyncedAt(h, v, Fold(l.client, l.wire), d);
    }
    SameChunks(Fold(l.client, l.wire), Visible(h, v));
  }

  /** The client catches up: from any reachable state, a tick, as many sends as there are control
      frames and one more, and the deliveries of what they wrote leave it with exactly the
      hub's picture of its window, and with every control frame queued. */
  lemma CatchesUp(s: System, id: nat)
    requires Open(s, id) && s.links[id].conn.viewport.Some?
    ensures Open(Next(s, Tick), id)
    ensures var l := s.links[id];
            var sent := AfterSends(Next(s, Tick), id, |l.conn.control| + 1);
            var read := AfterDeliveries(sent, id, |sent.links[id].wire|);
            && read.links[id].client == Visible(s.hub, l.conn.viewport.value)
            && read.links[id].told == l.told + l.conn.control
            && Owed(read.links[id]) == [] && !read.links[id].conn.needsSnapshot
  {
    var l, n := s.links[id], |s.links[id].conn.control|;
    StepKeepsInv(s, Tick);
    TickKeepsRest(s.hub, l);
    SendsSettle(Next(s, Tick), id);
    var sent := AfterSends(Next(s, Tick), id, n + 1);
    SettledIsVisible(sent.hub, sent.links[id], l.conn.viewport.value);
    DeliveriesFold(sent, id);
    DeliveriesKeepRest(sent, id, |sent.links[id].wire|);
  }

  /** As many sends as there are control frames, and one more, leave nothing to be written. */
  lemma SendsSettle(s: System, id: nat)
    requires Open(s, id)
    ensures var l, r := s.links[id], AfterSends(s, id, |s.links[id].conn.control| + 1);
            && r.hub.latest == s.hub.latest && r.hub.changed == s.hub.changed && r.hub.departed == s.hub.departed
            && LinkInv(r.hub, r.links[id]) && r.links[id].conn.viewport == l.conn.viewport
            && !r.links[id].conn.needsSnapshot && r.links[id].conn.pending.None?
            && r.links[id].told == l.told + l.conn.control
  {
    var l, n := s.links[id], |s.links[id].conn.control|;
    ControlGoesFirst(s, id, n);
    assert l.conn.control[..n] == l.conn.control && l.conn.control[n..] == [];
    OneSendSettles(AfterSends(s, id, n), id);
    SendsAddUp(s, id, n);
  }

  lemma TickKeepsRest(h: Hub, l: Link)
    requires Valid(h)
    ensures var l' := TickLink(h, l);
            && l'.conn.viewport == l.conn.viewport && l'.conn.closing == l.conn.closing
            && l'.conn.control == l.conn.control && l'.told == l.told
  {
  }

  lemma {:induction false} SendsAddUp(s: System, id: nat, n: nat)
    requires Open(s, id)
    ensures AfterSends(s, id, n + 1) == Next(AfterSends(s, id, n), Send(id))
    decreases n
  {
    if n > 0 {
      StepKeepsInv(s, Send(id));
      SendsAddUp(Next(s, Send(id)), id, n - 1);
    }
  }

  lemma {:induction false} DeliveriesKeepRest(s: System, id: nat, n: nat)
    requires Inv(s) && id in s.links && n <= |s.links[id].wire|
    ensures var r := AfterDeliveries(s, id, n);
            r.links[id].conn == s.links[id].conn && r.links[id].told == s.links[id].told
    decreases n
  {
    if n > 0 {
      StepKeepsInv(s, Deliver(id));
      DeliveriesKeepRest(Next(s, Deliver(id)), id, n - 1);
    }
  }

  // ---------------------------------------------------------------------------
  // Snapshot debts
  // ---------------------------------------------------------------------------

  /** A connection comes to owe a snapshot in two ways only: its client moved the window, or a
      tick had news for the window while an earlier delta had not been written yet. */
  lemma DebtHasCause(s: System, a: Action, id: nat)
    requires Inv(s) && Enabled(s, a) && id in s.links && !s.links[id].conn.needsSnapshot
    ensures Next(s, a).links[id].conn.needsSnapshot ==>
              || AsksWindow(a, id)
              || (a.Tick? && s.links[id].conn.pending.Some?
                  && exists d :: NewsFor(s.hub, s.links[id].conn.viewport.value, d))
  {
    if a.Tick? && Next(s, a).links[id].conn.needsSnapshot {
      NewsExists(s.hub, s.links[id].conn.viewport.value);
    }
  }

  /** Since the last drain a device changed where the window sees it, or left its sight. */
  ghost predicate NewsFor(h: Hub, v: Window, d: DeviceId) {
    (Changed(h, d) && InView(v, Place(h, d))) || Listed(h, v, d)
  }

  lemma NewsExists(h: Hub, v: Window)
    requires Valid(h)
    ensures OneCell(DeltaOf(h).chunks)
    ensures ChunksIn(v, DeltaOf(h).chunks) != map[] || RemovedFrom(v, DeltaOf(h).departures) != {} ==>
              exists d :: NewsFor(h, v, d)
  {
    DeltaOneCell(h);
    var chunks, removed := ChunksIn(v, DeltaOf(h).chunks), RemovedFrom(v, DeltaOf(h).departures);
    if chunks != map[] {
      var c :| c in chunks;
      var d :| d in h.changed[c];
      assert Holds(h.changed, c, d);
      assert NewsFor(h, v, d);
    } else if removed != {} {
      var d :| d in removed;
      ListedIsRemoved(h, v, d);
      assert d in FrameFor(v, DeltaOf(h)).removed;
      assert NewsFor(h, v, d);
    }
  }

  // ---------------------------------------------------------------------------
  // Control frames and closing
  // ---------------------------------------------------------------------------

  /** The control frames queued for a client in the first `k` steps. */
  function Texts(actions: seq<Action>, k: nat, id: nat): seq<string>
    requires k <= |actions|
  {
    if k == 0 then []
    else Texts(actions, k - 1, id)
         + if actions[k - 1].QueueControl? && actions[k - 1].id == id then [actions[k - 1].text] else []
  }

  /** Steps that end a connection: hanging up, or one control frame too many. */
  ghost predicate Ends(s: System, a: Action, id: nat) {
    && id in s.links
    && (a == Hangup(id)
        || (a.QueueControl? && a.id == id && |s.links[id].conn.control| >= s.links[id].conn.controlMax))
  }

  ghost predicate Spoken(l: Link, texts: seq<string>) {
    if l.conn.closing then l.told <= texts else l.told + l.conn.control == texts
  }

  lemma StepKeepsSpoken(s: System, a: Action, id: nat, texts: seq<string>)
    requires Valid(s.hub) && Enabled(s, a) && id in s.links && Spoken(s.links[id], texts)
    ensures Spoken(Next(s, a).links[id],
                   if a.QueueControl? && a.id == id then texts + [a.text] else texts)
  {
    var l, l' := s.links[id], Next(s, a).links[id];
    if a == Send(id) && l.conn.control != [] {
      assert l.told + l.conn.control == (l.told + [l.conn.control[0]]) + l.conn.control[1..];
    } else if a.QueueControl? && a.id == id && !l'.conn.closing {
      assert l.told + (l.conn.control + [a.text]) == texts + [a.text];
    } else if a.Tick? {
      TickKeepsRest(s.hub, l);
    }
  }

  /** Control frames reach the client in order and none is lost: those written and those
      waiting spell out those queued, until the connection closes. */
  lemma {:induction false} ControlInOrder(states: seq<System>, actions: seq<Action>, k: nat, id: nat)
    requires Run(states, actions) && k < |states| && id in states[k].links
    ensures Spoken(states[k].links[id], Texts(actions, k, id))
  {
    if k > 0 {
      var s, a := states[k - 1], actions[k - 1];
      assert states[k] == Next(s, a);
      if id in s.links {
        ControlInOrder(states, actions, k - 1, id);
        StepKeepsSpoken(s, a, id, Texts(actions, k - 1, id));
      } else {
        NothingQueuedYet(states, actions, k - 1, id);
      }
    }
  }

  lemma {:induction false} NothingQueuedYet(states: seq<System>, actions: seq<Action>, k: nat, id: nat)
    requires Run(states, actions) && k < |states| && id !in states[k].links
    ensures Texts(actions, k, id) == []
  {
    if k > 0 {
      assert states[k] == Next(states[k - 1], actions[k - 1]);
      NothingQueuedYet(states, actions, k - 1, id);
    }
  }

  /** A connection is closing exactly when something ended it: nobody is cut off otherwise, and
      the limit is what cuts a slow one off. */
  lemma {:induction false} ClosedIff(states: seq<System>, actions: seq<Action>, k: nat, id: nat)
    requires Run(states, actions) && k < |states| && id in states[k].links
    ensures states[k].links[id].conn.closing <==> exists i :: 0 <= i < k && Ends(states[i], actions[i], id)
  {
    if k > 0 {
      var s, a := states[k - 1], actions[k - 1];
      assert states[k] == Next(s, a);
      if id in s.links {
        ClosedIff(states, actions, k - 1, id);
        ClosingStep(s, a, id);
      } else {
        NeverEndedYet(states, actions, k - 1, id);
      }
    }
  }

  lemma ClosingStep(s: System, a: Action, id: nat)
    requires Valid(s.hub) && Enabled(s, a) && id in s.links
    ensures Next(s, a).links[id].conn.closing <==> s.links[id].conn.closing || Ends(s, a, id)
  {
  }

  lemma {:induction false} NeverEndedYet(states: seq<System>, actions: seq<Action>, k: nat, id: nat)
    requires Run(states, actions) && k < |states| && id !in states[k].links
    ensures forall i :: 0 <= i <= k ==> id !in states[i].links
  {
    if k > 0 {
      assert states[k] == Next(states[k - 1], actions[k - 1]);
      NeverEndedYet(states, actions, k - 1, id);
    }
  }
}
