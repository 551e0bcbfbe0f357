/** Sessions and subscriptions: connects and disconnects interleaved at every await. */
module Sessions {
  import opened Options

  type User = nat
  type ConnId = nat
  type TaskId = nat

  /** A caller of the per-user synchronisation: queued for the user's lock, or inside a hook,
      before or after the bridge has taken note of it. */
  datatype Phase = Waiting | First(noted: bool) | Last(noted: bool)

  datatype Job = Job(user: User, phase: Phase)

  datatype Hook = Hook(user: User, first: bool)

  datatype Replica = Replica(
    limit: nat,
    members: map<User, set<ConnId>>,
    subscribed: set<User>,
    tasks: map<TaskId, Job>,
    lock: map<User, TaskId>,
    wanted: set<User>,       // user channels the bridge wants besides the positions channel
    hooks: seq<Hook>)        // every hook ever started

  datatype Action =
    | Connect(task: TaskId, user: User, conn: ConnId)
    | Disconnect(task: TaskId, user: User, conn: ConnId)
    | TakeLock(task: TaskId)
    | HookNoted(task: TaskId)
    | HookReturned(task: TaskId)

  function SessionsOf(s: Replica, u: User): set<ConnId> {
    if u in s.members then s.members[u] else {}
  }

  predicate Enabled(s: Replica, a: Action) {
    match a
    case Connect(t, _, _) => t !in s.tasks
    case Disconnect(t, _, _) => t !in s.tasks
    case TakeLock(t) => t in s.tasks && s.tasks[t].phase.Waiting? && s.tasks[t].user !in s.lock
    case HookNoted(t) => t in s.tasks && !s.tasks[t].phase.Waiting? && !s.tasks[t].phase.noted
    case HookReturned(t) => t in s.tasks && !s.tasks[t].phase.Waiting? && s.tasks[t].phase.noted
  }

  /** The top of the convergence loop: stop if membership and subscription agree, start the
      hook that closes the gap otherwise. */
  function Loop(s: Replica, t: TaskId, u: User): Replica {
    if (u in s.members) == (u in s.subscribed) then
      s.(tasks := s.tasks - {t}, lock := s.lock - {u})
    else
      s.(tasks := s.tasks[t := Job(u, if u in s.members then First(false) else Last(false))],
         lock := s.lock[u := t],
         hooks := s.hooks + [Hook(u, u in s.members)])
  }

  function Next(s: Replica, a: Action): Replica
    requires Enabled(s, a)
  {
    match a
    case Connect(t, u, c) =>
      if |SessionsOf(s, u)| >= s.limit then s
      else s.(members := s.members[u := SessionsOf(s, u) + {c}], tasks := s.tasks[t := Job(u, Waiting)])
    case Disconnect(t, u, c) =>
      if c !in SessionsOf(s, u) then s
      else
        s.(members := if s.members[u] == {c} then s.members - {u} else s.members[u := s.members[u] - {c}],
           tasks := s.tasks[t := Job(u, Waiting)])
    case TakeLock(t) => Loop(s, t, s.tasks[t].user)
    case HookNoted(t) =>
      var job := s.tasks[t];
      s.(wanted := if job.phase.First? then s.wanted + {job.user} else s.wanted - {job.user},
         tasks := s.tasks[t := job.(phase := job.phase.(noted := true))])
    case HookReturned(t) =>
      var job := s.tasks[t];
      Loop(s.(subscribed := if job.phase.First? then s.subscribed + {job.user} else s.subscribed - {job.user}),
           t, job.user)
  }

  // ---------------------------------------------------------------------------
  // The invariant
  // ---------------------------------------------------------------------------

  /** The phase of whoever holds a user's lock. */
  function Running(s: Replica, u: User): Option<Phase> {
    if u in s.lock && s.lock[u] in s.tasks then Some(s.tasks[s.lock[u]].phase) else None
  }

  ghost predicate LocksExact(s: Replica) {
    && (forall u :: u in s.lock ==>
          s.lock[u] in s.tasks && s.tasks[s.lock[u]].user == u && !s.tasks[s.lock[u]].phase.Waiting?)
    && (forall t :: t in s.tasks && !s.tasks[t].phase.Waiting? ==>
          s.tasks[t].user in s.lock && s.lock[s.tasks[t].user] == t)
  }

  ghost predicate Busy(s: Replica, u: User) {
    exists t :: t in s.tasks && s.tasks[t].user == u
  }

  ghost predicate UserInv(s: Replica, u: User) {
    && (u in s.members ==> s.members[u] != {} && |s.members[u]| <= s.limit)
    && ((u in s.members) != (u in s.subscribed) ==> Busy(s, u))
    && match Running(s, u)
       case None => (u in s.wanted <==> u in s.subscribed) && Told(s.hooks, u) == (u in s.subscribed)
       case Some(First(noted)) => u !in s.subscribed && (u in s.wanted <==> noted) && Told(s.hooks, u)
       case Some(Last(noted)) => u in s.subscribed && (u !in s.wanted <==> noted) && !Told(s.hooks, u)
       case Some(Waiting) => false
  }

  /** Whether the last hook started for a user was the "first session" one. */
  function Told(hooks: seq<Hook>, u: User): bool {
    if hooks == [] then false
    else if hooks[|hooks| - 1].user == u then hooks[|hooks| - 1].first
    else Told(hooks[..|hooks| - 1], u)
  }

  /** A user's hooks strictly alternate, beginning with the first-session one. */
  ghost predicate Alternate(hooks: seq<Hook>) {
    forall i :: 0 <= i < |hooks| ==> hooks[i].first == !Told(hooks[..i], hooks[i].user)
  }

  ghost predicate Inv(s: Replica) {
    LocksExact(s) && Alternate(s.hooks) && forall u :: UserInv(s, u)
  }

  lemma AlternateGrows(hooks: seq<Hook>, h: Hook)
    requires Alternate(hooks) && h.first == !Told(hooks, h.user)
    ensures Alternate(hooks + [h])
    ensures forall u :: Told(hooks + [h], u) == if u == h.user then h.first else Told(hooks, u)
  {
    assert (hooks + [h])[..|hooks|] == hooks;
    forall i | 0 <= i < |hooks| + 1 ensures (hooks + [h])[i].first == !Told((hooks + [h])[..i], (hooks + [h])[i].user) {
      if i < |hooks| { assert (hooks + [h])[..i] == hooks[..i]; }
    }
  }

  /** The books are right but for the job of task `t`, which is at the top of the loop. */
  ghost predicate AtTop(s: Replica, t: TaskId, u: User) {
    && t in s.tasks && s.tasks[t].user == u && (u in s.lock ==> s.lock[u] == t)
    && (forall v :: v != u && v in s.lock ==>
          s.lock[v] in s.tasks && s.tasks[s.lock[v]].user == v && !s.tasks[s.lock[v]].phase.Waiting?)
    && (forall k :: k in s.tasks && k != t && !s.tasks[k].phase.Waiting? ==>
          s.tasks[k].user in s.lock && s.lock[s.tasks[k].user] == k)
  }

  ghost predicate SelfReady(s: Replica, u: User) {
    && (u in s.members ==> s.members[u] != {} && |s.members[u]| <= s.limit)
    && (u in s.wanted <==> u in s.subscribed) && Told(s.hooks, u) == (u in s.subscribed)
  }

  lemma LoopKeepsLocks(s: Replica, t: TaskId, u: User)
    requires AtTop(s, t, u)
    ensures LocksExact(Loop(s, t, u))
    ensures forall v :: v != u ==> Running(Loop(s, t, u), v) == Running(s, v)
    ensures forall v :: v != u && Busy(s, v) ==> Busy(Loop(s, t, u), v)
  {
    var s' := Loop(s, t, u);
    forall k | k in s.tasks && k != t && !s.tasks[k].phase.Waiting? ensures s.tasks[k].user != u {}
    forall v | v != u && Busy(s, v) ensures Busy(s', v) {
      var k :| k in s.tasks && s.tasks[k].user == v;
      assert k in s'.tasks && s'.tasks[k].user == v;
    }
  }

  lemma LoopKeepsHooks(s: Replica, t: TaskId, u: User)
    requires Alternate(s.hooks) && SelfReady(s, u)
    ensures Alternate(Loop(s, t, u).hooks)
    ensures forall v :: v != u ==> Told(Loop(s, t, u).hooks, v) == Told(s.hooks, v)
    ensures (u in s.members) != (u in s.subscribed) ==> Told(Loop(s, t, u).hooks, u) == (u in s.members)
  {
    if (u in s.members) != (u in s.subscribed) { AlternateGrows(s.hooks, Hook(u, u in s.members)); }
  }

  lemma LoopKeepsSelf(s: Replica, t: TaskId, u: User)
    requires AtTop(s, t, u) && SelfReady(s, u) && Alternate(s.hooks)
    ensures UserInv(Loop(s, t, u), u)
  {
    LoopKeepsHooks(s, t, u);
    var s' := Loop(s, t, u);
    if (u in s.members) != (u in s.subscribed) {
      assert t in s'.tasks && s'.tasks[t].user == u;
    }
  }

  lemma LoopKeepsInv(s: Replica, t: TaskId, u: User)
    requires AtTop(s, t, u) && SelfReady(s, u) && Alternate(s.hooks)
    requires forall v :: v != u ==> UserInv(s, v)
    ensures Inv(Loop(s, t, u))
  {
    LoopKeepsLocks(s, t, u);
    LoopKeepsHooks(s, t, u);
    LoopKeepsSelf(s, t, u);
    forall v | v != u ensures UserInv(Loop(s, t, u), v) {
      assert UserInv(s, v);
    }
  }

  lemma MembershipKeepsInv(s: Replica, a: Action)
    requires Inv(s) && Enabled(s, a) && (a.Connect? || a.Disconnect?)
    ensures Inv(Next(s, a))
  {
    var s' := Next(s, a);
    if s' != s {
      forall v ensures UserInv(s', v) {
        assert UserInv(s, v);
        assert Running(s', v) == Running(s, v);
        if v == a.user {
          assert a.task in s'.tasks && s'.tasks[a.task].user == v;
        } else if Busy(s, v) {
          var k :| k in s.tasks && s.tasks[k].user == v;
          assert k in s'.tasks && s'.tasks[k].user == v;
        }
      }
    }
  }

  lemma NotedKeepsInv(s: Replica, t: TaskId)
    requires Inv(s) && Enabled(s, HookNoted(t))
    ensures Inv(Next(s, HookNoted(t)))
  {
    var s' := Next(s, HookNoted(t));
    forall v ensures UserInv(s', v) {
      assert UserInv(s, v);
      if Busy(s, v) {
        var k :| k in s.tasks && s.tasks[k].user == v;
        assert k in s'.tasks && s'.tasks[k].user == v;
      }
    }
  }

  lemma StepKeepsInv(s: Replica, a: Action)
    requires Inv(s) && Enabled(s, a)
    ensures Inv(Next(s, a))
  {
    match a {
      case Connect(_, _, _) => MembershipKeepsInv(s, a);
      case Disconnect(_, _, _) => MembershipKeepsInv(s, a);
      case TakeLock(t) =>
        assert UserInv(s, s.tasks[t].user);
        LoopKeepsInv(s, t, s.tasks[t].user);
      case HookNoted(t) => NotedKeepsInv(s, t);
      case HookReturned(t) => ReturnKeepsInv(s, t);
    }
  }

  lemma ReturnKeepsInv(s: Replica, t: TaskId)
    requires Inv(s) && Enabled(s, HookReturned(t))
    ensures Inv(Next(s, HookReturned(t)))
  {
    var job := s.tasks[t];
    var u := job.user;
    var done := s.(subscribed := if job.phase.First? then s.subscribed + {u} else s.subscribed - {u});
    assert UserInv(s, u) && Running(s, u) == Some(job.phase);
    forall v | v != u ensures UserInv(done, v) {
      assert UserInv(s, v);
      if Busy(s, v) {
        var k :| k in s.tasks && s.tasks[k].user == v;
        assert k in done.tasks && done.tasks[k].user == v;
      }
    }
    LoopKeepsInv(done, t, u);
  }

  ghost predicate Init(s: Replica) {
    && s.members == map[] && s.subscribed == {} && s.tasks == map[] && s.lock == map[]
    && s.wanted == {} && s.hooks == []
  }

  ghost predicate Run(states: seq<Replica>, actions: seq<Action>) {
    && |states| == |actions| + 1
    && Init(states[0])
    && forall i :: 0 <= i < |actions| ==> Enabled(states[i], actions[i]) && states[i + 1] == Next(states[i], actions[i])
  }

  lemma {:induction false} RunKeepsInv(states: seq<Replica>, actions: seq<Action>, k: nat)
    requires Run(states, actions) && k < |states|
    ensures Inv(states[k])
  {
    if k > 0 {
      RunKeepsInv(states, actions, k - 1);
      assert Enabled(states[k - 1], actions[k - 1]);
      StepKeepsInv(states[k - 1], actions[k - 1]);
    } else {
      forall u ensures UserInv(states[0], u) { assert Running(states[0], u) == None; }
    }
  }

  /** Session and subscription agreement, in every state of every run: nobody is above the
      session limit, first and last hooks of a user strictly alternate, and a user with no
      synchronisation under way is subscribed, and wanted by the bridge, exactly while they
      hold a session here. */
  lemma SubscriptionsFollowSessions(states: seq<Replica>, actions: seq<Action>, k: nat, u: User)
    requires Run(states, actions) && k < |states|
    ensures |SessionsOf(states[k], u)| <= states[k].limit
    ensures Alternate(states[k].hooks)
    ensures !Busy(states[k], u) ==>
              && (u in states[k].subscribed <==> SessionsOf(states[k], u) != {})
              && (u in states[k].wanted <==> SessionsOf(states[k], u) != {})
  {
    RunKeepsInv(states, actions, k);
    var s := states[k];
    assert UserInv(s, u);
  }

  // ---------------------------------------------------------------------------
  // Who holds a session
  // ---------------------------------------------------------------------------

  /** A connection attempt that found its user below the limit. */
  ghost predicate Admitted(s: Replica, a: Action, u: User, c: ConnId) {
    a.Connect? && a.user == u && a.conn == c && |SessionsOf(s, u)| < s.limit
  }

  predicate Ends(a: Action, u: User, c: ConnId) {
    a.Disconnect? && a.user == u && a.conn == c
  }

  /** Admitted at step `j` and not disconnected before step `k`. */
  ghost predicate OpenSince(states: seq<Replica>, actions: seq<Action>, j: nat, k: nat, u: User, c: ConnId) {
    && j < k <= |actions| && k <= |states| && Admitted(states[j], actions[j], u, c)
    && forall i :: j < i < k ==> !Ends(actions[i], u, c)
  }

  lemma MembershipStep(s: Replica, a: Action, u: User, c: ConnId)
    requires Enabled(s, a)
    ensures c in SessionsOf(Next(s, a), u) <==>
              Admitted(s, a, u, c) || (c in SessionsOf(s, u) && !Ends(a, u, c))
  {
  }

  /** Over every run and every interleaving: a user's sessions are exactly the connections that
      were admitted and have not been disconnected since. */
  lemma {:induction false} SessionsAreOpenConnections(
    states: seq<Replica>, actions: seq<Action>, k: nat, u: User, c: ConnId)
    requires Run(states, actions) && k < |states|
    ensures c in SessionsOf(states[k], u) <==> exists j: nat :: OpenSince(states, actions, j, k, u, c)
  {
    if k > 0 {
      var m: nat := k - 1;
      var s, a := states[m], actions[m];
      assert Enabled(s, a) && states[k] == Next(s, a);
      SessionsAreOpenConnections(states, actions, m, u, c);
      MembershipStep(s, a, u, c);
      if c in SessionsOf(s, u) && !Ends(a, u, c) {
        var j: nat :| OpenSince(states, actions, j, m, u, c);
        assert OpenSince(states, actions, j, k, u, c);
      }
      if Admitted(s, a, u, c) {
        assert OpenSince(states, actions, m, k, u, c);
      }
      if j: nat :| OpenSince(states, actions, j, k, u, c) {
        if j < m { assert OpenSince(states, actions, j, m, u, c); }
      }
    }
  }

  /** The limit is the replica's own from start to end. */
  lemma {:induction false} LimitStands(states: seq<Replica>, actions: seq<Action>, k: nat)
    requires Run(states, actions) && k < |states|
    ensures states[k].limit == states[0].limit
  {
    if k > 0 {
      LimitStands(states, actions, k - 1);
      assert Enabled(states[k - 1], actions[k - 1]) && states[k] == Next(states[k - 1], actions[k - 1]);
    }
  }

  // ---------------------------------------------------------------------------
  // Synchronisations end
  // ---------------------------------------------------------------------------

  ghost predicate Settled(s: Replica, t: TaskId, u: User) {
    t !in s.tasks && u !in s.lock && (u in s.subscribed <==> SessionsOf(s, u) != {})
  }

  /** A caller whose turn has come and whom nobody disturbs signs off, at once or after one hook,
      with the subscription as the sessions call for. */
  lemma CallerSettles(s: Replica, t: TaskId)
    requires Inv(s) && Enabled(s, TakeLock(t))
    ensures var u, s1 := s.tasks[t].user, Next(s, TakeLock(t));
            if (u in s.subscribed) == (SessionsOf(s, u) != {}) then Settled(s1, t, u)
            else
              && Enabled(s1, HookNoted(t))
              && var s2 := Next(s1, HookNoted(t));
                 && Enabled(s2, HookReturned(t))
                 && Settled(Next(s2, HookReturned(t)), t, u)
  {
    assert UserInv(s, s.tasks[t].user);
  }
}
