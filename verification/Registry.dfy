/** The registry's and the bridge's own books, one method per stretch between two awaits: the
    registry's take the steps of `Sessions`, the bridge's may be interleaved with a failing
    reader at will. */
module Registry {
  import opened Options
  import opened Sessions

  /** One user's serialisation object: how many callers use it, and who holds its lock. */
  datatype Sync = Sync(callers: nat, holder: Option<TaskId>)

  function JobsOf(s: Replica, u: User): set<TaskId> {
    set t | t in s.tasks && s.tasks[t].user == u
  }

  function HolderOf(s: Replica, u: User): Option<TaskId> {
    if u in s.lock then Some(s.lock[u]) else None
  }

  ghost predicate SyncExact(syncs: map<User, Sync>, s: Replica, u: User) {
    && (u in syncs <==> JobsOf(s, u) != {})
    && (u in syncs ==> syncs[u] == Sync(|JobsOf(s, u)|, HolderOf(s, u)))
  }

  /** A user's object exists exactly while somebody is using it, so all callers at one time
      share one lock although the table is emptied as they leave. */
  ghost predicate SyncsExact(syncs: map<User, Sync>, s: Replica) {
    forall u :: SyncExact(syncs, s, u)
  }

  function Joined(syncs: map<User, Sync>, u: User): map<User, Sync> {
    if u in syncs then syncs[u := syncs[u].(callers := syncs[u].callers + 1)]
    else syncs[u := Sync(1, None)]
  }

  function Departed(syncs: map<User, Sync>, u: User): map<User, Sync>
    requires u in syncs
  {
    if syncs[u].callers <= 1 then syncs - {u}
    else syncs[u := Sync(syncs[u].callers - 1, None)]
  }

  /** A new caller of `u` adds itself to the jobs of `u` and to nobody else's. */
  lemma JobsAfterJoin(s: Replica, t: TaskId, u: User, s': Replica, v: User)
    requires t !in s.tasks && s'.tasks == s.tasks[t := Job(u, Waiting)]
    ensures JobsOf(s', v) == if v == u then JobsOf(s, v) + {t} else JobsOf(s, v)
    ensures t !in JobsOf(s, v)
  {
  }

  lemma JoinKeepsExact(syncs: map<User, Sync>, s: Replica, t: TaskId, u: User, s': Replica)
    requires SyncsExact(syncs, s) && t !in s.tasks
    requires u in s.lock ==> s.lock[u] in JobsOf(s, u)
    requires s'.tasks == s.tasks[t := Job(u, Waiting)] && s'.lock == s.lock
    ensures SyncsExact(Joined(syncs, u), s')
  {
    var joined := Joined(syncs, u);
    forall v ensures SyncExact(joined, s', v) {
      assert SyncExact(syncs, s, v);
      JobsAfterJoin(s, t, u, s', v);
      assert HolderOf(s', v) == HolderOf(s, v);
    }
  }

  lemma EmptyDifference<T>(a: set<T>, b: set<T>)
    ensures a - b == {} <==> a <= b
  {
    forall x | a - b == {} && x in a ensures x in b { assert x !in a - b; }
  }

  /** The loop settles: the lock is given up and the caller signs off. */
  lemma DepartKeepsExact(syncs: map<User, Sync>, s: Replica, t: TaskId, u: User, s': Replica)
    requires SyncsExact(syncs, s) && t in s.tasks && s.tasks[t].user == u
    requires s'.tasks == s.tasks - {t} && s'.lock == s.lock - {u}
    ensures u in syncs && SyncsExact(Departed(syncs, u), s')
  {
    assert SyncExact(syncs, s, u) && t in JobsOf(s, u);
    forall v ensures SyncExact(Departed(syncs, u), s', v) {
      assert SyncExact(syncs, s, v);
      if v == u {
        assert JobsOf(s', u) == JobsOf(s, u) - {t};
        assert |JobsOf(s', u)| == |JobsOf(s, u)| - 1;
      } else {
        assert JobsOf(s', v) == JobsOf(s, v);
      }
    }
  }

  lemma HoldKeepsExact(syncs: map<User, Sync>, s: Replica, t: TaskId, u: User, s': Replica)
    requires SyncsExact(syncs, s) && t in s.tasks && s.tasks[t].user == u
    requires t in s'.tasks && s'.tasks[t].user == u
    requires s'.tasks == s.tasks[t := s'.tasks[t]] && s'.lock == s.lock[u := t]
    ensures u in syncs && SyncsExact(syncs[u := syncs[u].(holder := Some(t))], s')
  {
    assert SyncExact(syncs, s, u) && t in JobsOf(s, u);
    var taken := syncs[u := syncs[u].(holder := Some(t))];
    forall v ensures SyncExact(taken, s', v) {
      assert SyncExact(syncs, s, v);
      assert JobsOf(s', v) == JobsOf(s, v);
    }
  }

  class ConnectionRegistry {
    const limit: nat
    var byUser: map<User, set<ConnId>>
    var subscribed: set<User>
    var syncs: map<User, Sync>
    ghost var model: Replica

    ghost predicate Valid()
      reads this
    {
      && Inv(model)
      && byUser == model.members && subscribed == model.subscribed && limit == model.limit
      && SyncsExact(syncs, model)
    }

    constructor (limit: nat)
      ensures Valid() && Init(model) && this.limit == limit
    {
      this.limit := limit;
      byUser, subscribed, syncs := map[], {}, map[];
      model := Replica(limit, map[], {}, map[], map[], {}, []);
      new;
      forall u ensures UserInv(model, u) && SyncExact(syncs, model, u) { assert Running(model, u) == None; }
    }

    /** Count and admit in one stretch, then join the user's queue. */
    method Add(t: TaskId, u: User, c: ConnId) returns (admitted: bool)
      requires Valid() && Enabled(model, Connect(t, u, c))
      modifies this
      ensures Valid() && model == Next(old(model), Connect(t, u, c))
      ensures admitted <==> |SessionsOf(old(model), u)| < limit
      ensures !admitted ==> byUser == old(byUser) && syncs == old(syncs)
    {
      var connections := if u in byUser then byUser[u] else {};
      if |connections| >= limit {
        return false;
      }
      StepKeepsInv(model, Connect(t, u, c));
      JoinKeepsExact(syncs, model, t, u, Next(model, Connect(t, u, c)));
      model := Next(model, Connect(t, u, c));
      byUser := byUser[u := connections + {c}];
      syncs := Joined(syncs, u);
      admitted := true;
    }

    method Remove(t: TaskId, u: User, c: ConnId) returns (known: bool)
      requires Valid() && Enabled(model, Disconnect(t, u, c))
      modifies this
      ensures Valid() && model == Next(old(model), Disconnect(t, u, c))
      ensures known <==> c in SessionsOf(old(model), u)
    {
      if u !in byUser || c !in byUser[u] {
        return false;
      }
      StepKeepsInv(model, Disconnect(t, u, c));
      JoinKeepsExact(syncs, model, t, u, Next(model, Disconnect(t, u, c)));
      model := Next(model, Disconnect(t, u, c));
      var rest := byUser[u] - {c};
      assert rest == {} <==> byUser[u] == {c};
      byUser := if rest == {} then byUser - {u} else byUser[u := rest];
      syncs := Joined(syncs, u);
      known := true;
    }

    /** The lock is free: enter the loop. `hook` says which hook is now awaited, if any. */
    method Enter(t: TaskId, u: User) returns (hook: Option<bool>)
      requires Valid() && Enabled(model, TakeLock(t)) && model.tasks[t].user == u
      modifies this
      ensures Valid() && model == Next(old(model), TakeLock(t))
      ensures hook.None? <==> t !in model.tasks
      ensures hook.Some? ==> hook.value == (u in byUser) != (u in subscribed)
    {
      StepKeepsInv(model, TakeLock(t));
      hook := LoopTop(t, u);
    }

    /** The hook came back: record it and look again. */
    method Resume(t: TaskId, u: User, first: bool) returns (hook: Option<bool>)
      requires Valid() && Enabled(model, HookReturned(t)) && model.tasks[t].user == u
      requires first == model.tasks[t].phase.First?
      modifies this
      ensures Valid() && model == Next(old(model), HookReturned(t))
      ensures hook.None? <==> t !in model.tasks
      ensures hook.Some? ==> hook.value == (u in byUser) != (u in subscribed)
    {
      StepKeepsInv(model, HookReturned(t));
      SyncsAreKept(syncs, model, if first then subscribed + {u} else subscribed - {u});
      subscribed := if first then subscribed + {u} else subscribed - {u};
      model := model.(subscribed := subscribed);
      hook := LoopTop(t, u);
    }

    method LoopTop(t: TaskId, u: User) returns (hook: Option<bool>)
      requires byUser == model.members && subscribed == model.subscribed && limit == model.limit
      requires SyncsExact(syncs, model) && t in model.tasks && model.tasks[t].user == u
      requires Inv(Loop(model, t, u))
      modifies this`syncs, this`model
      ensures Valid() && model == Loop(old(model), t, u)
      ensures hook.None? <==> t !in model.tasks
      ensures hook.Some? ==> hook.value == (u in byUser) != (u in subscribed)
    {
      ghost var next := Loop(model, t, u);
      if (u in byUser) == (u in subscribed) {
        DepartKeepsExact(syncs, model, t, u, next);
        syncs := Departed(syncs, u);
        hook := None;
      } else {
        HoldKeepsExact(syncs, model, t, u, next);
        syncs := syncs[u := syncs[u].(holder := Some(t))];
        hook := Some(u in byUser);
      }
      model := next;
    }
  }

  lemma SyncsAreKept(syncs: map<User, Sync>, s: Replica, subscribed: set<User>)
    requires SyncsExact(syncs, s)
    ensures SyncsExact(syncs, s.(subscribed := subscribed))
  {
    forall u ensures SyncExact(syncs, s.(subscribed := subscribed), u) {
      assert SyncExact(syncs, s, u);
      assert JobsOf(s.(subscribed := subscribed), u) == JobsOf(s, u);
    }
  }

  // ---------------------------------------------------------------------------
  // The bridge
  // ---------------------------------------------------------------------------

  datatype Channel = Positions | Private(user: User)

  /** The channels a replica needs: everybody's positions, and its own users' frames. */
  function Needed(users: set<User>): set<Channel> {
    {Positions} + set u | u in users :: Private(u)
  }

  lemma NeededIsExact(users: set<User>, u: User)
    ensures Needed(users + {u}) == Needed(users) + {Private(u)}
    ensures Needed(users - {u}) == Needed(users) - {Private(u)}
  {
    assert forall v :: Private(v) in Needed(users) <==> v in users;
  }

  /** Where the one subscription change that holds the lock stands: it has the two differences
      it set out with, and awaits one command or the other. */
  datatype Change =
    | NoChange
    | Unsubscribing(stale: set<Channel>, missing: set<Channel>)
    | Subscribing(missing: set<Channel>)

  /** What is known while a change waits for Redis. Nobody else changes what is wanted
      meanwhile, but the reader may lose the connection, and the held channels with it. */
  ghost predicate ChangeInv(change: Change, wanted: set<Channel>, held: set<Channel>, lost: bool) {
    match change
    case NoChange => true
    case Unsubscribing(stale, missing) =>
      && stale !! wanted && missing <= wanted && held <= wanted + stale
      && (!lost ==> held == wanted - missing + stale)
    case Subscribing(missing) =>
      && missing <= wanted && held <= wanted
      && (!lost ==> held == wanted - missing)
  }

  class RedisBridge {
    var wanted: set<Channel>
    var held: set<Channel>
    var change: Change
    ghost var lost: bool      // the connection has failed since the change set out

    ghost predicate Valid()
      reads this
    {
      ChangeInv(change, wanted, held, lost)
    }

    constructor ()
      ensures Valid() && wanted == Needed({}) && held == {} && change == NoChange
    {
      wanted, held, change, lost := {Positions}, {}, NoChange, false;
    }

    /** With the lock taken: note the two differences and send the first command needed. */
    method BeginApply()
      requires change.NoChange?
      modifies this`change, this`lost
      ensures Valid() && !lost
      ensures change.NoChange? <==> held == wanted
      ensures change.Unsubscribing? <==> !(held <= wanted)
    {
      var stale, missing := held - wanted, wanted - held;
      EmptyDifference(held, wanted);
      EmptyDifference(wanted, held);
      lost := false;
      if stale != {} {
        change := Unsubscribing(stale, missing);
      } else if missing != {} {
        change := Subscribing(missing);
      }
    }

    /** The unsubscribe command was answered; a failure ends the change and leaves the
        rest to a later one. */
    method UnsubscribeReply(lands: bool)
      requires Valid() && change.Unsubscribing?
      modifies this`held, this`change
      ensures Valid() && old(held) * wanted <= held <= old(held)
      ensures !lands ==> change.NoChange? && held == old(held)
      ensures lands ==> held <= wanted && (change.NoChange? || change == Subscribing(old(change).missing))
      ensures lands && change.NoChange? && !lost ==> held == wanted
    {
      if !lands {
        change := NoChange;
        return;
      }
      held := held - change.stale;
      change := if change.missing == {} then NoChange else Subscribing(change.missing);
    }

    /** The subscribe command was answered. In sync at the end of a change exactly when its
        commands landed, unless the connection was lost on the way. */
    method SubscribeReply(lands: bool) returns (inSync: bool)
      requires Valid() && change.Subscribing?
      modifies this`held, this`change
      ensures Valid() && change.NoChange? && (inSync <==> held == wanted)
      ensures old(held) <= held <= wanted && (!lands ==> held == old(held))
      ensures lands && !lost ==> inSync
    {
      if lands {
        held := held + change.missing;
      }
      change := NoChange;
      inSync := held == wanted;
    }

    /** The read failed, at any moment and without the lock: every subscription went with the
        connection. */
    method ReadFailed()
      requires Valid()
      modifies this`held, this`lost
      ensures Valid() && held == {} && lost
    {
      held, lost := {}, true;
    }

    /** Repair: whatever failures came before, one change that meets none leaves Redis holding
        exactly the wanted channels, and no channel that was right is ever let go. */
    method Sync(unsubscribeLands: bool, subscribeLands: bool) returns (inSync: bool)
      requires change.NoChange?
      modifies this`held, this`change, this`lost
      ensures change.NoChange? && (inSync <==> held == wanted)
      ensures inSync <==> (old(held) <= wanted || unsubscribeLands) && (wanted <= old(held) || subscribeLands)
      ensures forall c :: (c in old(held) <==> c in wanted) ==> (c in held <==> c in wanted)
      ensures held <= old(held) + wanted && old(held) * wanted <= held
    {
      BeginApply();
      if change.Unsubscribing? {
        UnsubscribeReply(unsubscribeLands);
      }
      if change.Subscribing? {
        inSync := SubscribeReply(subscribeLands);
      }
      inSync := held == wanted;
    }

    method SubscribeUser(u: User)
      requires change.NoChange?
      modifies this`wanted, this`change, this`lost
      ensures Valid() && wanted == old(wanted) + {Private(u)}
      ensures change.NoChange? <==> held == wanted
    {
      wanted := wanted + {Private(u)};
      BeginApply();
    }

    method UnsubscribeUser(u: User)
      requires change.NoChange?
      modifies this`wanted, this`change, this`lost
      ensures Valid() && wanted == old(wanted) - {Private(u)}
      ensures change.NoChange? <==> held == wanted
    {
      wanted := wanted - {Private(u)};
      BeginApply();
    }
  }

  /** A user's first- or last-session hook takes the bridge's lock: from that moment the
      wanted channels are those of the users the sessions call for, and only another hook
      changes them, whatever Redis answers or the reader loses in between. */
  method RunHook(registry: ConnectionRegistry, bridge: RedisBridge, t: TaskId, u: User, first: bool)
    requires registry.Valid() && Enabled(registry.model, HookNoted(t))
    requires registry.model.tasks[t].user == u && registry.model.tasks[t].phase.First? == first
    requires bridge.change.NoChange? && bridge.wanted == Needed(registry.model.wanted)
    modifies bridge`wanted, bridge`change, bridge`lost, registry`model
    ensures registry.Valid() && registry.model == Next(old(registry.model), HookNoted(t))
    ensures bridge.Valid() && bridge.wanted == Needed(registry.model.wanted)
  {
    StepKeepsInv(registry.model, HookNoted(t));
    NotedKeepsSyncs(registry.syncs, registry.model, t);
    NeededIsExact(registry.model.wanted, u);
    registry.model := Next(registry.model, HookNoted(t));
    if first {
      bridge.SubscribeUser(u);
    } else {
      bridge.UnsubscribeUser(u);
    }
  }

  lemma NotedKeepsSyncs(syncs: map<User, Sync>, s: Replica, t: TaskId)
    requires SyncsExact(syncs, s) && Enabled(s, HookNoted(t))
    ensures SyncsExact(syncs, Next(s, HookNoted(t)))
  {
    forall u ensures SyncExact(syncs, Next(s, HookNoted(t)), u) {
      assert SyncExact(syncs, s, u);
      assert JobsOf(Next(s, HookNoted(t)), u) == JobsOf(s, u);
    }
  }
}
