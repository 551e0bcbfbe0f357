/** The steps of one shard: readers, lease checks, commits, dead-lettering and
    acknowledgement, with failures between any two of them. */
module ShardProtocol {
  import opened Options
  import opened Sets
  import opened Geofence
  import opened Confluence
  import opened Delivery

  /** Where a consumer stands between two awaits. */
  datatype Phase =
    | Idle
    | Read(batch: seq<Entry>)
    | Checked(batch: seq<Entry>)
    | Applied(batch: seq<Entry>, dead: set<EntryId>)
    | Buried(batch: seq<Entry>)
    | Stopped

  datatype Lease = Lease(owner: Replica, expiry: int)

  /** One consumer task. A replica whose cancelled consumer has not ended yet may acquire the
      shard again and start another, so it can have several. */
  datatype Reader = Reader(owner: Replica, number: nat)

  datatype Shard = Shard(
    limits: Limits,
    clock: int,
    stream: map<EntryId, Payload>,
    origin: map<EntryId, Payload>,     // everything ever added
    deadLetters: set<EntryId>,         // everything ever dead-lettered
    effects: seq<Effect>,              // everything ever committed
    db: DB,
    lease: Option<Lease>,
    consumers: map<Reader, Phase>)

  datatype Action =
    | Add(id: EntryId, payload: Payload)
    | Pass(time: int)
    | Elsewhere(op: Op)
    | Acquire(who: Reader, until: int)
    | Renew(owner: Replica, until: int)
    | Release(owner: Replica)
    | ReadBatch(who: Reader, ids: seq<EntryId>)
    | Check(who: Reader, until: int)
    | CommitBatch(who: Reader)
    | CommitUnseen(who: Reader)                  // committed, but the reply never arrived
    | Bury(who: Reader)
    | BuryPartly(who: Reader, some: set<EntryId>)
    | Acknowledge(who: Reader)
    | AcknowledgePartly(who: Reader, some: set<EntryId>)
    | Fail(who: Reader)
    | Gone(who: Reader)                          // crash, or reaped after stopping

  /** Who holds the lease; an expired one is nobody's. */
  function Holder(s: Shard): Option<Replica> {
    if s.lease.Some? && s.clock < s.lease.value.expiry then Some(s.lease.value.owner) else None
  }

  predicate Enabled(s: Shard, a: Action) {
    match a
    case Add(id, _) => id !in s.origin
    case Pass(t) => t >= s.clock
    case Elsewhere(_) => true
    case Acquire(who, until) => Holder(s).None? && who !in s.consumers && until > s.clock
    case Renew(_, until) => until > s.clock
    case Release(_) => true
    case ReadBatch(who, ids) =>
      who in s.consumers && s.consumers[who].Idle? && ids != [] && forall i :: 0 <= i < |ids| ==> ids[i] in s.stream
    case Check(who, until) => who in s.consumers && s.consumers[who].Read? && until > s.clock
    case CommitBatch(who) => who in s.consumers && s.consumers[who].Checked?
    case CommitUnseen(who) => who in s.consumers && s.consumers[who].Checked?
    case Bury(who) => who in s.consumers && s.consumers[who].Applied?
    case BuryPartly(who, some) => who in s.consumers && s.consumers[who].Applied? && some <= s.consumers[who].dead
    case Acknowledge(who) => who in s.consumers && s.consumers[who].Buried?
    case AcknowledgePartly(who, some) =>
      who in s.consumers && s.consumers[who].Buried? && some <= Ids(s.consumers[who].batch)
    case Fail(who) => who in s.consumers && !s.consumers[who].Stopped?
    case Gone(who) => who in s.consumers
  }

  function Entries(stream: map<EntryId, Payload>, ids: seq<EntryId>): seq<Entry>
    requires forall i :: 0 <= i < |ids| ==> ids[i] in stream
  {
    seq(|ids|, i requires 0 <= i < |ids| => Entry(ids[i], stream[ids[i]]))
  }

  function At(s: Shard, who: Reader, phase: Phase): Shard {
    s.(consumers := s.consumers[who := phase])
  }

  /** Compare-and-act: only the owner extends a lease. */
  function Renewed(s: Shard, who: Replica, until: int): Shard {
    if Holder(s) == Some(who) then s.(lease := Some(Lease(who, until))) else s
  }

  /** The transaction of one batch; nothing storable means nothing is written. */
  ghost function Committed(s: Shard, batch: seq<Entry>): Shard {
    var kept := Kept(s.limits, s.clock, batch);
    KeptAreGood(s.limits, s.clock, batch);
    if kept == [] then s
    else s.(db := ApplyBatch(s.db, RecordsOf(kept)), effects := s.effects + [Commit(kept)])
  }

  ghost function Next(s: Shard, a: Action): Shard
    requires Enabled(s, a)
  {
    match a
    case Add(id, payload) => s.(stream := s.stream[id := payload], origin := s.origin[id := payload])
    case Pass(t) => s.(clock := t)
    case Elsewhere(op) => s.(db := Apply(s.db, op), effects := s.effects + [Other(op)])
    case Acquire(who, until) => At(s.(lease := Some(Lease(who.owner, until))), who, Idle)
    case Renew(who, until) => Renewed(s, who, until)
    case Release(who) => if Holder(s) == Some(who) then s.(lease := None) else s
    case ReadBatch(who, ids) => At(s, who, Read(Entries(s.stream, ids)))
    case Check(who, until) =>
      if Holder(s) == Some(who.owner) then At(Renewed(s, who.owner, until), who, Checked(s.consumers[who].batch))
      else At(s, who, Stopped)
    case CommitBatch(who) =>
      var batch := s.consumers[who].batch;
      At(Committed(s, batch), who, Applied(batch, DeadIds(s.limits, s.clock, batch)))
    case CommitUnseen(who) => At(Committed(s, s.consumers[who].batch), who, Idle)
    case Bury(who) =>
      At(s.(deadLetters := s.deadLetters + s.consumers[who].dead), who, Buried(s.consumers[who].batch))
    case BuryPartly(who, some) => At(s.(deadLetters := s.deadLetters + some), who, Idle)
    case Acknowledge(who) => At(s.(stream := s.stream - Ids(s.consumers[who].batch)), who, Idle)
    case AcknowledgePartly(who, some) => At(s.(stream := s.stream - some), who, Idle)
    case Fail(who) => At(s, who, Idle)
    case Gone(who) => s.(consumers := s.consumers - {who})
  }

  ghost predicate Init(s: Shard, start: DB) {
    && s.stream == map[] && s.origin == map[] && s.deadLetters == {} && s.effects == []
    && s.db == start && s.lease == None && s.consumers == map[]
  }

  // ---------------------------------------------------------------------------
  // Nothing is lost
  // ---------------------------------------------------------------------------

  /** An entry is settled once its record is in the database or it is dead-lettered. */
  predicate Settled(s: Shard, id: EntryId) {
    id in CommittedIds(s.effects) || id in s.deadLetters
  }

  ghost predicate PhaseInv(s: Shard, p: Phase) {
    match p
    case Idle => true
    case Stopped => true
    case Read(batch) => Genuine(s, batch)
    case Checked(batch) => Genuine(s, batch)
    case Applied(batch, dead) => Genuine(s, batch) && forall id :: id in Ids(batch) ==> Settled(s, id) || id in dead
    case Buried(batch) => Genuine(s, batch) && forall id :: id in Ids(batch) ==> Settled(s, id)
  }

  ghost predicate Genuine(s: Shard, batch: seq<Entry>) {
    forall e :: e in batch ==> e.id in s.origin && s.origin[e.id] == e.payload
  }

  ghost predicate StreamInv(s: Shard) {
    && s.stream.Keys <= s.origin.Keys
    && (forall id :: id in s.stream ==> s.stream[id] == s.origin[id])
    && (forall id :: id in s.origin && id !in s.stream ==> Settled(s, id))
  }

  /** The database is what its recorded effects make of the initial one. */
  ghost predicate AccountInv(s: Shard, start: DB) {
    Sound(s.effects) && Faithful(s.effects, s.origin) && s.db == Replay(start, s.effects)
  }

  ghost predicate Inv(s: Shard, start: DB) {
    && StreamInv(s) && AccountInv(s, start)
    && (forall who :: who in s.consumers ==> PhaseInv(s, s.consumers[who]))
  }

  lemma CommittedGrow(effects: seq<Effect>, f: Effect)
    ensures CommittedIds(effects + [f]) == CommittedIds(effects) + if f.Commit? then Ids(f.entries) else {}
  {
    assert (effects + [f])[..|effects|] == effects;
  }

  /** Recording one more effect keeps the account of the database right. */
  lemma EffectKeepsAccount(s: Shard, start: DB, f: Effect)
    requires AccountInv(s, start)
    requires f.Commit? ==> AllGood(f.entries) && Genuine(s, f.entries)
    ensures var effects := s.effects + [f];
            Sound(effects) && Faithful(effects, s.origin) && Act(s.db, f) == Replay(start, effects)
  {
    var effects := s.effects + [f];
    assert effects[..|s.effects|] == s.effects;
    forall i, e | 0 <= i < |effects| && effects[i].Commit? && e in effects[i].entries
      ensures e.id in s.origin && s.origin[e.id] == e.payload
    {
      if i < |s.effects| { assert effects[i] == s.effects[i]; }
    }
  }

  lemma CommitSettles(s: Shard, start: DB, batch: seq<Entry>)
    requires AccountInv(s, start)
    requires Genuine(s, batch)
    ensures var s' := Committed(s, batch);
            && Sound(s'.effects) && Faithful(s'.effects, s.origin) && s'.db == Replay(start, s'.effects)
            && CommittedIds(s.effects) <= CommittedIds(s'.effects)
            && forall id :: id in Ids(batch) ==>
                 id in CommittedIds(s'.effects) || id in DeadIds(s.limits, s.clock, batch)
  {
    var kept := Kept(s.limits, s.clock, batch);
    KeptAreGood(s.limits, s.clock, batch);
    if kept != [] {
      EffectKeepsAccount(s, start, Commit(kept));
      CommittedGrow(s.effects, Commit(kept));
    }
    forall id | id in Ids(batch)
      ensures id in CommittedIds(Committed(s, batch).effects) || id in DeadIds(s.limits, s.clock, batch)
    {
      var e :| e in batch && e.id == id;
      if Keeps(s.limits, s.clock, e) { assert e in kept; assert id in Ids(kept); }
    }
  }

  /** Facts about the past only accumulate. */
  lemma PhaseSurvives(s: Shard, s': Shard, p: Phase)
    requires PhaseInv(s, p)
    requires forall id :: id in s.origin ==> id in s'.origin && s'.origin[id] == s.origin[id]
    requires CommittedIds(s.effects) <= CommittedIds(s'.effects) && s.deadLetters <= s'.deadLetters
    ensures PhaseInv(s', p)
  {
  }

  lemma StepKeepsAccount(s: Shard, start: DB, a: Action)
    requires Inv(s, start) && Enabled(s, a)
    ensures AccountInv(Next(s, a), start)
    ensures CommittedIds(s.effects) <= CommittedIds(Next(s, a).effects)
  {
    match a {
      case Elsewhere(op) =>
        EffectKeepsAccount(s, start, Other(op));
        CommittedGrow(s.effects, Other(op));
      case CommitBatch(who) => CommitSettles(s, start, s.consumers[who].batch);
      case CommitUnseen(who) => CommitSettles(s, start, s.consumers[who].batch);
      case Add(id, payload) =>
        forall i, e | 0 <= i < |s.effects| && s.effects[i].Commit? && e in s.effects[i].entries
          ensures e.id in s.origin && e.id != id {}
      case _ =>
    }
  }

  /** What the committing consumer knows: every entry is committed or on its way to the
      dead letters. */
  lemma CommitKeepsPhase(s: Shard, start: DB, who: Reader)
    requires AccountInv(s, start) && Enabled(s, CommitBatch(who)) && PhaseInv(s, s.consumers[who])
    ensures PhaseInv(Next(s, CommitBatch(who)), Next(s, CommitBatch(who)).consumers[who])
  {
    CommitSettles(s, start, s.consumers[who].batch);
  }

  /** What the acting consumer knows after any other step. */
  lemma ActorKeepsPhase(s: Shard, a: Action, who: Reader)
    requires StreamInv(s) && Enabled(s, a) && !a.CommitBatch? && who in Next(s, a).consumers
    requires who in s.consumers ==> PhaseInv(s, s.consumers[who])
    requires who !in s.consumers || Next(s, a).consumers[who] != s.consumers[who]
    ensures PhaseInv(Next(s, a), Next(s, a).consumers[who])
  {
  }

  /** Acknowledging drops only settled entries. */
  lemma AcknowledgeKeepsStream(s: Shard, ids: set<EntryId>, s': Shard)
    requires StreamInv(s) && (forall id :: id in ids ==> Settled(s, id))
    requires s'.stream == s.stream - ids && s'.origin == s.origin
    requires s'.effects == s.effects && s'.deadLetters == s.deadLetters
    ensures StreamInv(s')
  {
    forall id | id in s'.origin && id !in s'.stream ensures Settled(s', id) {
      assert Settled(s, id);
    }
  }

  /** Steps that leave the stream alone cannot unsettle what has left it. */
  lemma QuietKeepsStream(s: Shard, s': Shard)
    requires StreamInv(s) && s'.stream == s.stream && s'.origin == s.origin
    requires CommittedIds(s.effects) <= CommittedIds(s'.effects) && s.deadLetters <= s'.deadLetters
    ensures StreamInv(s')
  {
    forall id | id in s'.origin && id !in s'.stream ensures Settled(s', id) {
      assert Settled(s, id);
    }
  }

  lemma AddKeepsStream(s: Shard, id: EntryId, payload: Payload)
    requires StreamInv(s) && id !in s.origin
    ensures StreamInv(Next(s, Add(id, payload)))
  {
    var s' := Next(s, Add(id, payload));
    forall x | x in s'.origin && x !in s'.stream ensures Settled(s', x) {
      assert Settled(s, x);
    }
  }

  predicate Acknowledges(a: Action) {
    a.Acknowledge? || a.AcknowledgePartly?
  }

  lemma StreamIsLeftAlone(s: Shard, a: Action)
    requires Enabled(s, a) && !a.Add? && !Acknowledges(a)
    ensures Next(s, a).stream == s.stream && Next(s, a).origin == s.origin
    ensures s.deadLetters <= Next(s, a).deadLetters
  {
  }

  lemma AcknowledgeStep(s: Shard, a: Action)
    requires StreamInv(s) && Enabled(s, a) && Acknowledges(a) && PhaseInv(s, s.consumers[a.who])
    ensures StreamInv(Next(s, a))
  {
    var ids := if a.Acknowledge? then Ids(s.consumers[a.who].batch) else a.some;
    AcknowledgeKeepsStream(s, ids, Next(s, a));
  }

  lemma StepKeepsStream(s: Shard, start: DB, a: Action)
    requires Inv(s, start) && Enabled(s, a)
    requires CommittedIds(s.effects) <= CommittedIds(Next(s, a).effects)
    ensures StreamInv(Next(s, a))
  {
    if a.Add? {
      AddKeepsStream(s, a.id, a.payload);
    } else if Acknowledges(a) {
      AcknowledgeStep(s, a);
    } else {
      StreamIsLeftAlone(s, a);
      QuietKeepsStream(s, Next(s, a));
    }
  }

  lemma PastAccumulates(s: Shard, a: Action)
    requires Enabled(s, a)
    ensures forall id :: id in s.origin ==> id in Next(s, a).origin && Next(s, a).origin[id] == s.origin[id]
    ensures s.deadLetters <= Next(s, a).deadLetters
  {
  }

  lemma StepKeepsInv(s: Shard, start: DB, a: Action)
    requires Inv(s, start) && Enabled(s, a)
    ensures Inv(Next(s, a), start)
  {
    StepKeepsAccount(s, start, a);
    StepKeepsStream(s, start, a);
    StepKeepsPhases(s, start, a);
  }

  lemma StepKeepsPhases(s: Shard, start: DB, a: Action)
    requires Inv(s, start) && Enabled(s, a)
    requires CommittedIds(s.effects) <= CommittedIds(Next(s, a).effects)
    ensures forall who :: who in Next(s, a).consumers ==> PhaseInv(Next(s, a), Next(s, a).consumers[who])
  {
    PastAccumulates(s, a);
    var s' := Next(s, a);
    forall who | who in s'.consumers ensures PhaseInv(s', s'.consumers[who]) {
      if who in s.consumers && s'.consumers[who] == s.consumers[who] {
        PhaseSurvives(s, s', s.consumers[who]);
      } else {
        if a.CommitBatch? { CommitKeepsPhase(s, start, who); } else { ActorKeepsPhase(s, a, who); }
      }
    }
  }

  ghost predicate Run(states: seq<Shard>, actions: seq<Action>, start: DB) {
    && |states| == |actions| + 1
    && Init(states[0], start)
    && forall i :: 0 <= i < |actions| ==> Enabled(states[i], actions[i]) && states[i + 1] == Next(states[i], actions[i])
  }

  lemma {:induction false} RunKeepsInv(states: seq<Shard>, actions: seq<Action>, start: DB, k: nat)
    requires Run(states, actions, start) && k < |states|
    ensures Inv(states[k], start)
  {
    if k > 0 {
      RunKeepsInv(states, actions, start, k - 1);
      assert Enabled(states[k - 1], actions[k - 1]) && states[k] == Next(states[k - 1], actions[k - 1]);
      StepKeepsInv(states[k - 1], start, actions[k - 1]);
    }
  }

  /** Every run, with crashes between any two steps and any number of owners at once: an
      entry that has left the stream was committed or dead-lettered, and the database reads
      as if every committed entry had been applied exactly once. */
  lemma DeliveryTheorem(states: seq<Shard>, actions: seq<Action>, start: DB, k: nat)
    requires Run(states, actions, start) && k < |states|
    ensures forall id :: id in states[k].origin && id !in states[k].stream ==> Settled(states[k], id)
    ensures Sound(Once(states[k].effects))
    ensures SameEffects(states[k].db, Replay(start, Once(states[k].effects)))
    ensures Apart(Once(states[k].effects)) && CommittedIds(Once(states[k].effects)) == CommittedIds(states[k].effects)
  {
    RunKeepsInv(states, actions, start, k);
    OnceIsOnce(states[k].effects);
    ExactlyOnceEffects(start, states[k].effects, states[k].origin);
  }

  // ---------------------------------------------------------------------------
  // The lease
  // ---------------------------------------------------------------------------

  ghost predicate Segment(states: seq<Shard>, actions: seq<Action>) {
    && |states| == |actions| + 1
    && forall i :: 0 <= i < |actions| ==> Enabled(states[i], actions[i]) && states[i + 1] == Next(states[i], actions[i])
  }

  /** Whether an action is a replica's doing on the lease. */
  predicate TouchesLease(a: Action, r: Replica) {
    match a
    case Acquire(who, _) => who.owner == r
    case Check(who, _) => who.owner == r
    case Renew(owner, _) => owner == r
    case Release(owner) => owner == r
    case _ => false
  }

  lemma StepKeepsLease(s: Shard, a: Action, r: Replica)
    requires Enabled(s, a) && Holder(s) == Some(r) && !TouchesLease(a, r)
    ensures Next(s, a).lease == s.lease && Next(s, a).clock >= s.clock
  {
  }

  /** A lease stands until its holder acts on it or it expires: over any stretch of a run in
      which its holder does neither renew nor release it, whatever the other replicas try, it
      is the same lease at every point before its expiry. */
  lemma {:induction false} LeaseStands(states: seq<Shard>, actions: seq<Action>, r: Replica, k: nat)
    requires Segment(states, actions) && k < |states| && Holder(states[0]) == Some(r)
    requires forall i :: 0 <= i < k ==> !TouchesLease(actions[i], r)
    requires states[k].clock < states[0].lease.value.expiry
    ensures states[k].lease == states[0].lease && Holder(states[k]) == Some(r)
  {
    if k > 0 {
      assert Enabled(states[k - 1], actions[k - 1]) && states[k] == Next(states[k - 1], actions[k - 1]);
      LeaseStands(states, actions, r, k - 1);
      StepKeepsLease(states[k - 1], actions[k - 1], r);
    }
  }

  predicate CommitOf(a: Action, who: Reader) {
    a == CommitBatch(who) || a == CommitUnseen(who)
  }

  predicate PastCheck(s: Shard, who: Reader) {
    who in s.consumers && s.consumers[who].Checked?
  }

  function Commits(actions: seq<Action>, who: Reader): nat {
    if actions == [] then 0 else Commits(actions[..|actions| - 1], who) + One(CommitOf(actions[|actions| - 1], who))
  }

  lemma StepWithoutLease(s: Shard, a: Action, who: Reader)
    requires Enabled(s, a) && Holder(s) != Some(who.owner) && Holder(Next(s, a)) != Some(who.owner)
    ensures One(CommitOf(a, who)) + One(PastCheck(Next(s, a), who)) <= One(PastCheck(s, who))
  {
  }

  /** While a lease is not its owner's, a consumer commits at most the one batch whose lease
      check had already succeeded. */
  lemma {:induction false} OneLastBatch(states: seq<Shard>, actions: seq<Action>, who: Reader)
    requires Segment(states, actions)
    requires forall i :: 0 <= i < |states| ==> Holder(states[i]) != Some(who.owner)
    ensures Commits(actions, who) + One(PastCheck(states[|actions|], who)) <= One(PastCheck(states[0], who))
  {
    if actions != [] {
      var k := |actions| - 1;
      OneLastBatch(states[..k + 1], actions[..k], who);
      assert Enabled(states[k], actions[k]) && states[k + 1] == Next(states[k], actions[k]);
      StepWithoutLease(states[k], actions[k], who);
    }
  }
}
