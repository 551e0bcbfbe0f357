/** What the shard protocol gets done: batches are handled to the end, entries are judged by
    their own merits, and a lease that is renewed in time is kept. */
module ShardHistory {
  import opened Options
  import opened Sets
  import opened Geofence
  import opened Delivery
  import opened ShardProtocol

  // ---------------------------------------------------------------------------
  // Progress
  // ---------------------------------------------------------------------------

  /** A replica that holds the lease and meets no failure handles what it reads: everything
      storable is committed, everything else dead-lettered, all of it leaves the stream and
      nothing else does. */
  lemma BatchIsHandled(s: Shard, who: Reader, ids: seq<EntryId>, until: int)
    requires Enabled(s, ReadBatch(who, ids)) && Holder(s) == Some(who.owner) && until > s.clock
    ensures var read := Next(s, ReadBatch(who, ids));
            && Enabled(read, Check(who, until))
            && var checked := Next(read, Check(who, until));
               && Enabled(checked, CommitBatch(who))
               && var applied := Next(checked, CommitBatch(who));
                  && Enabled(applied, Bury(who))
                  && var buried := Next(applied, Bury(who));
                     && Enabled(buried, Acknowledge(who))
                     && Handled(s, Next(buried, Acknowledge(who)), who, until, ids)
  {
    var read := Next(s, ReadBatch(who, ids));
    assert read.consumers[who].batch == Entries(s.stream, ids);
    CheckedIsHandled(read, who, until);
    EntriesHaveIds(s.stream, ids);
  }

  lemma EntriesHaveIds(stream: map<EntryId, Payload>, ids: seq<EntryId>)
    requires forall i :: 0 <= i < |ids| ==> ids[i] in stream
    ensures Ids(Entries(stream, ids)) == Members(ids)
    ensures forall id :: id in ids ==> id in stream && Entry(id, stream[id]) in Entries(stream, ids)
  {
    var entries := Entries(stream, ids);
    forall id | id in ids ensures id in stream && Entry(id, stream[id]) in entries && id in Ids(entries) {
      var i :| 0 <= i < |ids| && ids[i] == id;
      assert entries[i] == Entry(id, stream[id]);
      assert entries[i] in entries;
    }
  }

  lemma CheckedIsHandled(s: Shard, who: Reader, until: int)
    requires Enabled(s, Check(who, until)) && Holder(s) == Some(who.owner)
    ensures var batch := s.consumers[who].batch;
            var checked := Next(s, Check(who, until));
            && Enabled(checked, CommitBatch(who))
            && var applied := Next(checked, CommitBatch(who));
               && Enabled(applied, Bury(who))
               && var buried := Next(applied, Bury(who));
                  && Enabled(buried, Acknowledge(who))
                  && var s' := Next(buried, Acknowledge(who));
                     && Done(s, s', who, batch) && s'.lease == Some(Lease(who.owner, until))
  {
    var checked := Next(s, Check(who, until));
    CommitIsHandled(checked, who);
  }

  /** From a passed lease check to the acknowledgement. */
  lemma CommitIsHandled(s: Shard, who: Reader)
    requires Enabled(s, CommitBatch(who)) && s.lease.Some?
    ensures var batch := s.consumers[who].batch;
            var applied := Next(s, CommitBatch(who));
            && Enabled(applied, Bury(who))
            && var buried := Next(applied, Bury(who));
               && Enabled(buried, Acknowledge(who))
               && var s' := Next(buried, Acknowledge(who));
                  && s'.lease == s.lease && Done(s, s', who, batch)
  {
    var batch := s.consumers[who].batch;
    CommitCovers(s, batch);
  }

  /** What a commit writes, and what it leaves to the dead letters. */
  lemma CommitCovers(s: Shard, batch: seq<Entry>)
    ensures var s' := Committed(s, batch);
            && s'.stream == s.stream && s'.origin == s.origin && s'.deadLetters == s.deadLetters
            && s'.lease == s.lease && s'.consumers == s.consumers && s'.clock == s.clock && s'.limits == s.limits
    ensures forall e :: e in batch ==>
              if Keeps(s.limits, s.clock, e) then e.id in CommittedIds(Committed(s, batch).effects)
              else e.id in DeadIds(s.limits, s.clock, batch)
  {
    var kept := Kept(s.limits, s.clock, batch);
    KeptAreGood(s.limits, s.clock, batch);
    CommittedGrow(s.effects, Commit(kept));
    forall e | e in batch && Keeps(s.limits, s.clock, e) ensures e.id in Ids(kept) { assert e in kept; }
  }

  ghost predicate Done(s: Shard, s': Shard, who: Reader, batch: seq<Entry>) {
    && s'.stream == s.stream - Ids(batch) && s'.origin == s.origin
    && (forall e :: e in batch ==>
          if Keeps(s.limits, s.clock, e) then e.id in CommittedIds(s'.effects) else e.id in s'.deadLetters)
    && who in s'.consumers && s'.consumers[who] == Idle
  }

  ghost predicate Handled(s: Shard, s': Shard, who: Reader, until: int, ids: seq<EntryId>) {
    && s'.stream == s.stream - Members(ids) && s'.origin == s.origin
    && (forall id :: id in ids && id in s.stream ==>
          if Keeps(s.limits, s.clock, Entry(id, s.stream[id])) then id in CommittedIds(s'.effects)
          else id in s'.deadLetters)
    && who in s'.consumers && s'.consumers[who] == Idle
    && s'.lease == Some(Lease(who.owner, until))
  }

  /** Without the lease it stops instead, and leaves everything as it was. */
  lemma LosersStop(s: Shard, who: Reader, until: int)
    requires Enabled(s, Check(who, until)) && Holder(s) != Some(who.owner)
    ensures Next(s, Check(who, until)) == s.(consumers := s.consumers[who := Stopped])
  {
  }

  // ---------------------------------------------------------------------------
  // Judgement
  // ---------------------------------------------------------------------------

  /** At some moment so far the entry was, or was not, fit to be stored. */
  ghost predicate Judged(s: Shard, id: EntryId, fit: bool) {
    && id in s.origin
    && exists t :: t <= s.clock && Keeps(s.limits, t, Entry(id, s.origin[id])) == fit
  }

  ghost predicate Fair(s: Shard) {
    && (forall id :: id in s.deadLetters ==> Judged(s, id, false))
    && (forall id :: id in CommittedIds(s.effects) ==> Judged(s, id, true))
    && (forall who :: who in s.consumers && s.consumers[who].Applied? ==>
          forall id :: id in s.consumers[who].dead ==> Judged(s, id, false))
  }

  /** Time passes and entries are added; no judgement is undone. */
  lemma JudgedStands(s: Shard, s': Shard, id: EntryId, fit: bool)
    requires Judged(s, id, fit) && s.clock <= s'.clock && s'.limits == s.limits
    requires id in s'.origin && s'.origin[id] == s.origin[id]
    ensures Judged(s', id, fit)
  {
    var t :| t <= s.clock && Keeps(s.limits, t, Entry(id, s.origin[id])) == fit;
    assert Keeps(s'.limits, t, Entry(id, s'.origin[id])) == fit;
  }

  lemma BatchIsJudged(s: Shard, batch: seq<Entry>)
    requires Genuine(s, batch)
    ensures forall id :: id in DeadIds(s.limits, s.clock, batch) ==> Judged(s, id, false)
    ensures forall id :: id in Ids(Kept(s.limits, s.clock, batch)) ==> Judged(s, id, true)
  {
    forall id | id in DeadIds(s.limits, s.clock, batch) ensures Judged(s, id, false) {
      var e :| e in batch && !Keeps(s.limits, s.clock, e) && e.id == id;
      assert e == Entry(id, s.origin[id]);
    }
    forall id | id in Ids(Kept(s.limits, s.clock, batch)) ensures Judged(s, id, true) {
      var e :| e in Kept(s.limits, s.clock, batch) && e.id == id;
      assert e == Entry(id, s.origin[id]) && Keeps(s.limits, s.clock, e);
    }
  }

  lemma StepIsForward(s: Shard, a: Action)
    requires Enabled(s, a)
    ensures s.clock <= Next(s, a).clock && Next(s, a).limits == s.limits
    ensures forall id :: id in s.origin ==> id in Next(s, a).origin && Next(s, a).origin[id] == s.origin[id]
  {
  }

  lemma CommitIsFair(s: Shard, batch: seq<Entry>)
    requires Fair(s) && Genuine(s, batch)
    ensures forall id :: id in CommittedIds(Committed(s, batch).effects) ==> Judged(s, id, true)
  {
    KeptAreGood(s.limits, s.clock, batch);
    CommittedGrow(s.effects, Commit(Kept(s.limits, s.clock, batch)));
    BatchIsJudged(s, batch);
  }

  /** What a step newly commits, dead-letters or marks for it was judged before the step. */
  lemma NewlyJudged(s: Shard, start: DB, a: Action)
    requires Inv(s, start) && Fair(s) && Enabled(s, a)
    ensures var s' := Next(s, a);
            && (forall id :: id in s'.deadLetters ==> Judged(s, id, false))
            && (forall id :: id in CommittedIds(s'.effects) ==> Judged(s, id, true))
            && (forall who :: who in s'.consumers && s'.consumers[who].Applied? ==>
                  forall id :: id in s'.consumers[who].dead ==> Judged(s, id, false))
  {
    if a.CommitBatch? || a.CommitUnseen? {
      assert PhaseInv(s, s.consumers[a.who]);
      CommitIsFair(s, s.consumers[a.who].batch);
      BatchIsJudged(s, s.consumers[a.who].batch);
    } else if a.Elsewhere? {
      CommittedGrow(s.effects, Other(a.op));
    }
  }

  lemma StepKeepsFair(s: Shard, start: DB, a: Action)
    requires Inv(s, start) && Fair(s) && Enabled(s, a)
    ensures Fair(Next(s, a))
  {
    var s' := Next(s, a);
    NewlyJudged(s, start, a);
    StepIsForward(s, a);
    forall id, fit | Judged(s, id, fit) ensures Judged(s', id, fit) { JudgedStands(s, s', id, fit); }
  }

  /** Every run: an entry is dead-lettered only if it could not be stored at some moment so far,
      and committed only if it could. */
  lemma {:induction false} EntriesAreJudgedFairly(states: seq<Shard>, actions: seq<Action>, start: DB, k: nat)
    requires Run(states, actions, start) && k < |states|
    ensures Fair(states[k])
  {
    if k > 0 {
      EntriesAreJudgedFairly(states, actions, start, k - 1);
      RunKeepsInv(states, actions, start, k - 1);
      assert Enabled(states[k - 1], actions[k - 1]) && states[k] == Next(states[k - 1], actions[k - 1]);
      StepKeepsFair(states[k - 1], start, actions[k - 1]);
    }
  }

  // ---------------------------------------------------------------------------
  // Leases
  // ---------------------------------------------------------------------------

  /** The clock never reaches the lease's expiry, and its holder does not give it up. */
  ghost predicate KeptUp(s: Shard, a: Action, r: Replica) {
    && (s.lease.Some? && a.Pass? ==> a.time < s.lease.value.expiry)
    && a != Release(r)
  }

  /** A lease renewed in time is kept, and each renewal moves its expiry to where it asked. */
  lemma {:induction false} RenewedLeaseIsKept(states: seq<Shard>, actions: seq<Action>, r: Replica, k: nat)
    requires Segment(states, actions) && k < |states| && Holder(states[0]) == Some(r)
    requires forall i :: 0 <= i < |actions| ==> KeptUp(states[i], actions[i], r)
    ensures Holder(states[k]) == Some(r)
    ensures k > 0 && (actions[k - 1].Renew? && actions[k - 1].owner == r) ==>
              states[k].lease == Some(Lease(r, actions[k - 1].until))
  {
    if k > 0 {
      var a := actions[k - 1];
      assert Enabled(states[k - 1], a) && states[k] == Next(states[k - 1], a) && KeptUp(states[k - 1], a, r);
      RenewedLeaseIsKept(states, actions, r, k - 1);
    }
  }

  /** A lease nobody holds goes to the first to ask, a released one is free at once, and one that
      is not renewed is free from its expiry on. */
  lemma LeaseChangesHands(s: Shard, who: Reader, until: int, later: int)
    requires Enabled(s, Acquire(who, until)) && later >= until
    ensures Holder(Next(s, Acquire(who, until))) == Some(who.owner)
    ensures Holder(Next(Next(s, Acquire(who, until)), Release(who.owner))) == None
    ensures Holder(Next(Next(s, Acquire(who, until)), Pass(later))) == None
  {
  }
}
