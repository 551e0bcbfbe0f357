/** A replica's own books: which shards it consumes, which it is winding down, and where
    its control task stands. Every method runs from one await to the next. */
module ProcessorControl {
  import opened FairShare

  /** The control task between two awaits. */
  datatype Control =
    | Resting
    | Heartbeating(owned: set<nat>)
    | Acquiring(shard: nat, rest: seq<nat>, target: nat)

  predicate Distinct(s: seq<nat>) {
    forall i, j :: 0 <= i < j < |s| ==> s[i] != s[j]
  }

  lemma RingStep(shards: nat, rotation: nat, step: nat)
    requires rotation < shards && step < shards
    ensures (rotation + step) % shards == if rotation + step < shards then rotation + step else rotation + step - shards
  {
    if rotation + step >= shards { WrapOnce(rotation + step - shards, shards); }
  }

  lemma RingDistinct(shards: nat, rotation: nat)
    requires rotation < shards
    ensures Distinct(Ring(shards, rotation))
  {
    forall i, j | 0 <= i < j < shards ensures Ring(shards, rotation)[i] != Ring(shards, rotation)[j] {
      RingStep(shards, rotation, i);
      RingStep(shards, rotation, j);
    }
  }

  lemma {:induction false} UnownedDistinct(order: seq<nat>, owned: set<nat>)
    requires Distinct(order)
    ensures Distinct(Unowned(order, owned))
  {
    if order != [] {
      var init := order[..|order| - 1];
      UnownedDistinct(init, owned);
      UnownedAre(init, owned);
      forall i | 0 <= i < |Unowned(init, owned)| ensures Unowned(init, owned)[i] != order[|order| - 1] {
        assert Unowned(init, owned)[i] in init;
      }
    }
  }

  /** Candidate `i` is the first that is not still winding down here. */
  ghost predicate FirstFree(candidates: seq<nat>, i: nat, busy: set<nat>) {
    i < |candidates| && candidates[i] !in busy && forall k :: 0 <= k < i ==> candidates[k] in busy
  }

  /** Where a walk down the candidates stands: it asks for the first free one and keeps the rest
      for later, or rests, with its share full or nothing left to ask for. */
  ghost predicate Tries(control: Control, candidates: seq<nat>, target: nat, held: nat, busy: set<nat>) {
    if held >= target || forall x :: x in candidates ==> x in busy then control == Resting
    else exists i: nat :: FirstFree(candidates, i, busy)
                          && control == Acquiring(candidates[i], candidates[i + 1..], target)
  }

  /** Of the listed shards the running ones now wind down, to be released at the end; every
      other one winds down as before. */
  ghost predicate Drained(running: set<nat>, before: map<nat, bool>, list: seq<nat>, after: map<nat, bool>) {
    && after.Keys == before.Keys + (set x | x in list && x in running)
    && forall x :: x in after ==> after[x] == if x in before then before[x] else true
  }

  class ProcessorService {
    const shards: nat
    const offset: nat
    var consumers: set<nat>
    var draining: map<nat, bool>   // shard -> whether to release its lease at the end
    var control: Control

    ghost predicate Valid()
      reads this
    {
      && consumers !! draining.Keys
      && match control
         case Resting => true
         case Heartbeating(owned) => consumers <= owned
         case Acquiring(shard, rest, target) =>
           && shard !in consumers && shard !in draining
           && Distinct([shard] + rest)
           && forall x :: x in rest ==> x !in consumers
    }

    constructor (shards: nat, offset: nat)
      ensures Valid() && consumers == {} && draining == map[] && control == Resting
      ensures this.shards == shards && this.offset == offset
    {
      this.shards, this.offset := shards, offset;
      consumers, draining, control := {}, map[], Resting;
    }

    /** Take a shard out of service; its consumer winds down by itself. */
    method BeginDrain(shard: nat, release: bool)
      requires Valid()
      modifies this`consumers, this`draining
      ensures Valid()
      ensures consumers == old(consumers) - {shard}
      ensures draining == if shard in old(consumers) then old(draining)[shard := release] else old(draining)
    {
      if shard !in consumers {
        return;
      }
      consumers := consumers - {shard};
      draining := draining[shard := release];
    }

    method DrainEach(list: seq<nat>, release: bool)
      requires Valid()
      modifies this`consumers, this`draining
      ensures Valid()
      ensures consumers == old(consumers) - (set x | x in list)
      ensures draining.Keys == old(draining).Keys + (set x | x in list && x in old(consumers))
      ensures forall x :: x in draining ==> draining[x] == if x in old(draining) then old(draining)[x] else release
    {
      for i := 0 to |list|
        invariant Valid()
        invariant consumers == old(consumers) - (set x | x in list[..i])
        invariant draining.Keys == old(draining).Keys + (set x | x in list[..i] && x in old(consumers))
        invariant forall x :: x in draining ==> draining[x] == if x in old(draining) then old(draining)[x] else release
      {
        assert list[..i + 1] == list[..i] + [list[i]];
        BeginDrain(list[i], release);
      }
      assert list[..|list|] == list;
    }

    /** A round begins: give back what stopped on its own, then announce this replica. */
    method StartRound(finished: seq<nat>)
      requires Valid() && control.Resting?
      modifies this
      ensures Valid()
      ensures consumers == old(consumers) - (set x | x in finished)
      ensures Drained(old(consumers), old(draining), finished, draining)
      ensures control == Heartbeating(consumers)
    {
      DrainEach(finished, true);
      control := Heartbeating(consumers);
    }

    /** The heartbeat answered: hand back the surplus, then start on the candidates. */
    method HeartbeatReply(live: nat)
      requires Valid() && control.Heartbeating?
      modifies this
      ensures Valid()
      ensures var plan := FairSharePlan(shards, old(control).owned, live, offset);
              && consumers == old(consumers) - (set x | x in plan.release)
              && Drained(old(consumers), old(draining), plan.release, draining)
              && Tries(control, plan.candidates, plan.target, |consumers|, draining.Keys)
    {
      var owned := control.owned;
      var plan := FairSharePlan(shards, owned, live, offset);
      forall x | x in plan.candidates ensures x !in owned {
        PlanOffers(shards, owned, live, offset, x);
      }
      if plan.candidates != [] {
        RingDistinct(shards, offset % shards);
        UnownedDistinct(Ring(shards, offset % shards), owned);
      }
      control := Resting;
      DrainEach(plan.release, true);
      TryNext(plan.candidates, plan.target);
    }

    /** Ask for the next candidate that is not still winding down here. */
    method TryNext(candidates: seq<nat>, target: nat)
      requires Valid() && Distinct(candidates) && forall x :: x in candidates ==> x !in consumers
      modifies this`control
      ensures Valid()
      ensures Tries(control, candidates, target, |consumers|, draining.Keys)
    {
      control := Resting;
      var i := 0;
      while i < |candidates| && |consumers| < target
        invariant Valid() && control.Resting? && 0 <= i <= |candidates|
        invariant forall k :: 0 <= k < i ==> candidates[k] in draining
      {
        if candidates[i] !in draining {
          assert [candidates[i]] + candidates[i + 1..] == candidates[i..];
          control := Acquiring(candidates[i], candidates[i + 1..], target);
          assert FirstFree(candidates, i, draining.Keys);
          return;
        }
        i := i + 1;
      }
    }

    /** The lease answered. */
    method AcquireReply(taken: bool)
      requires Valid() && control.Acquiring?
      modifies this
      ensures Valid()
      ensures consumers == old(consumers) + (if taken then {old(control).shard} else {})
      ensures draining == old(draining)
      ensures Tries(control, old(control).rest, old(control).target, |consumers|, draining.Keys)
    {
      var shard, rest, target := control.shard, control.rest, control.target;
      assert ([shard] + rest)[0] == shard;
      forall k | 0 <= k < |rest| ensures rest[k] != shard { assert ([shard] + rest)[k + 1] == rest[k]; }
      forall i, j | 0 <= i < j < |rest| ensures rest[i] != rest[j] {
        assert ([shard] + rest)[i + 1] == rest[i] && ([shard] + rest)[j + 1] == rest[j];
      }
      control := Resting;
      if taken {
        consumers := consumers + {shard};
      }
      TryNext(rest, target);
    }

    /** Redis failed at the heartbeat or at a lease: the round ends where it is, with what was
        taken so far running, and the next one starts over. */
    method RoundFailed()
      requires Valid() && !control.Resting?
      modifies this`control
      ensures Valid() && control.Resting?
    {
      control := Resting;
    }

    /** The renewals answered: a lost lease is not this replica's to release. */
    method RenewReply(lost: seq<nat>)
      requires Valid()
      modifies this`consumers, this`draining
      ensures Valid()
      ensures consumers == old(consumers) - (set x | x in lost)
      ensures draining.Keys == old(draining).Keys + (set x | x in lost && x in old(consumers))
      ensures forall x :: x in draining ==>
                draining[x] == (x !in lost && x in old(draining) && old(draining)[x])
    {
      for i := 0 to |lost|
        invariant Valid()
        invariant consumers == old(consumers) - (set x | x in lost[..i])
        invariant draining.Keys == old(draining).Keys + (set x | x in lost[..i] && x in old(consumers))
        invariant forall x :: x in draining ==>
                    draining[x] == (x !in lost[..i] && x in old(draining) && old(draining)[x])
      {
        assert lost[..i + 1] == lost[..i] + [lost[i]];
        if lost[i] in draining {
          draining := draining[lost[i] := false];
        } else {
          BeginDrain(lost[i], false);
        }
      }
      assert lost[..|lost|] == lost;
    }

    /** A consumer has wound down; the lease goes back only if it is still ours. */
    method DrainFinished(shard: nat) returns (release: bool)
      requires Valid()
      modifies this`draining
      ensures Valid() && draining == old(draining) - {shard}
      ensures release == (shard in old(draining) && old(draining)[shard])
    {
      release := shard in draining && draining[shard];
      draining := draining - {shard};
    }
  }
}
