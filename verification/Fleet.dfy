/** A fleet of replicas that agree on how many they are: rebalancing always ends, and it
    ends only with every shard owned and nobody above its share. */
module Fleet {
  import opened Sets
  import opened FairShare

  /** Where a shard's lease is; one place per shard, so leases never overlap. */
  datatype Place = Free | Owned(owner: nat) | Draining(owner: nat)

  type Fleet = seq<Place>

  function OwnedBy(f: Fleet, r: nat): set<nat> {
    set s | 0 <= s < |f| && f[s] == Owned(r)
  }

  /** The plan of replica `r`, made against the leases it holds now. */
  function PlanOf(f: Fleet, live: nat, offsets: nat -> nat, r: nat): Plan {
    FairSharePlan(|f|, OwnedBy(f, r), live, offsets(r))
  }

  /** Replicas are numbered below `live`; a lease of any other belongs to one that is gone, and
      nobody renews it. */
  datatype Move = BeginDrain(r: nat, s: nat) | FinishDrain(s: nat) | Acquire(r: nat, s: nat) | Expire(s: nat)

  predicate Enabled(f: Fleet, live: nat, offsets: nat -> nat, m: Move) {
    match m
    case BeginDrain(r, s) => r < live && s in PlanOf(f, live, offsets, r).release
    case FinishDrain(s) => s < |f| && f[s].Draining?
    case Acquire(r, s) => r < live && s < |f| && f[s].Free? && s in PlanOf(f, live, offsets, r).candidates
    case Expire(s) => s < |f| && f[s].Owned? && f[s].owner >= live
  }

  lemma MovesInRange(f: Fleet, live: nat, offsets: nat -> nat, m: Move)
    requires Enabled(f, live, offsets, m)
    ensures m.s < |f| && (m.BeginDrain? ==> f[m.s] == Owned(m.r))
  {
    if m.BeginDrain? { PlanReleases(|f|, OwnedBy(f, m.r), live, offsets(m.r)); }
  }

  function Next(f: Fleet, live: nat, offsets: nat -> nat, m: Move): Fleet
    requires Enabled(f, live, offsets, m)
  {
    MovesInRange(f, live, offsets, m);
    match m
    case BeginDrain(r, s) => f[s := Draining(r)]
    case FinishDrain(s) => f[s := Free]
    case Acquire(r, s) => f[s := Owned(r)]
    case Expire(s) => f[s := Free]
  }

  // ---------------------------------------------------------------------------
  // The measure
  // ---------------------------------------------------------------------------

  function Over(n: nat, target: nat): nat {
    if n > target then n - target else 0
  }

  function Surplus(f: Fleet, target: nat, n: nat): nat {
    if n == 0 then 0 else Surplus(f, target, n - 1) + Over(|OwnedBy(f, n - 1)|, target)
  }

  function Drains(f: Fleet): set<nat> {
    set s | 0 <= s < |f| && f[s].Draining?
  }

  /** Shards leased to replicas that are gone. */
  function Strays(f: Fleet, live: nat): set<nat> {
    set s | 0 <= s < |f| && f[s].Owned? && f[s].owner >= live
  }

  function Frees(f: Fleet): set<nat> {
    set s | 0 <= s < |f| && f[s].Free?
  }

  /** Lexicographic in (surplus, draining or stray, free), as one number: a surplus shard still
      has three moves ahead of it, a draining or stray one two, a free one one. */
  function Work(f: Fleet, live: nat): nat
    requires live > 0
  {
    3 * Surplus(f, Ceil(|f|, live), live) + 2 * (|Drains(f)| + |Strays(f, live)|) + |Frees(f)|
  }

  /** Moving one shard changes the holdings of at most the replica concerned. */
  lemma OwnedAfter(f: Fleet, s: nat, p: Place, r: nat)
    requires s < |f|
    ensures OwnedBy(f[s := p], r) == OwnedBy(f, r) - {s} + if p == Owned(r) then {s} else {}
  {
  }

  lemma {:induction false} SurplusUnchanged(f: Fleet, g: Fleet, target: nat, n: nat)
    requires forall r: nat :: r < n ==> Over(|OwnedBy(f, r)|, target) == Over(|OwnedBy(g, r)|, target)
    ensures Surplus(f, target, n) == Surplus(g, target, n)
  {
    if n > 0 { SurplusUnchanged(f, g, target, n - 1); }
  }

  lemma {:induction false} SurplusDrops(f: Fleet, g: Fleet, target: nat, n: nat, r: nat)
    requires r < n
    requires Over(|OwnedBy(f, r)|, target) == Over(|OwnedBy(g, r)|, target) + 1
    requires forall q: nat :: q < n && q != r ==> OwnedBy(f, q) == OwnedBy(g, q)
    ensures Surplus(f, target, n) == Surplus(g, target, n) + 1
  {
    if r == n - 1 {
      SurplusUnchanged(f, g, target, n - 1);
    } else {
      SurplusDrops(f, g, target, n - 1, r);
    }
  }

  lemma GivingOne(f: Fleet, s: nat, r: nat)
    requires s < |f| && f[s] == Owned(r)
    ensures |OwnedBy(f[s := Draining(r)], r)| == |OwnedBy(f, r)| - 1
    ensures forall q: nat :: q != r ==> OwnedBy(f[s := Draining(r)], q) == OwnedBy(f, q)
  {
    OwnedAfter(f, s, Draining(r), r);
    assert s in OwnedBy(f, r);
    forall q: nat | q != r ensures OwnedBy(f[s := Draining(r)], q) == OwnedBy(f, q) {
      OwnedAfter(f, s, Draining(r), q);
    }
  }

  lemma DrainingBegins(f: Fleet, live: nat, target: nat, r: nat, s: nat)
    requires r < live && s < |f| && f[s] == Owned(r) && |OwnedBy(f, r)| > target
    ensures var g := f[s := Draining(r)];
            && Surplus(f, target, live) == Surplus(g, target, live) + 1
            && |Drains(g)| == |Drains(f)| + 1 && Frees(g) == Frees(f)
  {
    var g := f[s := Draining(r)];
    assert Surplus(f, target, live) == Surplus(g, target, live) + 1 by {
      GivingOne(f, s, r);
      SurplusDrops(f, g, target, live, r);
    }
    MarkedDraining(f, s, r);
  }

  /** No move but expiry touches a stray lease. */
  lemma StraysStay(f: Fleet, live: nat, s: nat, p: Place)
    requires s < |f| && !(f[s].Owned? && f[s].owner >= live) && !(p.Owned? && p.owner >= live)
    ensures Strays(f[s := p], live) == Strays(f, live)
  {
  }

  lemma StrayExpires(f: Fleet, live: nat, target: nat, s: nat)
    requires s < |f| && f[s].Owned? && f[s].owner >= live
    ensures var g := f[s := Free];
            && Surplus(f, target, live) == Surplus(g, target, live)
            && Drains(g) == Drains(f) && |Strays(g, live)| == |Strays(f, live)| - 1 && |Frees(g)| == |Frees(f)| + 1
  {
    var g := f[s := Free];
    forall q: nat | q < live ensures OwnedBy(g, q) == OwnedBy(f, q) { OwnedAfter(f, s, Free, q); }
    SurplusUnchanged(f, g, target, live);
    assert s in Strays(f, live) && Strays(g, live) == Strays(f, live) - {s};
    assert s !in Frees(f) && Frees(g) == Frees(f) + {s};
  }

  lemma MarkedDraining(f: Fleet, s: nat, r: nat)
    requires s < |f| && f[s] == Owned(r)
    ensures |Drains(f[s := Draining(r)])| == |Drains(f)| + 1 && Frees(f[s := Draining(r)]) == Frees(f)
  {
    assert Drains(f[s := Draining(r)]) == Drains(f) + {s} && s !in Drains(f);
  }

  lemma DrainingEnds(f: Fleet, live: nat, target: nat, s: nat)
    requires s < |f| && f[s].Draining?
    ensures var g := f[s := Free];
            && Surplus(f, target, live) == Surplus(g, target, live)
            && |Drains(g)| == |Drains(f)| - 1 && |Frees(g)| == |Frees(f)| + 1
  {
    var g := f[s := Free];
    forall q: nat ensures OwnedBy(g, q) == OwnedBy(f, q) { OwnedAfter(f, s, Free, q); }
    SurplusUnchanged(f, g, target, live);
    assert s in Drains(f) && Drains(g) == Drains(f) - {s};
    assert s !in Frees(f) && Frees(g) == Frees(f) + {s};
  }

  lemma AcquiringFills(f: Fleet, live: nat, target: nat, r: nat, s: nat)
    requires r < live && s < |f| && f[s].Free? && |OwnedBy(f, r)| < target
    ensures var g := f[s := Owned(r)];
            && Surplus(f, target, live) == Surplus(g, target, live)
            && Drains(g) == Drains(f) && |Frees(g)| == |Frees(f)| - 1
  {
    var g := f[s := Owned(r)];
    forall q: nat ensures OwnedBy(g, q) == if q == r then OwnedBy(f, q) + {s} else OwnedBy(f, q) {
      OwnedAfter(f, s, Owned(r), q);
    }
    forall q: nat | q < live ensures Over(|OwnedBy(f, q)|, target) == Over(|OwnedBy(g, q)|, target) {
      assert OwnedBy(g, q) == if q == r then OwnedBy(f, q) + {s} else OwnedBy(f, q);
    }
    SurplusUnchanged(f, g, target, live);
    assert s in Frees(f) && Frees(g) == Frees(f) - {s};
  }

  /** Every move gets the fleet closer to balance. */
  lemma MovesMakeProgress(f: Fleet, live: nat, offsets: nat -> nat, m: Move)
    requires live > 0 && Enabled(f, live, offsets, m)
    ensures Work(Next(f, live, offsets, m), live) < Work(f, live)
  {
    MovesInRange(f, live, offsets, m);
    var target := Ceil(|f|, live);
    match m {
      case BeginDrain(r, s) =>
        PlanReleases(|f|, OwnedBy(f, r), live, offsets(r));
        DrainingBegins(f, live, target, r, s);
        StraysStay(f, live, s, Draining(r));
      case FinishDrain(s) =>
        DrainingEnds(f, live, target, s);
        StraysStay(f, live, s, Free);
      case Acquire(r, s) =>
        PlanOffers(|f|, OwnedBy(f, r), live, offsets(r), s);
        AcquiringFills(f, live, target, r, s);
        StraysStay(f, live, s, Owned(r));
      case Expire(s) => StrayExpires(f, live, target, s);
    }
  }

  // ---------------------------------------------------------------------------
  // Pigeonholes
  // ---------------------------------------------------------------------------

  function Holdings(f: Fleet, n: nat): nat {
    if n == 0 then 0 else Holdings(f, n - 1) + |OwnedBy(f, n - 1)|
  }

  function HeldBelow(f: Fleet, n: nat): set<nat> {
    set s | 0 <= s < |f| && f[s].Owned? && f[s].owner < n
  }

  lemma {:induction false} HoldingsCount(f: Fleet, n: nat)
    ensures Holdings(f, n) == |HeldBelow(f, n)|
  {
    if n == 0 {
      assert HeldBelow(f, 0) == {};
    } else {
      HoldingsCount(f, n - 1);
      assert HeldBelow(f, n) == HeldBelow(f, n - 1) + OwnedBy(f, n - 1);
      assert HeldBelow(f, n - 1) !! OwnedBy(f, n - 1);
    }
  }

  lemma {:induction false} AllFull(f: Fleet, n: nat, target: nat)
    requires forall r: nat :: r < n ==> |OwnedBy(f, r)| >= target
    ensures Holdings(f, n) >= n * target
  {
    if n > 0 {
      AllFull(f, n - 1, target);
      assert n * target == (n - 1) * target + target;
    }
  }

  function All(n: nat): (r: set<nat>)
    ensures |r| == n && forall s: nat :: s in r <==> s < n
  {
    if n == 0 then {} else All(n - 1) + {n - 1}
  }

  /** A free shard means that somebody is below its share. */
  lemma SomebodyHasRoom(f: Fleet, live: nat, s: nat)
    requires live > 0 && s < |f| && f[s].Free?
    ensures exists r: nat :: r < live && |OwnedBy(f, r)| < Ceil(|f|, live)
  {
    if forall r: nat :: r < live ==> |OwnedBy(f, r)| >= Ceil(|f|, live) {
      AllFull(f, live, Ceil(|f|, live));
      CeilCovers(|f|, live);
      HoldingsCount(f, live);
      assert s in All(|f|);
      SubsetCount(HeldBelow(f, live), All(|f|) - {s});
      assert false;
    }
  }

  /** Every shard is owned by a live replica, and nobody holds more than a fair share: if all
      held one shard less than any of them does, the shards would not be covered. */
  ghost predicate Balanced(f: Fleet, live: nat)
    requires live > 0
  {
    && (forall s :: 0 <= s < |f| ==> f[s].Owned? && f[s].owner < live)
    && (forall r: nat :: r < live ==> live * (|OwnedBy(f, r)| - 1) < |f|)
  }

  lemma WithinShare(f: Fleet, live: nat, r: nat)
    requires live > 0 && |OwnedBy(f, r)| <= Ceil(|f|, live)
    ensures live * (|OwnedBy(f, r)| - 1) < |f|
  {
    var n, q := |OwnedBy(f, r)|, Ceil(|f|, live);
    CeilTight(|f|, live);
    if n > 0 {
      var k := q - n;
      assert live * (q - 1) == live * (n - 1) + live * k;
    }
  }

  /** Rebalancing stops only in balance. */
  lemma StuckIsBalanced(f: Fleet, live: nat, offsets: nat -> nat)
    requires live > 0
    requires forall m :: !Enabled(f, live, offsets, m)
    ensures Balanced(f, live)
  {
    forall r: nat | r < live ensures live * (|OwnedBy(f, r)| - 1) < |f| {
      PlanReleases(|f|, OwnedBy(f, r), live, offsets(r));
      var release := PlanOf(f, live, offsets, r).release;
      if release != [] {
        assert Enabled(f, live, offsets, BeginDrain(r, release[0]));
      }
      WithinShare(f, live, r);
    }
    forall s | 0 <= s < |f| ensures f[s].Owned? && f[s].owner < live {
      assert !Enabled(f, live, offsets, FinishDrain(s)) && !Enabled(f, live, offsets, Expire(s));
      if f[s].Free? {
        SomebodyHasRoom(f, live, s);
        var r: nat :| r < live && |OwnedBy(f, r)| < Ceil(|f|, live);
        PlanOffers(|f|, OwnedBy(f, r), live, offsets(r), s);
        assert Enabled(f, live, offsets, Acquire(r, s));
      }
    }
  }

  // ---------------------------------------------------------------------------
  // Convergence
  // ---------------------------------------------------------------------------

  ghost predicate Run(states: seq<Fleet>, moves: seq<Move>, live: nat, offsets: nat -> nat) {
    && |states| == |moves| + 1
    && forall i :: 0 <= i < |moves| ==>
         Enabled(states[i], live, offsets, moves[i]) && states[i + 1] == Next(states[i], live, offsets, moves[i])
  }

  lemma {:induction false} RunIsShort(states: seq<Fleet>, moves: seq<Move>, live: nat, offsets: nat -> nat)
    requires live > 0 && Run(states, moves, live, offsets)
    ensures |moves| + Work(states[|moves|], live) <= Work(states[0], live)
  {
    if moves != [] {
      var k := |moves| - 1;
      RunIsShort(states[..k + 1], moves[..k], live, offsets);
      assert Enabled(states[k], live, offsets, moves[k]);
      MovesMakeProgress(states[k], live, offsets, moves[k]);
    }
  }

  lemma {:induction false} SurplusBounded(f: Fleet, target: nat, n: nat)
    ensures Surplus(f, target, n) <= Holdings(f, n)
  {
    if n > 0 { SurplusBounded(f, target, n - 1); }
  }

  lemma WorkBounded(f: Fleet, live: nat)
    requires live > 0
    ensures Work(f, live) <= 3 * |f|
  {
    SurplusBounded(f, Ceil(|f|, live), live);
    HoldingsCount(f, live);
    var held := HeldBelow(f, live);
    var busy := Drains(f) + Strays(f, live);
    assert Drains(f) !! Strays(f, live) && held !! busy && (held + busy) !! Frees(f);
    SubsetCount(held + busy + Frees(f), All(|f|));
  }

  /** Fleet rebalancing converges: from any distribution of leases, those of replicas that are
      gone included, and in whatever order the replicas act, at most three moves per shard are
      possible, and a fleet with no move left has every shard owned by a live replica and
      nobody above the fair share. */
  lemma RebalancingConverges(states: seq<Fleet>, moves: seq<Move>, live: nat, offsets: nat -> nat)
    requires live > 0 && Run(states, moves, live, offsets)
    ensures |moves| <= 3 * |states[0]|
    ensures (forall m :: !Enabled(states[|moves|], live, offsets, m)) ==> Balanced(states[|moves|], live)
  {
    RunIsShort(states, moves, live, offsets);
    WorkBounded(states[0], live);
    if forall m :: !Enabled(states[|moves|], live, offsets, m) {
      StuckIsBalanced(states[|moves|], live, offsets);
    }
  }
}
