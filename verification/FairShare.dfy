/** How many shards a replica should hold, and why every replica following the same rule
    ends with all shards owned and nobody overloaded. */
module FairShare {

  datatype Plan = Plan(live: nat, target: nat, candidates: seq<nat>, release: seq<nat>)

  function Ceil(a: nat, b: nat): nat
    requires b > 0
  {
    (a + b - 1) / b
  }

  function Max(a: nat, b: nat): nat {
    if a > b then a else b
  }

  /** The ring starting at `rotation`. */
  function Ring(shards: nat, rotation: nat): seq<nat>
    requires shards > 0
  {
    seq(shards, step => (rotation + step) % shards)
  }

  function Unowned(order: seq<nat>, owned: set<nat>): seq<nat> {
    if order == [] then []
    else Unowned(order[..|order| - 1], owned) + if order[|order| - 1] in owned then [] else [order[|order| - 1]]
  }

  function Largest(s: set<nat>): (m: nat)
    requires s != {}
    ensures m in s && forall x :: x in s ==> x <= m
  {
    LargestExists(s);
    var m :| m in s && forall x :: x in s ==> x <= m;
    m
  }

  lemma {:induction false} LargestExists(s: set<nat>)
    requires s != {}
    ensures exists m :: m in s && forall x :: x in s ==> x <= m
    decreases s
  {
    var x :| x in s;
    if y :| y in s && y > x {
      assert y in s - {x};
      LargestExists(s - {x});
      var m :| m in s - {x} && forall z :: z in s - {x} ==> z <= m;
      assert y <= m;
      forall z | z in s ensures z <= m {
        if z != x { assert z in s - {x}; }
      }
      assert m in s;
    } else {
      assert forall z :: z in s ==> z <= x;
    }
  }

  /** The `n` largest members, largest first. */
  function Highest(s: set<nat>, n: nat): seq<nat>
    requires n <= |s|
    decreases n
  {
    if n == 0 then []
    else
      assert s != {};
      [Largest(s)] + Highest(s - {Largest(s)}, n - 1)
  }

  /** The plan of a replica that holds `owned`, one of `live`. */
  function FairSharePlan(shards: nat, owned: set<nat>, live: nat, offset: nat): Plan {
    var count := Max(live, 1);
    var target := Ceil(shards, count);
    if |owned| > target then Plan(count, target, [], Highest(owned, |owned| - target))
    else Plan(count, target,
              if |owned| < target && shards > 0 then Unowned(Ring(shards, offset % shards), owned) else [],
              [])
  }

  // ---------------------------------------------------------------------------
  // What a plan says
  // ---------------------------------------------------------------------------

  lemma {:induction false} HighestAre(s: set<nat>, n: nat)
    requires n <= |s|
    ensures |Highest(s, n)| == n
    ensures forall x :: x in Highest(s, n) ==> x in s
    ensures forall i, j :: 0 <= i < j < n ==> Highest(s, n)[i] > Highest(s, n)[j]
    ensures forall x, y :: x in Highest(s, n) && y in s && y !in Highest(s, n) ==> y < x
    decreases n
  {
    if n > 0 {
      var m := Largest(s);
      HighestAre(s - {m}, n - 1);
      var rest := Highest(s - {m}, n - 1);
      forall j | 0 < j < n ensures Highest(s, n)[0] > Highest(s, n)[j] {
        assert Highest(s, n)[j] in rest;
      }
      forall x, y | x in Highest(s, n) && y in s && y !in Highest(s, n) ensures y < x {
        assert y != m;
        if x != m { assert x in rest && y in s - {m} && y !in rest; }
      }
    }
  }

  lemma {:induction false} UnownedAre(order: seq<nat>, owned: set<nat>)
    ensures forall x :: x in Unowned(order, owned) <==> x in order && x !in owned
  {
    if order != [] { UnownedAre(order[..|order| - 1], owned); }
  }

  lemma RingIsEverything(shards: nat, rotation: nat, x: nat)
    requires rotation < shards
    ensures x in Ring(shards, rotation) <==> x < shards
  {
    if x < shards {
      var step := if x >= rotation then x - rotation else x + shards - rotation;
      assert Ring(shards, rotation)[step] == (rotation + step) % shards;
      if x >= rotation {
        assert (rotation + step) % shards == x;
      } else {
        WrapOnce(x, shards);
        assert rotation + step == x + shards;
      }
      assert Ring(shards, rotation)[step] == x;
    }
  }

  lemma WrapOnce(x: nat, n: nat)
    requires x < n
    ensures (x + n) % n == x
  {
    assert x + n == 1 * n + x;
  }

  /** A replica above its share gives back exactly the surplus, highest shards first. */
  lemma PlanReleases(shards: nat, owned: set<nat>, live: nat, offset: nat)
    ensures var plan := FairSharePlan(shards, owned, live, offset);
            && |plan.release| == (if |owned| > plan.target then |owned| - plan.target else 0)
            && (forall x :: x in plan.release ==> x in owned)
            && (forall i, j :: 0 <= i < j < |plan.release| ==> plan.release[i] != plan.release[j])
            && (forall x, y :: x in plan.release && y in owned && y !in plan.release ==> y < x)
  {
    var target := Ceil(shards, Max(live, 1));
    if |owned| > target {
      HighestAre(owned, |owned| - target);
    }
  }

  /** A replica below its share is offered every shard it does not hold; the others none. */
  lemma PlanOffers(shards: nat, owned: set<nat>, live: nat, offset: nat, x: nat)
    ensures var plan := FairSharePlan(shards, owned, live, offset);
            x in plan.candidates <==> |owned| < plan.target && x < shards && x !in owned
  {
    if shards > 0 {
      UnownedAre(Ring(shards, offset % shards), owned);
      RingIsEverything(shards, offset % shards, x);
    } else {
      assert Ceil(0, Max(live, 1)) == 0 by { SmallOverLarge(Max(live, 1)); }
    }
  }

  lemma SmallOverLarge(b: nat)
    requires b > 0
    ensures (b - 1) / b == 0
  {
  }

  lemma CeilCovers(a: nat, b: nat)
    requires b > 0
    ensures b * Ceil(a, b) >= a
  {
    var q := Ceil(a, b);
    assert a + b - 1 == q * b + (a + b - 1) % b;
    assert b * q == q * b;
  }

  lemma CeilTight(a: nat, b: nat)
    requires b > 0
    ensures a > 0 ==> Ceil(a, b) > 0 && b * (Ceil(a, b) - 1) < a
    ensures a == 0 ==> Ceil(a, b) == 0
  {
    var q := Ceil(a, b);
    assert a + b - 1 == q * b + (a + b - 1) % b;
    assert b * (q - 1) == q * b - b;
    if a == 0 { SmallOverLarge(b); }
  }

  /** The target is the fair share and nothing else: all shares together cover the shards, and
      one less each would not; a replica that believes itself alone takes all. */
  lemma TargetIsFairShare(shards: nat, owned: set<nat>, live: nat, offset: nat)
    ensures var plan, n := FairSharePlan(shards, owned, live, offset), if live == 0 then 1 else live;
            && plan.live == n
            && shards <= n * plan.target
            && (shards > 0 ==> n * (plan.target - 1) < shards)
            && (shards == 0 ==> plan.target == 0)
  {
    var n := if live == 0 then 1 else live;
    CeilCovers(shards, n);
    CeilTight(shards, n);
  }

  /** How far round the ring a shard is from where the replica starts. */
  function Distance(shards: nat, offset: nat, x: nat): nat
    requires shards > 0 && x < shards
  {
    var start := offset % shards;
    if x >= start then x - start else x + shards - start
  }

  lemma RingDistance(shards: nat, offset: nat, step: nat)
    requires step < shards
    ensures Ring(shards, offset % shards)[step] < shards
    ensures Distance(shards, offset, Ring(shards, offset % shards)[step]) == step
  {
    var start := offset % shards;
    if start + step >= shards { WrapOnce(start + step - shards, shards); }
  }

  ghost predicate InRingOrder(shards: nat, offset: nat, s: seq<nat>)
    requires shards > 0
  {
    && (forall i :: 0 <= i < |s| ==> s[i] < shards)
    && forall i, j :: 0 <= i < j < |s| ==> Distance(shards, offset, s[i]) < Distance(shards, offset, s[j])
  }

  lemma {:induction false} UnownedInRingOrder(shards: nat, offset: nat, order: seq<nat>, owned: set<nat>)
    requires shards > 0 && InRingOrder(shards, offset, order)
    ensures InRingOrder(shards, offset, Unowned(order, owned))
  {
    if order != [] {
      var init, last := order[..|order| - 1], order[|order| - 1];
      UnownedInRingOrder(shards, offset, init, owned);
      UnownedAre(init, owned);
      var kept := Unowned(init, owned);
      forall i | 0 <= i < |kept| ensures Distance(shards, offset, kept[i]) < Distance(shards, offset, last) {
        assert kept[i] in init;
        var k :| 0 <= k < |init| && init[k] == kept[i];
        assert order[k] == kept[i];
      }
    }
  }

  /** Candidates are tried in ring order from the replica's own offset, so replicas with
      different offsets begin in different places. */
  lemma PlanFollowsRing(shards: nat, owned: set<nat>, live: nat, offset: nat)
    requires shards > 0
    ensures InRingOrder(shards, offset, FairSharePlan(shards, owned, live, offset).candidates)
  {
    var order := Ring(shards, offset % shards);
    forall i | 0 <= i < |order| ensures order[i] < shards && Distance(shards, offset, order[i]) == i {
      RingDistance(shards, offset, i);
    }
    UnownedInRingOrder(shards, offset, order, owned);
  }
}
