/** The browser's bounded alert log: whatever the order of live and backfilled arrivals, it
    holds the newest alerts ever offered, newest first. */
module AlertLogs {
  import opened Options
  import opened Sets

  datatype Alert = Alert(id: int, body: string)

  predicate Descending(s: seq<int>) {
    forall i, j :: 0 <= i < j < |s| ==> s[i] > s[j]
  }

  function Elements(s: seq<int>): set<int> {
    set i | 0 <= i < |s| :: s[i]
  }

  function Min(a: nat, b: nat): nat {
    if a < b then a else b
  }

  /** `s` lists the `k` largest members of `ids`, largest first. */
  ghost predicate IsTop(ids: set<int>, k: nat, s: seq<int>) {
    && Descending(s)
    && |s| == Min(k, |ids|)
    && (forall x :: x in s ==> x in ids)
    && (forall x, y :: x in ids && x !in s && y in s ==> x < y)
  }

  /** Where an id belongs in a descending list. */
  ghost predicate Position(s: seq<int>, id: int, at: nat) {
    && at <= |s|
    && (forall i :: 0 <= i < at ==> s[i] > id)
    && (forall i :: at <= i < |s| ==> s[i] <= id)
  }

  function Place(s: seq<int>, id: int): (at: nat)
    ensures at <= |s|
  {
    if s == [] || s[0] <= id then 0 else 1 + Place(s[1..], id)
  }

  lemma {:induction false} PlaceIsPosition(s: seq<int>, id: int)
    requires Descending(s)
    ensures Position(s, id, Place(s, id))
  {
    if s != [] && s[0] > id {
      PlaceIsPosition(s[1..], id);
      forall i | 0 < i < |s| ensures s[i] == s[1..][i - 1] {}
    }
  }

  lemma PositionIsUnique(s: seq<int>, id: int, at: nat)
    requires Descending(s) && Position(s, id, at)
    ensures at == Place(s, id)
  {
    PlaceIsPosition(s, id);
    var p := Place(s, id);
    var m := if at < p then at else p;
    if m < |s| { assert s[m] > id || s[m] <= id; }
  }

  /** The log after one more id: refused if held, otherwise spliced in and cut to size. */
  function AddId(k: nat, s: seq<int>, id: int): seq<int> {
    if id in s then s else AddAt(s, id)[..Min(k, |s| + 1)]
  }

  function AddAt(s: seq<int>, id: int): (r: seq<int>)
    ensures |r| == |s| + 1
  {
    s[..Place(s, id)] + [id] + s[Place(s, id)..]
  }

  lemma {:induction false} DescendingCount(s: seq<int>)
    requires Descending(s)
    ensures |Elements(s)| == |s| && forall x :: x in Elements(s) <==> x in s
  {
    if s != [] {
      var init := s[..|s| - 1];
      DescendingCount(init);
      assert Elements(s) == Elements(init) + {s[|s| - 1]};
      assert s[|s| - 1] !in Elements(init);
    }
  }

  /** A log shorter than its capacity holds everything ever offered. */
  lemma ShortIsAll(ids: set<int>, k: nat, s: seq<int>)
    requires IsTop(ids, k, s)
    ensures |s| < k ==> Elements(s) == ids
    ensures (exists x :: x in ids && x !in s) ==> |s| == k
  {
    DescendingCount(s);
    SubsetCount(Elements(s), ids);
  }

  lemma SpliceKeepsOrder(s: seq<int>, id: int, at: nat, n: nat)
    requires Descending(s) && id !in s && Position(s, id, at) && n <= |s| + 1
    ensures var all := s[..at] + [id] + s[at..];
            && Descending(all[..n])
            && (forall x :: x in all <==> x in s || x == id)
            && (forall x, y :: x in all && x !in all[..n] && y in all[..n] ==> x < y)
  {
    var all := s[..at] + [id] + s[at..];
    forall i | at <= i < |s| ensures s[i] < id { assert s[i] in s; }
    assert Descending(all) by {
      forall i, j | 0 <= i < j < |all| ensures all[i] > all[j] {
        assert all[i] == if i < at then s[i] else if i == at then id else s[i - 1];
        assert all[j] == if j < at then s[j] else if j == at then id else s[j - 1];
      }
    }
    forall x ensures x in all <==> x in s || x == id {
      if x in s {
        var i :| 0 <= i < |s| && s[i] == x;
        assert all[if i < at then i else i + 1] == x;
      }
      if x == id { assert all[at] == id; }
    }
    forall x, y | x in all && x !in all[..n] && y in all[..n] ensures x < y {
      var i :| 0 <= i < |all| && all[i] == x;
      var j :| 0 <= j < n && all[j] == y;
      assert forall m :: 0 <= m < n ==> all[..n][m] == all[m];
    }
  }

  /** One more arrival: new, repeated, or offered again after it was evicted. */
  lemma AddKeepsTop(ids: set<int>, k: nat, s: seq<int>, id: int)
    requires IsTop(ids, k, s)
    ensures IsTop(ids + {id}, k, AddId(k, s, id))
  {
    var r := AddId(k, s, id);
    ShortIsAll(ids, k, s);
    if id in s {
      assert ids + {id} == ids;
    } else {
      var at := Place(s, id);
      PlaceIsPosition(s, id);
      SpliceKeepsOrder(s, id, at, Min(k, |s| + 1));
      var all := s[..at] + [id] + s[at..];
      DescendingCount(s);
      forall x | x in r ensures x in ids + {id} { assert x in all; }
      if id in ids {
        assert ids + {id} == ids && |s| == k;
      }
      forall x, y | x in ids + {id} && x !in r && y in r ensures x < y {
        assert y in all;
        if x !in all {
          assert x in ids && x !in s;
          if y == id { SmallerThanRest(ids, k, s, id, at, x); }
        }
      }
    }
  }

  /** If something was evicted before, an id that makes it into the log beats it too. */
  lemma SmallerThanRest(ids: set<int>, k: nat, s: seq<int>, id: int, at: nat, x: int)
    requires IsTop(ids, k, s) && Position(s, id, at) && id !in s && x in ids && x !in s
    requires id in (s[..at] + [id] + s[at..])[..Min(k, |s| + 1)]
    ensures x < id
  {
    ShortIsAll(ids, k, s);
    var all := s[..at] + [id] + s[at..];
    var j :| 0 <= j < k && all[..k][j] == id;
    assert all[j] == id;
    assert at < |s|;
    assert s[at] in s;
  }

  lemma {:induction false} SameElements(a: seq<int>, b: seq<int>)
    requires Descending(a) && Descending(b) && |a| == |b| && forall x :: x in a <==> x in b
    ensures a == b
  {
    if a != [] {
      assert a[0] in a && a[0] in b;
      assert b[0] in b && b[0] in a;
      assert a[0] == b[0];
      forall x ensures x in a[1..] <==> x in b[1..] {
        if x in a[1..] {
          var i :| 0 <= i < |a[1..]| && a[1..][i] == x;
          assert x == a[i + 1] && x < a[0] && x in b;
          var j :| 0 <= j < |b| && b[j] == x;
          assert b[1..][j - 1] == x;
        }
        if x in b[1..] {
          var i :| 0 <= i < |b[1..]| && b[1..][i] == x;
          assert x == b[i + 1] && x < b[0] && x in a;
          var j :| 0 <= j < |a| && a[j] == x;
          assert a[1..][j - 1] == x;
        }
      }
      SameElements(a[1..], b[1..]);
    }
  }

  lemma TopContained(ids: set<int>, k: nat, a: seq<int>, b: seq<int>, x: int)
    requires IsTop(ids, k, a) && IsTop(ids, k, b)
    ensures x in a ==> x in b
  {
    DescendingCount(a);
    DescendingCount(b);
    if x in a && x !in b {
      forall y | y in b ensures y in a {
        assert x < y;
      }
      SubsetCount(Elements(b) + {x}, Elements(a));
      assert false;
    }
  }

  /** The ids ever offered determine the log. */
  lemma TopIsUnique(ids: set<int>, k: nat, a: seq<int>, b: seq<int>)
    requires IsTop(ids, k, a) && IsTop(ids, k, b)
    ensures a == b
  {
    forall x ensures x in a <==> x in b {
      TopContained(ids, k, a, b, x);
      TopContained(ids, k, b, a, x);
    }
    SameElements(a, b);
  }

  /** The log after a sequence of arrivals. */
  function AddAll(k: nat, arrivals: seq<int>): seq<int> {
    if arrivals == [] then [] else AddId(k, AddAll(k, arrivals[..|arrivals| - 1]), arrivals[|arrivals| - 1])
  }

  lemma {:induction false} AddAllIsTop(k: nat, arrivals: seq<int>)
    ensures IsTop(Elements(arrivals), k, AddAll(k, arrivals))
  {
    if arrivals != [] {
      var init, id := arrivals[..|arrivals| - 1], arrivals[|arrivals| - 1];
      AddAllIsTop(k, init);
      AddKeepsTop(Elements(init), k, AddAll(k, init), id);
      assert Elements(arrivals) == Elements(init) + {id};
    }
  }

  /** Order independence: live pushes and backfill pages may arrive in any order, with any
      repeats and re-offers of evicted ids; the same ids make the same log. */
  lemma OrderDoesNotMatter(k: nat, live: seq<int>, backfilled: seq<int>)
    requires Elements(live) == Elements(backfilled)
    ensures AddAll(k, live) == AddAll(k, backfilled)
  {
    AddAllIsTop(k, live);
    AddAllIsTop(k, backfilled);
    TopIsUnique(Elements(live), k, AddAll(k, live), AddAll(k, backfilled));
  }

  // ---------------------------------------------------------------------------
  // The object
  // ---------------------------------------------------------------------------

  function IdsOf(items: seq<Alert>): seq<int> {
    seq(|items|, i requires 0 <= i < |items| => items[i].id)
  }

  function Splice(items: seq<Alert>, at: nat, a: Alert): seq<Alert>
    requires at <= |items|
  {
    items[..at] + [a] + items[at..]
  }

  lemma IdsOfSplice(items: seq<Alert>, at: nat, a: Alert)
    requires at <= |items|
    ensures IdsOf(Splice(items, at, a)) == IdsOf(items)[..at] + [a.id] + IdsOf(items)[at..]
  {
  }

  lemma AddAtFacts(s: seq<int>, id: int)
    requires Descending(s) && id !in s
    ensures Descending(AddAt(s, id)) && Elements(AddAt(s, id)) == Elements(s) + {id}
  {
    PlaceIsPosition(s, id);
    var all := AddAt(s, id);
    SpliceKeepsOrder(s, id, Place(s, id), |s| + 1);
    assert all[..|s| + 1] == all;
    DescendingCount(all);
    DescendingCount(s);
  }

  lemma SpliceFacts(items: seq<Alert>, a: Alert, at: nat)
    requires Descending(IdsOf(items)) && a.id !in IdsOf(items) && Position(IdsOf(items), a.id, at)
    ensures IdsOf(Splice(items, at, a)) == AddAt(IdsOf(items), a.id)
    ensures Descending(AddAt(IdsOf(items), a.id))
    ensures Elements(AddAt(IdsOf(items), a.id)) == Elements(IdsOf(items)) + {a.id}
  {
    PositionIsUnique(IdsOf(items), a.id, at);
    IdsOfSplice(items, at, a);
    AddAtFacts(IdsOf(items), a.id);
  }

  class AlertLog {
    const capacity: nat
    var items: seq<Alert>
    var ids: set<int>
    var lastId: Option<int>
    ghost var ever: set<int>

    ghost predicate Valid()
      reads this
    {
      && IsTop(ever, capacity, IdsOf(items))
      && ids == Elements(IdsOf(items))
      && (lastId.None? <==> ever == {})
      && (lastId.Some? ==> lastId.value in ever && forall x :: x in ever ==> x <= lastId.value)
    }

    constructor (capacity: nat)
      ensures Valid() && ever == {} && items == [] && this.capacity == capacity
    {
      this.capacity := capacity;
      items, ids, lastId, ever := [], {}, None, {};
    }

    /** Binary search for the first id that is not larger. */
    method InsertionIndex(id: int) returns (low: nat)
      requires Descending(IdsOf(items))
      ensures Position(IdsOf(items), id, low)
    {
      low := 0;
      var high := |items|;
      while low < high
        invariant 0 <= low <= high <= |items|
        invariant forall i :: 0 <= i < low ==> IdsOf(items)[i] > id
        invariant forall i :: high <= i < |items| ==> IdsOf(items)[i] <= id
      {
        var middle := (low + high) / 2;
        if items[middle].id > id {
          forall i | 0 <= i <= middle ensures IdsOf(items)[i] > id {
            assert IdsOf(items)[middle] > id && IdsOf(items)[i] >= IdsOf(items)[middle];
          }
          low := middle + 1;
        } else {
          forall i | middle <= i < |items| ensures IdsOf(items)[i] <= id {
            assert IdsOf(items)[middle] <= id && IdsOf(items)[i] <= IdsOf(items)[middle];
          }
          high := middle;
        }
      }
    }

    /** Refuse an id already held, otherwise insert it and evict from the old end. */
    method Add(alert: Alert) returns (added: bool)
      requires Valid()
      modifies this
      ensures Valid() && ever == old(ever) + {alert.id}
      ensures added == (alert.id !in old(ids))
      ensures IdsOf(items) == AddId(capacity, IdsOf(old(items)), alert.id)
      ensures forall a :: a in items ==> a in old(items) || a == alert
    {
      DescendingCount(IdsOf(items));
      AddKeepsTop(ever, capacity, IdsOf(items), alert.id);
      ever := ever + {alert.id};
      if alert.id in ids {
        return false;
      }
      Insert(alert);
      if lastId.None? || alert.id > lastId.value {
        lastId := Some(alert.id);
      }
      added := true;
    }

    method Insert(alert: Alert)
      requires Descending(IdsOf(items)) && ids == Elements(IdsOf(items)) && alert.id !in IdsOf(items)
      modifies this`items, this`ids
      ensures IdsOf(items) == AddId(capacity, IdsOf(old(items)), alert.id)
      ensures ids == Elements(IdsOf(items))
      ensures forall a :: a in items ==> a in old(items) || a == alert
    {
      var at := InsertionIndex(alert.id);
      SpliceFacts(items, alert, at);
      ids := ids + {alert.id};
      items := Splice(items, at, alert);
      Trim();
    }

    method Trim()
      requires Descending(IdsOf(items)) && ids == Elements(IdsOf(items))
      modifies this`items, this`ids
      ensures items == old(items)[..Min(capacity, |old(items)|)]
      ensures IdsOf(items) == IdsOf(old(items))[..Min(capacity, |old(items)|)]
      ensures ids == Elements(IdsOf(items))
    {
      while |items| > capacity
        invariant Min(capacity, |old(items)|) <= |items| <= |old(items)|
        invariant items == old(items)[..|items|]
        invariant Descending(IdsOf(items)) && ids == Elements(IdsOf(items))
      {
        ghost var s := IdsOf(items);
        CutLast(s);
        ids := ids - {items[|items| - 1].id};
        items := items[..|items| - 1];
        assert IdsOf(items) == s[..|s| - 1];
      }
    }
  }

  lemma CutLast(s: seq<int>)
    requires Descending(s) && s != []
    ensures Elements(s[..|s| - 1]) == Elements(s) - {s[|s| - 1]}
    ensures Descending(s[..|s| - 1])
  {
    var init := s[..|s| - 1];
    forall x ensures x in Elements(init) <==> x in Elements(s) && x != s[|s| - 1] {
      if x in Elements(s) {
        var i :| 0 <= i < |s| && s[i] == x;
        if i < |init| { assert init[i] == x; }
      }
      if x in Elements(init) {
        var i :| 0 <= i < |init| && init[i] == x;
        assert s[i] == x;
      }
    }
  }
}
