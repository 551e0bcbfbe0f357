/** Small facts about finite collections that several modules need. */
module Sets {

  function One(b: bool): nat {
    if b then 1 else 0
  }

  /** The members of a list. */
  function Members<T>(s: seq<T>): set<T> {
    set x | x in s
  }

  lemma SubsetCount<T>(a: set<T>, b: set<T>)
    requires a <= b
    ensures |a| <= |b| && (|a| == |b| ==> a == b)
  {
    assert b == a + (b - a);
  }
}
