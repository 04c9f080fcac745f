/** Counting facts about finite sets. */
module Cardinality {

  lemma SomeElement<T>(s: set<T>) returns (x: T)
    requires s != {}
    ensures x in s
  {
    x :| x in s;
  }

  /** A set whose elements carry pairwise different tags in `[low, high)` has at most `high - low` elements. */
  lemma {:induction false} InjectiveIntoRange(s: set<int>, tag: map<int, int>, low: int, high: int)
    requires low <= high
    requires forall x :: x in s ==> x in tag && low <= tag[x] < high
    requires forall x, y :: x in s && y in s && x != y ==> tag[x] != tag[y]
    ensures |s| <= high - low
    decreases high - low
  {
    if s == {} {
    } else if low == high {
      var x := SomeElement(s);
      assert false;
    } else if exists x :: x in s && tag[x] == high - 1 {
      var x :| x in s && tag[x] == high - 1;
      InjectiveIntoRange(s - {x}, tag, low, high - 1);
      assert |s| == |s - {x}| + 1;
    } else {
      InjectiveIntoRange(s, tag, low, high - 1);
    }
  }
}
