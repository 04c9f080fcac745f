/** Sums over sequences and stable sorting. */
module Sequences {

  function Map<T, U>(f: T -> U, s: seq<T>): (r: seq<U>)
    ensures |r| == |s| && forall i | 0 <= i < |s| :: r[i] == f(s[i])
  {
    seq(|s|, i requires 0 <= i < |s| => f(s[i]))
  }

  function Elements<T(==)>(s: seq<T>): set<T> {
    set x | x in s
  }

  function Filter<T>(p: T -> bool, s: seq<T>): seq<T> {
    if s == [] then []
    else if p(s[0]) then [s[0]] + Filter(p, s[1..])
    else Filter(p, s[1..])
  }

  lemma FilterStep<T>(p: T -> bool, x: T, s: seq<T>)
    ensures Filter(p, [x] + s) == if p(x) then [x] + Filter(p, s) else Filter(p, s)
  {
    assert ([x] + s)[1..] == s;
  }

  lemma {:induction false} FilterMembers<T(!new)>(p: T -> bool, s: seq<T>)
    ensures forall x :: x in Filter(p, s) <==> x in s && p(x)
  {
    if s != [] {
      FilterMembers(p, s[1..]);
      assert s == [s[0]] + s[1..];
    }
  }

  lemma {:induction false} FilterAppend<T>(p: T -> bool, a: seq<T>, b: seq<T>)
    ensures Filter(p, a + b) == Filter(p, a) + Filter(p, b)
  {
    if a == [] {
      assert a + b == b;
    } else {
      var x, rest := a[0], a[1..];
      FilterAppend(p, rest, b);
      FilterStep(p, x, rest + b);
      assert a + b == [x] + (rest + b);
      Reassociate(x, Filter(p, rest), Filter(p, b));
    }
  }

  lemma Reassociate<T>(x: T, a: seq<T>, b: seq<T>)
    ensures [x] + (a + b) == [x] + a + b
  {
  }

  // ---- Sums ----

  function Sum<T>(f: T -> int, s: seq<T>): int {
    if s == [] then 0 else f(s[0]) + Sum(f, s[1..])
  }

  lemma {:induction false} SumAppend<T>(f: T -> int, a: seq<T>, b: seq<T>)
    ensures Sum(f, a + b) == Sum(f, a) + Sum(f, b)
  {
    if a == [] {
      assert a + b == b;
    } else {
      SumAppend(f, a[1..], b);
      assert (a + b)[1..] == a[1..] + b;
    }
  }

  /** Taking one occurrence of `x` out of a sequence. */
  lemma TakeOut<T>(s: seq<T>, x: T) returns (k: nat, rest: seq<T>)
    requires x in s
    ensures k < |s| && s[k] == x && rest == s[..k] + s[k + 1..]
    ensures multiset(s) == multiset{x} + multiset(rest)
  {
    k :| 0 <= k < |s| && s[k] == x;
    rest := s[..k] + s[k + 1..];
    assert s == s[..k] + ([x] + s[k + 1..]);
  }

  lemma {:induction false} SumPermutation<T>(f: T -> int, a: seq<T>, b: seq<T>)
    requires multiset(a) == multiset(b)
    ensures Sum(f, a) == Sum(f, b)
  {
    if a == [] {
      assert |multiset(b)| == 0;
    } else {
      assert a[0] in multiset(b);
      var k, rest := TakeOut(b, a[0]);
      assert a == [a[0]] + a[1..];
      assert multiset(a) == multiset{a[0]} + multiset(a[1..]);
      assert multiset(a[1..]) == multiset(a) - multiset{a[0]} == multiset(rest);
      SumPermutation(f, a[1..], rest);
      SumTakeOut(f, b, k);
    }
  }

  lemma SumTakeOut<T>(f: T -> int, s: seq<T>, k: nat)
    requires k < |s|
    ensures Sum(f, s) == f(s[k]) + Sum(f, s[..k] + s[k + 1..])
  {
    SplitsAt(s, k);
    SumMiddle(f, s[..k], s[k], s[k + 1..]);
  }

  lemma SplitsAt<T>(s: seq<T>, k: nat)
    requires k < |s|
    ensures s == s[..k] + ([s[k]] + s[k + 1..])
  {
  }

  lemma SumMiddle<T>(f: T -> int, low: seq<T>, x: T, high: seq<T>)
    ensures Sum(f, low + ([x] + high)) == f(x) + Sum(f, low + high)
  {
    SumAppend(f, low, [x] + high);
    SumStep(f, x, high);
    SumAppend(f, low, high);
  }

  lemma SumStep<T>(f: T -> int, x: T, s: seq<T>)
    ensures Sum(f, [x] + s) == f(x) + Sum(f, s)
  {
    assert ([x] + s)[1..] == s;
  }

  lemma {:induction false} SumSplits<T>(f: T -> int, g: T -> int, h: T -> int, s: seq<T>)
    requires forall x | x in s :: f(x) == g(x) + h(x)
    ensures Sum(f, s) == Sum(g, s) + Sum(h, s)
  {
    if s != [] {
      SumSplits(f, g, h, s[1..]);
    }
  }

  lemma {:induction false} SumAgrees<T>(f: T -> int, g: T -> int, s: seq<T>)
    requires forall x | x in s :: f(x) == g(x)
    ensures Sum(f, s) == Sum(g, s)
  {
    if s != [] {
      SumAgrees(f, g, s[1..]);
    }
  }

  lemma {:induction false} SumOfMap<T, U>(f: U -> int, g: T -> U, h: T -> int, s: seq<T>)
    requires forall x | x in s :: f(g(x)) == h(x)
    ensures Sum(f, Map(g, s)) == Sum(h, s)
  {
    if s != [] {
      SumOfMap(f, g, h, s[1..]);
      assert Map(g, s)[1..] == Map(g, s[1..]);
    }
  }

  // ---- Stable sorting ----

  /** `le` compares any two of these elements, and chains among them. */
  ghost predicate TotalPreorder<T>(all: set<T>, le: (T, T) -> bool) {
    && (forall x, y | x in all && y in all :: le(x, y) || le(y, x))
    && (forall x, y, z | x in all && y in all && z in all :: le(x, y) && le(y, z) ==> le(x, z))
  }

  ghost predicate Sorted<T>(s: seq<T>, le: (T, T) -> bool) {
    forall i, j | 0 <= i < j < |s| :: le(s[i], s[j])
  }

  /** The elements of `s` that compare equal to `x`, in their order. */
  ghost function Ties<T>(s: seq<T>, le: (T, T) -> bool, x: T): seq<T> {
    Filter(y => le(x, y) && le(y, x), s)
  }

  /** What the stable sort of the language promises about its result. */
  ghost predicate StablySorted<T>(original: seq<T>, s: seq<T>, le: (T, T) -> bool) {
    && multiset(s) == multiset(original)
    && Sorted(s, le)
    && forall x | x in original :: Ties(s, le, x) == Ties(original, le, x)
  }

  lemma TiesStep<T>(x: T, s: seq<T>, le: (T, T) -> bool, t: T)
    ensures Ties([x] + s, le, t) == if le(t, x) && le(x, t) then [x] + Ties(s, le, t) else Ties(s, le, t)
  {
    assert ([x] + s)[1..] == s;
  }

  function Insert<T>(x: T, s: seq<T>, le: (T, T) -> bool): seq<T> {
    if s == [] then [x]
    else if le(x, s[0]) then [x] + s
    else [s[0]] + Insert(x, s[1..], le)
  }

  function Sort<T>(s: seq<T>, le: (T, T) -> bool): seq<T> {
    if s == [] then [] else Insert(s[0], Sort(s[1..], le), le)
  }

  lemma {:induction false} InsertPermutes<T>(x: T, s: seq<T>, le: (T, T) -> bool)
    ensures multiset(Insert(x, s, le)) == multiset{x} + multiset(s)
  {
    if s != [] && !le(x, s[0]) {
      InsertPermutes(x, s[1..], le);
      assert s == [s[0]] + s[1..];
    }
  }

  lemma SortedStep<T>(x: T, s: seq<T>, le: (T, T) -> bool)
    requires Sorted(s, le) && forall i | 0 <= i < |s| :: le(x, s[i])
    ensures Sorted([x] + s, le)
  {
  }

  lemma {:induction false} InsertKeepsSorted<T>(x: T, s: seq<T>, all: set<T>, le: (T, T) -> bool)
    requires TotalPreorder(all, le) && Sorted(s, le) && x in all && forall y | y in s :: y in all
    ensures Sorted(Insert(x, s, le), le)
  {
    if s != [] {
      var y, rest := s[0], s[1..];
      if le(x, y) {
        assert forall i | 0 <= i < |s| :: le(y, s[i]) by { assert le(y, y); }
        SortedStep(x, s, le);
      } else {
        var tail := Insert(x, rest, le);
        InsertKeepsSorted(x, rest, all, le);
        InsertPermutes(x, rest, le);
        forall i | 0 <= i < |tail|
          ensures le(y, tail[i])
        {
          assert tail[i] in multiset(tail);
          assert tail[i] == x || tail[i] in rest;
        }
        SortedStep(y, tail, le);
      }
    }
  }

  lemma {:induction false} InsertKeepsTies<T>(x: T, s: seq<T>, all: set<T>, le: (T, T) -> bool, t: T)
    requires TotalPreorder(all, le) && x in all && t in all && forall y | y in s :: y in all
    ensures Ties(Insert(x, s, le), le, t) == Ties([x] + s, le, t)
  {
    if s != [] && !le(x, s[0]) {
      var y, rest := s[0], s[1..];
      InsertKeepsTies(x, rest, all, le, t);
      TiesStep(y, Insert(x, rest, le), le, t);
      TiesStep(x, rest, le, t);
      TiesStep(y, rest, le, t);
      TiesStep(x, s, le, t);
      assert s == [y] + rest;
      assert le(x, t) && le(t, y) ==> le(x, y);
    } else if s == [] {
      assert [x] + s == [x];
    }
  }

  lemma {:induction false} SortPermutes<T>(s: seq<T>, le: (T, T) -> bool)
    ensures multiset(Sort(s, le)) == multiset(s)
  {
    if s != [] {
      SortPermutes(s[1..], le);
      InsertPermutes(s[0], Sort(s[1..], le), le);
      assert s == [s[0]] + s[1..];
    }
  }

  lemma TailMembers<T>(s: seq<T>, le: (T, T) -> bool)
    requires s != []
    ensures forall x | x in Sort(s[1..], le) :: x in s
  {
    SortPermutes(s[1..], le);
    forall x | x in Sort(s[1..], le)
      ensures x in s
    {
      assert x in multiset(Sort(s[1..], le));
      assert x in s[1..];
    }
  }

  lemma {:induction false} SortSorts<T>(s: seq<T>, all: set<T>, le: (T, T) -> bool)
    requires TotalPreorder(all, le) && forall x | x in s :: x in all
    ensures Sorted(Sort(s, le), le)
  {
    if s != [] {
      SortSorts(s[1..], all, le);
      TailMembers(s, le);
      assert s == [s[0]] + s[1..];
      InsertKeepsSorted(s[0], Sort(s[1..], le), all, le);
    }
  }

  lemma {:induction false} SortKeepsTies<T>(s: seq<T>, all: set<T>, le: (T, T) -> bool, t: T)
    requires TotalPreorder(all, le) && t in all && forall x | x in s :: x in all
    ensures Ties(Sort(s, le), le, t) == Ties(s, le, t)
  {
    if s != [] {
      var rest := Sort(s[1..], le);
      SortKeepsTies(s[1..], all, le, t);
      TailMembers(s, le);
      assert s == [s[0]] + s[1..];
      InsertKeepsTies(s[0], rest, all, le, t);
      TiesStep(s[0], rest, le, t);
      TiesStep(s[0], s[1..], le, t);
    }
  }

  /** Where `le` orders the elements of `s`, whatever it does on others, the sort used is a stable one. */
  lemma SortIsStable<T>(s: seq<T>, le: (T, T) -> bool)
    requires TotalPreorder(Elements(s), le)
    ensures StablySorted(s, Sort(s, le), le)
  {
    SortPermutes(s, le);
    SortSorts(s, Elements(s), le);
    forall t | t in s
      ensures Ties(Sort(s, le), le, t) == Ties(s, le, t)
    {
      SortKeepsTies(s, Elements(s), le, t);
    }
  }

  lemma {:induction false} TiesMembers<T>(s: seq<T>, le: (T, T) -> bool, x: T)
    ensures forall y | y in Ties(s, le, x) :: y in s
  {
    if s != [] {
      TiesMembers(s[1..], le, x);
      assert s == [s[0]] + s[1..];
      TiesStep(s[0], s[1..], le, x);
    }
  }

  lemma TieExists<T>(a: seq<T>, b: seq<T>, all: set<T>, le: (T, T) -> bool)
    requires TotalPreorder(all, le) && a != [] && a[0] in all && forall x | x in all :: Ties(a, le, x) == Ties(b, le, x)
    ensures b != [] && a[0] in b
  {
    assert le(a[0], a[0]);
    assert a == [a[0]] + a[1..];
    TiesStep(a[0], a[1..], le, a[0]);
    assert Ties(a, le, a[0])[0] == a[0];
    TiesMembers(b, le, a[0]);
  }

  lemma HeadsAgree<T>(a: seq<T>, b: seq<T>, all: set<T>, le: (T, T) -> bool)
    requires TotalPreorder(all, le) && Sorted(a, le) && Sorted(b, le) && a != [] && b != []
    requires (forall x | x in a :: x in all) && (forall x | x in b :: x in all)
    requires forall x | x in all :: Ties(a, le, x) == Ties(b, le, x)
    ensures a[0] == b[0]
  {
    TieExists(a, b, all, le);
    TieExists(b, a, all, le);
    var x, y := a[0], b[0];
    assert le(x, x) && le(y, y);
    assert le(x, y) && le(y, x);
    assert a == [x] + a[1..] && b == [y] + b[1..];
    TiesStep(x, a[1..], le, x);
    TiesStep(y, b[1..], le, x);
    assert Ties(a, le, x)[0] == x && Ties(b, le, x)[0] == y;
  }

  lemma TailsAgree<T>(x: T, a: seq<T>, b: seq<T>, le: (T, T) -> bool, t: T)
    requires Ties([x] + a, le, t) == Ties([x] + b, le, t)
    ensures Ties(a, le, t) == Ties(b, le, t)
  {
    TiesStep(x, a, le, t);
    TiesStep(x, b, le, t);
    if le(t, x) && le(x, t) {
      assert Ties([x] + a, le, t)[1..] == Ties(a, le, t);
      assert Ties([x] + b, le, t)[1..] == Ties(b, le, t);
    }
  }

  lemma {:induction false} SameTiesAreSame<T>(a: seq<T>, b: seq<T>, all: set<T>, le: (T, T) -> bool)
    requires TotalPreorder(all, le) && Sorted(a, le) && Sorted(b, le)
    requires (forall x | x in a :: x in all) && (forall x | x in b :: x in all)
    requires forall x | x in all :: Ties(a, le, x) == Ties(b, le, x)
    ensures a == b
  {
    if a == [] {
      if b != [] {
        TieExists(b, a, all, le);
      }
    } else {
      TieExists(a, b, all, le);
      HeadsAgree(a, b, all, le);
      assert a == [a[0]] + a[1..] && b == [a[0]] + b[1..];
      forall t | t in all
        ensures Ties(a[1..], le, t) == Ties(b[1..], le, t)
      {
        assert Ties(a, le, t) == Ties(b, le, t);
        TailsAgree(a[0], a[1..], b[1..], le, t);
      }
      SameTiesAreSame(a[1..], b[1..], all, le);
    }
  }

  /** A stable sort has one possible result. */
  lemma StableSortIsUnique<T>(original: seq<T>, a: seq<T>, b: seq<T>, le: (T, T) -> bool)
    requires TotalPreorder(Elements(original), le) && StablySorted(original, a, le) && StablySorted(original, b, le)
    ensures a == b
  {
    assert forall x | x in a :: x in multiset(original);
    assert forall x | x in b :: x in multiset(original);
    SameTiesAreSame(a, b, Elements(original), le);
  }

  /** Sorting looks at nothing but the order. */
  lemma {:induction false} SortCommutes<T(!new), U>(s: seq<T>, f: T -> U, le: (T, T) -> bool, le': (U, U) -> bool)
    requires forall x, y | x in s && y in s :: le(x, y) <==> le'(f(x), f(y))
    ensures Map(f, Sort(s, le)) == Sort(Map(f, s), le')
    ensures forall x :: x in Sort(s, le) <==> x in s
  {
    if s != [] {
      var first, rest := s[0], s[1..];
      assert s == [first] + rest;
      assert forall x | x in rest :: x in s;
      SortCommutes(rest, f, le, le');
      assert forall y | y in Sort(rest, le) :: y in s;
      InsertCommutes(first, Sort(rest, le), f, le, le');
      assert Map(f, s)[0] == f(first) && Map(f, s)[1..] == Map(f, rest);
    }
  }

  lemma {:induction false} InsertCommutes<T(!new), U>(x: T, s: seq<T>, f: T -> U,
          le: (T, T) -> bool, le': (U, U) -> bool)
    requires forall y | y in s :: le(x, y) <==> le'(f(x), f(y))
    ensures Map(f, Insert(x, s, le)) == Insert(f(x), Map(f, s), le')
    ensures forall y :: y in Insert(x, s, le) <==> y == x || y in s
  {
    if s != [] && !le(x, s[0]) {
      InsertCommutes(x, s[1..], f, le, le');
      assert Map(f, s)[1..] == Map(f, s[1..]);
      assert s == [s[0]] + s[1..];
    }
  }
}
