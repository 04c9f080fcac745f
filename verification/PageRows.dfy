/**
 * What the admin lists show: rows that pass search and filters, sorted by one column in either direction,
 * cut into pages. How a row is searched and how two cells compare are parameters.
 */
module PageRows {
  import opened Wrappers
  import opened Sequences

  /** `pageSize` and `page` are already cut to whole numbers; `hasColumn` says whether a row has the sort column. */
  datatype Query<!T> = Query(
    keep: T -> bool,
    sorts: bool,
    hasColumn: T -> bool,
    compare: (T, T) -> int,
    descending: bool,
    pageSize: Option<int>,
    page: Option<int>)

  datatype Paged<T> = Paged(items: seq<T>, page: int, pageSize: int, total: nat)

  datatype Indexed<T> = Indexed(row: T, index: nat)

  function WithIndex<T>(rows: seq<T>, from: nat): (r: seq<Indexed<T>>)
    ensures |r| == |rows| && forall i | 0 <= i < |rows| :: r[i] == Indexed(rows[i], from + i)
  {
    seq(|rows|, i requires 0 <= i < |rows| => Indexed(rows[i], from + i))
  }

  function Row<T>(e: Indexed<T>): T { e.row }

  /** `sign * compare`, at most zero. */
  function InOrder<T>(q: Query<T>): (T, T) -> bool {
    (a, b) => (if q.descending then -1 else 1) * q.compare(a, b) <= 0
  }

  /** The same, with the original position deciding ties. */
  function InStrictOrder<T>(q: Query<T>): (Indexed<T>, Indexed<T>) -> bool {
    (a: Indexed<T>, b: Indexed<T>) =>
      var c := (if q.descending then -1 else 1) * q.compare(a.row, b.row);
      if c != 0 then c <= 0 else a.index - b.index <= 0
  }

  predicate Sorts<T>(found: seq<T>, q: Query<T>) {
    q.sorts && exists i | 0 <= i < |found| :: q.hasColumn(found[i])
  }

  function Arranged<T>(rows: seq<T>, q: Query<T>): seq<T> {
    var found := Filter(q.keep, rows);
    if Sorts(found, q)
    then Map(Row, Sort(WithIndex(found, 0), InStrictOrder(q)))
    else found
  }

  function Distance(a: int, b: int): nat { if a <= b then b - a else a - b }

  /** Of the sizes allowed, the nearest to the one asked for. */
  function PageSize<T>(q: Query<T>): (size: nat)
    ensures 1 <= size <= 100
    ensures forall n | 1 <= n <= 100 :: Distance(size, q.pageSize.GetOr(25)) <= Distance(n, q.pageSize.GetOr(25))
  {
    var wanted := q.pageSize.GetOr(25);
    if wanted < 1 then 1 else if wanted > 100 then 100 else wanted
  }

  function PageNumber<T>(q: Query<T>): (page: nat)
    ensures page >= 1 && (q.page.GetOr(1) >= 1 ==> page == q.page.GetOr(1))
  {
    if q.page.GetOr(1) < 1 then 1 else q.page.GetOr(1)
  }

  /** `slice`, which stops at the end. */
  function Slice<T>(s: seq<T>, from: nat, to: nat): seq<T>
    requires from <= to
  {
    s[if from < |s| then from else |s|..if to < |s| then to else |s|]
  }

  function Page<T>(rows: seq<T>, size: nat, page: nat): seq<T>
    requires page >= 1
  {
    Slice(rows, (page - 1) * size, (page - 1) * size + size)
  }

  function PageOf<T>(rows: seq<T>, q: Query<T>): Paged<T> {
    var out := Arranged(rows, q);
    Paged(Page(out, PageSize(q), PageNumber(q)), PageNumber(q), PageSize(q), |out|)
  }

  // ---- Sorting with positions is stable sorting ----

  lemma {:induction false} PositionsOnlyBreakTies<T(!new)>(rows: seq<T>, q: Query<T>, from: nat)
    ensures Map(Row, Sort(WithIndex(rows, from), InStrictOrder(q))) == Sort(rows, InOrder(q))
    ensures forall e | e in Sort(WithIndex(rows, from), InStrictOrder(q)) :: e.index >= from
  {
    if rows != [] {
      var first, rest := Indexed(rows[0], from), WithIndex(rows[1..], from + 1);
      var sorted := Sort(rest, InStrictOrder(q));
      PositionsOnlyBreakTies(rows[1..], q, from + 1);
      assert WithIndex(rows, from) == [first] + rest;
      assert WithIndex(rows, from)[1..] == rest;
      forall e | e in sorted
        ensures InStrictOrder(q)(first, e) <==> InOrder(q)(Row(first), Row(e))
      {
      }
      InsertCommutes(first, sorted, Row, InStrictOrder(q), InOrder(q));
    }
  }

  /**
   * All the rows that pass and no others, in their order if no sort column is asked for and present, and
   * stably sorted if one is and the comparison orders the rows found.
   */
  lemma ArrangedIsStableSort<T(!new)>(rows: seq<T>, q: Query<T>)
    ensures var found := Filter(q.keep, rows);
            && multiset(Arranged(rows, q)) == multiset(found)
            && (!q.sorts || (forall r | r in found :: !q.hasColumn(r)) ==> Arranged(rows, q) == found)
            && (q.sorts && (exists r :: r in found && q.hasColumn(r)) && TotalPreorder(Elements(found), InOrder(q)) ==>
                  StablySorted(found, Arranged(rows, q), InOrder(q)))
  {
    var found := Filter(q.keep, rows);
    PositionsOnlyBreakTies(found, q, 0);
    SortPermutes(found, InOrder(q));
    if TotalPreorder(Elements(found), InOrder(q)) {
      SortIsStable(found, InOrder(q));
    }
  }

  /** Sorted rows do not compare downwards, or upwards if that is asked for. */
  lemma RowsAreInOrder<T(!new)>(rows: seq<T>, q: Query<T>, i: nat, j: nat)
    requires i < j < |Arranged(rows, q)| && q.sorts
    requires exists r :: r in Filter(q.keep, rows) && q.hasColumn(r)
    requires TotalPreorder(Elements(Filter(q.keep, rows)), InOrder(q))
    ensures var out := Arranged(rows, q);
            if q.descending then q.compare(out[i], out[j]) >= 0 else q.compare(out[i], out[j]) <= 0
  {
    ArrangedIsStableSort(rows, q);
    assert InOrder(q)(Arranged(rows, q)[i], Arranged(rows, q)[j]);
  }

  // ---- Pages ----

  function ForPage<T>(q: Query<T>, page: int): Query<T> {
    Query(q.keep, q.sorts, q.hasColumn, q.compare, q.descending, q.pageSize, Some(page))
  }

  /** What the request for one page of this list is answered. */
  function Answer<T>(rows: seq<T>, q: Query<T>, page: int): seq<T> {
    PageOf(rows, ForPage(q, page)).items
  }

  /** The answers for pages 1 to `count`, laid end to end. */
  function FirstAnswers<T>(rows: seq<T>, q: Query<T>, count: nat): seq<T> {
    if count == 0 then [] else FirstAnswers(rows, q, count - 1) + Answer(rows, q, count)
  }

  function FirstPages<T>(s: seq<T>, size: nat, count: nat): seq<T> {
    if count == 0 then [] else FirstPages(s, size, count - 1) + Page(s, size, count)
  }

  function PageCount(total: nat, size: nat): nat
    requires size > 0
  {
    (total + size - 1) / size
  }

  /** The page asked for decides nothing but which slice is answered. */
  lemma AnswerIsSlice<T>(rows: seq<T>, q: Query<T>, page: int)
    requires page >= 1
    ensures Answer(rows, q, page) == Page(Arranged(rows, q), PageSize(q), page)
    ensures PageOf(rows, ForPage(q, page)).total == |Arranged(rows, q)|
  {
    assert InStrictOrder(ForPage(q, page)) == InStrictOrder(q);
  }

  lemma {:induction false} AnswersArePages<T>(rows: seq<T>, q: Query<T>, count: nat)
    ensures FirstAnswers(rows, q, count) == FirstPages(Arranged(rows, q), PageSize(q), count)
  {
    if count > 0 {
      AnswersArePages(rows, q, count - 1);
      AnswerIsSlice(rows, q, count);
    }
  }

  lemma {:induction false} PagesAreAPrefix<T>(s: seq<T>, size: nat, count: nat)
    ensures FirstPages(s, size, count) == Slice(s, 0, count * size)
  {
    if count > 0 {
      PagesAreAPrefix(s, size, count - 1);
      PageJoins(s, size, count);
    }
  }

  lemma PageJoins<T>(s: seq<T>, size: nat, count: nat)
    requires count > 0
    ensures (count - 1) * size >= 0
    ensures Slice(s, 0, (count - 1) * size) + Page(s, size, count) == Slice(s, 0, count * size)
  {
    assert (count - 1) * size + size == count * size;
    SlicesJoin(s, (count - 1) * size, count * size);
  }

  lemma SlicesJoin<T>(s: seq<T>, a: nat, b: nat)
    requires a <= b
    ensures Slice(s, 0, a) + Slice(s, a, b) == Slice(s, 0, b)
  {
  }

  lemma PagesSuffice(total: nat, size: nat)
    requires size > 0
    ensures PageCount(total, size) * size >= total
  {
    var n := total + size - 1;
    assert n == PageCount(total, size) * size + n % size;
  }

  lemma Multiples(a: nat, b: nat, size: nat)
    requires a <= b
    ensures a * size <= b * size
  {
  }

  lemma NothingPastTheEnd<T>(rows: seq<T>, size: nat, page: nat)
    requires size > 0 && page > PageCount(|rows|, size)
    ensures Page(rows, size, page) == []
  {
    PagesSuffice(|rows|, size);
    Multiples(PageCount(|rows|, size), page - 1, size);
  }

  lemma PageFits<T>(rows: seq<T>, size: nat, page: nat)
    requires page >= 1
    ensures |Page(rows, size, page)| <= size
  {
    SliceFits(rows, (page - 1) * size, size);
  }

  lemma SliceFits<T>(s: seq<T>, from: nat, size: nat)
    ensures |Slice(s, from, from + size)| <= size
  {
  }

  lemma AllPages<T>(s: seq<T>, size: nat)
    requires size > 0
    ensures FirstPages(s, size, PageCount(|s|, size)) == s
  {
    PagesAreAPrefix(s, size, PageCount(|s|, size));
    PagesSuffice(|s|, size);
  }

  /** The answers for the pages from the first to the last, laid end to end, are the whole arranged list. */
  lemma PagesAddUp<T>(rows: seq<T>, q: Query<T>)
    ensures FirstAnswers(rows, q, PageCount(|Arranged(rows, q)|, PageSize(q))) == Arranged(rows, q)
  {
    AnswersArePages(rows, q, PageCount(|Arranged(rows, q)|, PageSize(q)));
    AllPages(Arranged(rows, q), PageSize(q));
  }

  /** The page and size answered with: the page asked for or the first, and of the sizes allowed the nearest. */
  lemma AnswerNamesItsPage<T>(rows: seq<T>, q: Query<T>)
    ensures var answer := PageOf(rows, q);
            && answer.page == (if q.page.Some? && q.page.value > 1 then q.page.value else 1)
            && 1 <= answer.pageSize <= 100
            && (forall n | 1 <= n <= 100 ::
                  Distance(answer.pageSize, q.pageSize.GetOr(25)) <= Distance(n, q.pageSize.GetOr(25)))
            && answer.items == Answer(rows, q, answer.page)
  {
    assert InStrictOrder(ForPage(q, PageNumber(q))) == InStrictOrder(q);
  }

  /** No answer is longer than a page, those past the last are empty, and each gives the same total. */
  lemma AnswersFit<T>(rows: seq<T>, q: Query<T>, page: nat)
    requires page >= 1
    ensures |Answer(rows, q, page)| <= PageSize(q)
    ensures PageOf(rows, ForPage(q, page)).total == |Arranged(rows, q)|
    ensures page > PageCount(|Arranged(rows, q)|, PageSize(q)) ==> Answer(rows, q, page) == []
  {
    AnswerIsSlice(rows, q, page);
    PageFits(Arranged(rows, q), PageSize(q), page);
    if page > PageCount(|Arranged(rows, q)|, PageSize(q)) {
      NothingPastTheEnd(Arranged(rows, q), PageSize(q), page);
    }
  }
}
