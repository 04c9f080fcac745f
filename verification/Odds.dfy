/**
 * Accumulator arithmetic. Prices are whole ten-thousandths, amounts whole minor units, and there is one
 * rounding, at the end. `n` legs divide by ten thousand to the `n`.
 */
module Odds {
  import opened Sequences

  const ODDS_SCALE := 10_000

  function Product(odds: seq<nat>): nat {
    if odds == [] then 1 else Product(odds[..|odds| - 1]) * odds[|odds| - 1]
  }

  function Scale(legs: nat): (d: nat)
    ensures d > 0
  {
    if legs == 0 then 1 else Scale(legs - 1) * ODDS_SCALE
  }

  /** `(n + d / 2) / d` of whole numbers. */
  function RoundedQuotient(n: nat, d: nat): nat
    requires d > 0
  {
    (n + d / 2) / d
  }

  /** Total odds, in hundredths. */
  function MultiplyOdds(odds: seq<nat>): nat {
    if odds == [] then 0 else
    ScaleSplits(|odds|);
    RoundedQuotient(Product(odds), Scale(|odds|) / 100)
  }

  function EstimateReturn(stake: int, odds: seq<nat>): nat {
    if odds == [] || stake <= 0 then 0 else RoundedQuotient(stake * Product(odds), Scale(|odds|))
  }

  datatype Totals = Totals(totalOdds: nat, stake: int, potentialReturn: nat, potentialProfit: nat)

  function SlipTotals(odds: seq<nat>, stake: int): Totals {
    var payout := EstimateReturn(stake, odds);
    Totals(MultiplyOdds(odds), stake, payout, if payout - stake > 0 then payout - stake else 0)
  }

  // ---- One rounding ----

  /** Both divisors are even, and the second divides the first exactly. */
  lemma ScaleSplits(legs: nat)
    requires legs > 0
    ensures Scale(legs) == 100 * (Scale(legs) / 100)
    ensures Scale(legs) % 2 == 0 && Scale(legs) / 100 % 2 == 0 && Scale(legs) / 100 > 0
  {
    TenThousandSplits(Scale(legs - 1));
  }

  lemma TenThousandSplits(k: nat)
    requires k > 0
    ensures k * ODDS_SCALE == 100 * (k * ODDS_SCALE / 100) && k * ODDS_SCALE / 100 > 0
    ensures k * ODDS_SCALE % 2 == 0 && k * ODDS_SCALE / 100 % 2 == 0
  {
    var h := 100 * k;
    assert k * ODDS_SCALE == 100 * h;
    Hundredth(h);
    Halves(50 * k);
    Halves(5000 * k);
  }

  lemma Hundredth(h: nat)
    ensures 100 * h / 100 == h
  {
  }

  lemma Halves(n: nat)
    ensures 2 * n % 2 == 0
  {
  }

  /** `r` is `n / d` rounded half up. */
  predicate HalfUp(r: int, n: int, d: int) {
    2 * n - d < 2 * (d * r) <= 2 * n + d
  }

  lemma QuotientIsHalfUp(n: nat, d: nat)
    requires d > 0 && d % 2 == 0
    ensures HalfUp(RoundedQuotient(n, d), n, d)
  {
    var q := RoundedQuotient(n, d);
    assert n + d / 2 == d * q + (n + d / 2) % d;
  }

  /** The return is the exact product, rounded half up to a minor unit: off by half a unit at most. */
  lemma ReturnIsHalfUp(stake: int, odds: seq<nat>)
    requires odds != [] && stake > 0
    ensures HalfUp(EstimateReturn(stake, odds), stake * Product(odds), Scale(|odds|))
  {
    ScaleSplits(|odds|);
    QuotientIsHalfUp(stake * Product(odds), Scale(|odds|));
  }

  /** The total shown is the exact product of the prices, rounded half up to a hundredth. */
  lemma TotalOddsAreHalfUp(odds: seq<nat>)
    requires odds != []
    ensures HalfUp(MultiplyOdds(odds), 100 * Product(odds), Scale(|odds|))
  {
    var p, h := Product(odds), Scale(|odds|) / 100;
    ScaleSplits(|odds|);
    QuotientIsHalfUp(p, h);
    HalfUpScales(MultiplyOdds(odds), p, h);
  }

  lemma HalfUpScales(r: int, n: int, d: int)
    requires HalfUp(r, n, d)
    ensures HalfUp(r, 100 * n, 100 * d)
  {
    assert 2 * (100 * d * r) == 100 * (2 * (d * r));
  }

  lemma HalfUpGrows(r: int, n: int, r': int, n': int, d: int)
    requires d > 0 && HalfUp(r, n, d) && HalfUp(r', n', d) && n <= n'
    ensures r <= r'
  {
    assert d * (r' + 1) == d * r' + d;
    if r' + 1 <= r {
      MulOrder(d, r' + 1, r);
    }
  }

  lemma MulOrder(d: int, a: int, b: int)
    requires d >= 0 && a <= b
    ensures d * a <= d * b
  {
  }

  /** An empty slip shows no odds and no return, and a stake of nothing or less no return and no profit. */
  lemma NothingToShow(stake: int, odds: seq<nat>)
    ensures odds == [] ==> MultiplyOdds(odds) == 0 && EstimateReturn(stake, odds) == 0
    ensures stake <= 0 ==> EstimateReturn(stake, odds) == 0
    ensures odds == [] && stake >= 0 ==> SlipTotals(odds, stake) == Totals(0, stake, 0, 0)
  {
  }

  // ---- Monotone in stake and in each price ----

  lemma {:induction false} ProductGrows(odds: seq<nat>, better: seq<nat>)
    requires |odds| == |better| && forall i | 0 <= i < |odds| :: odds[i] <= better[i]
    ensures Product(odds) <= Product(better)
  {
    if odds != [] {
      var n := |odds| - 1;
      ProductGrows(odds[..n], better[..n]);
      MulOrder(Product(odds[..n]), odds[n], better[n]);
      MulOrder(better[n], Product(odds[..n]), Product(better[..n]));
    }
  }

  /** A higher stake, and a higher price on any leg, never lowers the return. */
  lemma ReturnGrows(stake: int, odds: seq<nat>, more: int, better: seq<nat>)
    requires stake <= more && |odds| == |better| && forall i | 0 <= i < |odds| :: odds[i] <= better[i]
    ensures EstimateReturn(stake, odds) <= EstimateReturn(more, better)
  {
    if odds != [] && stake > 0 {
      var p, q := Product(odds), Product(better);
      ProductGrows(odds, better);
      MulOrder(stake, p, q);
      MulOrder(q, stake, more);
      ReturnIsHalfUp(stake, odds);
      ReturnIsHalfUp(more, better);
      HalfUpGrows(EstimateReturn(stake, odds), stake * p, EstimateReturn(more, better), more * q, Scale(|odds|));
    }
  }

  // ---- Leg order ----

  lemma {:induction false} ProductAppend(a: seq<nat>, b: seq<nat>)
    ensures Product(a + b) == Product(a) * Product(b)
  {
    if b == [] {
      assert a + b == a;
    } else {
      var n := |b| - 1;
      ProductAppend(a, b[..n]);
      assert (a + b)[..|a + b| - 1] == a + b[..n];
      assert Product(a) * Product(b[..n]) * b[n] == Product(a) * (Product(b[..n]) * b[n]);
    }
  }

  lemma {:induction false} ProductIgnoresOrder(a: seq<nat>, b: seq<nat>)
    requires multiset(a) == multiset(b)
    ensures Product(a) == Product(b)
  {
    if a == [] {
      assert |multiset(b)| == 0;
    } else {
      var n := |a| - 1;
      var x := a[n];
      assert a == a[..n] + [x];
      assert x in multiset(b);
      var k, rest := TakeOut(b, x);
      assert multiset(a) == multiset(a[..n]) + multiset{x};
      assert multiset(a[..n]) == multiset(a) - multiset{x} == multiset(rest);
      ProductIgnoresOrder(a[..n], rest);
      ProductTakeOut(b, k);
    }
  }

  lemma ProductTakeOut(b: seq<nat>, k: nat)
    requires k < |b|
    ensures Product(b) == Product(b[..k] + b[k + 1..]) * b[k]
  {
    SplitsAt(b, k);
    ProductMiddle(b[..k], b[k], b[k + 1..]);
  }

  lemma ProductMiddle(low: seq<nat>, x: nat, high: seq<nat>)
    ensures Product(low + ([x] + high)) == Product(low + high) * x
  {
    ProductAppend(low, [x] + high);
    ProductAppend([x], high);
    ProductOne(x);
    ProductAppend(low, high);
    MulSwap(Product(low), x, Product(high));
    MulAssociates(Product(low), x, Product(high));
  }

  lemma ProductOne(x: nat)
    ensures Product([x]) == x
  {
    assert [x][..0] == [] && Product([]) == 1;
  }

  lemma MulAssociates(a: nat, b: nat, c: nat)
    ensures a * b * c == a * (b * c)
  {
  }

  lemma MulSwap(a: nat, b: nat, c: nat)
    ensures a * b * c == a * c * b
  {
  }

  /** The legs may be taken in any order. */
  lemma LegOrderIsIrrelevant(stake: int, a: seq<nat>, b: seq<nat>)
    requires multiset(a) == multiset(b)
    ensures SlipTotals(a, stake) == SlipTotals(b, stake)
  {
    ProductIgnoresOrder(a, b);
    assert |a| == |multiset(a)| == |multiset(b)| == |b|;
  }

  // ---- Splitting a stake ----

  /** Two slips of one stake between them return what one slip would, give or take one minor unit. */
  lemma SplittingCostsAtMostOne(a: nat, b: nat, odds: seq<nat>)
    ensures -1 <= EstimateReturn(a + b, odds) - (EstimateReturn(a, odds) + EstimateReturn(b, odds)) <= 1
  {
    if odds != [] && a > 0 && b > 0 {
      var p, d := Product(odds), Scale(|odds|);
      var r, s, t := EstimateReturn(a + b, odds), EstimateReturn(a, odds), EstimateReturn(b, odds);
      ReturnIsHalfUp(a + b, odds);
      ReturnIsHalfUp(a, odds);
      ReturnIsHalfUp(b, odds);
      assert (a + b) * p == a * p + b * p;
      WithinOne(d, r, s, t, a * p, b * p);
    }
  }

  lemma WithinOne(d: int, r: int, s: int, t: int, m: int, n: int)
    requires d > 0 && HalfUp(r, m + n, d) && HalfUp(s, m, d) && HalfUp(t, n, d)
    ensures -1 <= r - (s + t) <= 1
  {
    var e := r - (s + t);
    assert d * e == d * r - d * s - d * t;
    if e >= 2 {
      MulOrder(d, 2, e);
    }
    if e <= -2 {
      MulOrder(d, e, -2);
    }
  }

  // ---- Against the odds on screen ----

  /**
   * The return differs from stake times the displayed total odds by at most a two-hundredth of the stake
   * and half a unit: in two-hundredths of a unit, by at most `stake + 100`.
   */
  lemma ReturnFollowsDisplayedOdds(stake: nat, odds: seq<nat>)
    requires odds != []
    ensures -(stake + 100) <= 200 * EstimateReturn(stake, odds) - 2 * (stake * MultiplyOdds(odds)) <= stake + 100
  {
    if stake > 0 {
      var p, d, h := Product(odds), Scale(|odds|), Scale(|odds|) / 100;
      var r, m := EstimateReturn(stake, odds), MultiplyOdds(odds);
      ScaleSplits(|odds|);
      ReturnIsHalfUp(stake, odds);
      QuotientIsHalfUp(p, h);
      Displayed(stake, p, h, r, m);
    }
  }

  lemma Displayed(stake: nat, p: nat, h: nat, r: nat, m: nat)
    requires h > 0 && HalfUp(r, stake * p, 100 * h) && HalfUp(m, p, h)
    ensures -(stake + 100) <= 200 * r - 2 * (stake * m) <= stake + 100
  {
    var e := 200 * r - 2 * (stake * m);
    MulOrder(stake, 2 * p - h, 2 * (h * m));
    MulOrder(stake, 2 * (h * m), 2 * p + h);
    assert stake * (2 * p - h) == 2 * (stake * p) - h * stake;
    assert stake * (2 * p + h) == 2 * (stake * p) + h * stake;
    assert stake * (2 * (h * m)) == h * (2 * (stake * m));
    assert 2 * (100 * h * r) == h * (200 * r);
    assert h * e == h * (200 * r) - h * (2 * (stake * m));
    assert h * (stake + 100) == h * stake + 100 * h;
    assert h * -(stake + 100) == -(h * stake) - 100 * h;
    MulCancel(h, e, stake + 100);
    MulCancel(h, -(stake + 100), e);
  }

  lemma MulCancel(d: int, a: int, b: int)
    requires d > 0 && d * a <= d * b
    ensures a <= b
  {
    if a > b {
      MulOrder(d, b + 1, a);
      assert false;
    }
  }

  // ---- Prices of at least one ----

  lemma {:induction false} ProductAtLeastScale(odds: seq<nat>)
    requires forall i | 0 <= i < |odds| :: ODDS_SCALE <= odds[i]
    ensures Scale(|odds|) <= Product(odds)
  {
    if odds != [] {
      var n := |odds| - 1;
      ProductAtLeastScale(odds[..n]);
      MulOrder(ODDS_SCALE, Scale(n), Product(odds[..n]));
      MulOrder(Product(odds[..n]), ODDS_SCALE, odds[n]);
    }
  }

  /** With every price at least 1.0000 no slip returns less than its stake, so the profit shown is exact. */
  lemma ProfitIsExact(stake: nat, odds: seq<nat>)
    requires odds != [] && forall i | 0 <= i < |odds| :: ODDS_SCALE <= odds[i]
    ensures EstimateReturn(stake, odds) >= stake
    ensures SlipTotals(odds, stake).potentialProfit == SlipTotals(odds, stake).potentialReturn - stake
  {
    if stake > 0 {
      var p, d := Product(odds), Scale(|odds|);
      ProductAtLeastScale(odds);
      MulOrder(stake, d, p);
      ReturnIsHalfUp(stake, odds);
      assert HalfUp(stake, stake * d, d) by { assert stake * d == d * stake; }
      HalfUpGrows(stake, stake * d, EstimateReturn(stake, odds), stake * p, d);
    }
  }
}
