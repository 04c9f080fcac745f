/**
 * What a bet pays: the price fixed when it is placed, the resolution of its legs when it is settled, and how
 * both stand to the return the slip showed. Prices are whole hundredths, amounts whole minor units.
 */
module Payout {
  import opened Decimal
  import opened Evaluation
  import opened Sequences
  import opened Text
  import opened Wrappers
  import Money
  import Odds

  /** `odds` is the text stored with the leg. */
  datatype Leg = Leg(outcome: Outcome, odds: string)

  datatype Resolution = Resolution(outcome: Outcome, payout: nat)

  datatype Problem = NegativeStake | NoLegs | BadOdds

  // ---- Stored odds ----

  /** One to six digits, and perhaps a point and one or two more; not zero. */
  function OddsToHundredths(odds: string): Option<nat> {
    var text := Trim(odds);
    match Money.MatchAmount(text)
    case None => None
    case Some((whole, fraction)) =>
      if |whole| > 6 || |fraction| > 2 || (fraction == [] && text != whole) then None
      else
        var hundredths := Read(whole) * 100 + Read(PadEnd(fraction, 2));
        if hundredths == 0 then None else Some(hundredths)
  }

  /** `text` is this decimal, of at most six and two places, and `h` is exactly a hundred times it. */
  predicate IsHundredths(text: string, whole: string, fraction: string, h: nat) {
    && 1 <= |whole| <= 6 && |fraction| <= 2 && AllDigits(whole) && AllDigits(fraction)
    && text == (if fraction == [] then whole else whole + "." + fraction)
    && h * Pow10(|fraction|) == (Read(whole) * Pow10(|fraction|) + Read(fraction)) * 100
  }

  ghost predicate WritesHundredths(text: string, h: nat) {
    exists whole, fraction :: IsHundredths(text, whole, fraction, h)
  }

  lemma PadTwo(fraction: string)
    requires AllDigits(fraction) && |fraction| <= 2
    ensures AllDigits(PadEnd(fraction, 2)) && Read(PadEnd(fraction, 2)) * Pow10(|fraction|) == Read(fraction) * 100
  {
    assert Pow10(0) == 1 && Pow10(1) == 10 && Pow10(2) == 100;
    if |fraction| < 2 {
      ReadAppend(fraction, Zeros(2 - |fraction|));
      ReadZeros(2 - |fraction|);
    }
  }

  lemma SameTimes(a: nat, b: nat, k: nat)
    requires k > 0
    ensures a * k == b * k <==> a == b
  {
    if a < b {
      Odds.MulOrder(k, a + 1, b);
    } else if b < a {
      Odds.MulOrder(k, b + 1, a);
    }
  }

  lemma SameDecimal(w: nat, f: nat, pad: nat, k: nat, h: nat)
    requires k > 0 && pad * k == f * 100
    ensures h == w * 100 + pad <==> h * k == (w * k + f) * 100
  {
    assert (w * k + f) * 100 == (w * 100 + pad) * k;
    SameTimes(h, w * 100 + pad, k);
  }

  lemma TwoPlaces(whole: string, fraction: string, h: nat)
    requires AllDigits(whole) && AllDigits(fraction) && |fraction| <= 2
    ensures AllDigits(PadEnd(fraction, 2))
    ensures h == Read(whole) * 100 + Read(PadEnd(fraction, 2))
            <==> h * Pow10(|fraction|) == (Read(whole) * Pow10(|fraction|) + Read(fraction)) * 100
  {
    PadTwo(fraction);
    SameDecimal(Read(whole), Read(fraction), Read(PadEnd(fraction, 2)), Pow10(|fraction|), h);
  }

  lemma StoredOddsFound(text: string, whole: string, fraction: string)
    requires 1 <= |whole| && AllDigits(whole) && AllDigits(fraction)
    requires text == if fraction == [] then whole else whole + "." + fraction
    ensures Money.MatchAmount(text) == Some((whole, fraction))
  {
    Money.MatchesWhatIsWritten(text, whole, fraction);
  }

  lemma ReadOddsAreWritten(odds: string, h: nat) returns (whole: string, fraction: string)
    requires OddsToHundredths(odds) == Some(h)
    ensures IsHundredths(Trim(odds), whole, fraction, h)
  {
    var found := Money.MatchAmount(Trim(odds)).value;
    whole, fraction := found.0, found.1;
    Money.MatchesWhatIsWritten(Trim(odds), whole, fraction);
    TwoPlaces(whole, fraction, h);
  }

  lemma WrittenOddsAreRead(odds: string, whole: string, fraction: string, h: nat)
    requires h > 0 && IsHundredths(Trim(odds), whole, fraction, h)
    ensures OddsToHundredths(odds) == Some(h)
  {
    StoredOddsFound(Trim(odds), whole, fraction);
    TwoPlaces(whole, fraction, h);
  }

  /** Stored odds are read exactly when they are such a decimal above zero, and then exactly. */
  lemma OddsAreExact(odds: string, h: nat)
    ensures OddsToHundredths(odds) == Some(h) <==> h > 0 && WritesHundredths(Trim(odds), h)
  {
    if OddsToHundredths(odds) == Some(h) {
      var whole, fraction := ReadOddsAreWritten(odds, h);
    }
    if h > 0 && WritesHundredths(Trim(odds), h) {
      var whole, fraction :| IsHundredths(Trim(odds), whole, fraction, h);
      WrittenOddsAreRead(odds, whole, fraction, h);
    }
  }

  // ---- The price as it is stored ----

  /** Hundredths as the betting service writes them. */
  function FormatHundredths(h: nat): string {
    Print(h / 100) + "." + PadStart(Print(h % 100), 2)
  }

  /** A million, in hundredths: the first price that settlement's six digits do not hold. */
  const MAX_READABLE_HUNDREDTHS: nat := 100_000_000

  /** What settlement reads of a price the betting service wrote. */
  function ReadPrice(h: nat): Option<nat> {
    if 0 < h < MAX_READABLE_HUNDREDTHS then Some(h) else None
  }

  lemma NothingToTrim(whole: string, fraction: string)
    requires AllDigits(whole) && AllDigits(fraction) && whole != [] && fraction != []
    ensures Trim(whole + "." + fraction) == whole + "." + fraction
  {
    var text := whole + "." + fraction;
    assert text[0] == whole[0] && text[|text| - 1] == fraction[|fraction| - 1];
  }

  /** A written price is read back if and only if it is above zero and below a million, and then exactly. */
  lemma FormattedPriceReadsBack(h: nat)
    ensures OddsToHundredths(FormatHundredths(h)) == ReadPrice(h)
  {
    assert Pow10(2) == 100;
    PaddedReadsBack(h % 100, 2);
    ReadPrint(h / 100);
    assert Pow10(6) == 1_000_000;
    PrintLength(h / 100, 6);
    TwoPlacesRead(Print(h / 100), PadStart(Print(h % 100), 2));
  }

  lemma TwoPlacesRead(whole: string, fraction: string)
    requires AllDigits(whole) && AllDigits(fraction) && whole != [] && |fraction| == 2
    ensures var h := Read(whole) * 100 + Read(fraction);
            OddsToHundredths(whole + "." + fraction) == if |whole| <= 6 && h > 0 then Some(h) else None
  {
    NothingToTrim(whole, fraction);
    StoredOddsFound(whole + "." + fraction, whole, fraction);
    MatchedTwoPlaces(whole + "." + fraction, whole, fraction);
  }

  lemma MatchedTwoPlaces(text: string, whole: string, fraction: string)
    requires AllDigits(whole) && AllDigits(fraction) && whole != [] && |fraction| == 2
    requires Trim(text) == text && Money.MatchAmount(text) == Some((whole, fraction))
    ensures var h := Read(whole) * 100 + Read(fraction);
            OddsToHundredths(text) == if |whole| <= 6 && h > 0 then Some(h) else None
  {
    assert PadEnd(fraction, 2) == fraction;
  }

  // ---- Resolving a bet ----

  /** A leg with its odds read, if they can be. */
  datatype Quoted = Quoted(outcome: Outcome, price: Option<nat>)

  function Quotes(legs: seq<Leg>): (quotes: seq<Quoted>)
    ensures |quotes| == |legs|
    ensures forall i | 0 <= i < |legs| :: quotes[i] == Quoted(legs[i].outcome, OddsToHundredths(legs[i].odds))
  {
    seq(|legs|, i requires 0 <= i < |legs| => Quoted(legs[i].outcome, OddsToHundredths(legs[i].odds)))
  }

  function Hundreds(n: nat): (d: nat)
    ensures d > 0
  {
    if n == 0 then 1 else Hundreds(n - 1) * 100
  }

  function Winning(legs: seq<Quoted>): seq<Quoted> {
    Filter((l: Quoted) => l.outcome == WON, legs)
  }

  /** The prices of the legs, in order, or nothing if one cannot be read. */
  function Prices(legs: seq<Quoted>): (prices: Option<seq<nat>>)
    ensures prices.Some? ==> |prices.value| == |legs|
  {
    if legs == [] then Some([]) else
    var front, last := Prices(legs[..|legs| - 1]), legs[|legs| - 1].price;
    if front.Some? && last.Some? then Some(front.value + [last.value]) else None
  }

  function Times(a: nat, b: nat): nat { a * b }

  /** `floor(stake * product / 100^n)`. */
  function Paid(stake: nat, prices: seq<nat>): nat {
    Money.Quotient(Times(stake, Odds.Product(prices)), Hundreds(|prices|))
  }

  function ResolveBet(stake: int, legs: seq<Leg>): Result<Resolution, Problem> {
    ResolveQuotes(stake, Quotes(legs))
  }

  function ResolveQuotes(stake: int, legs: seq<Quoted>): Result<Resolution, Problem> {
    if stake < 0 then Err(NegativeStake)
    else if legs == [] then Err(NoLegs)
    else if exists l | l in legs :: l.outcome == LOST then Ok(Resolution(LOST, 0))
    else if Winning(legs) == [] then Ok(Resolution(VOID, stake))
    else
      match Prices(Winning(legs))
      case None => Err(BadOdds)
      case Some(prices) => Ok(Resolution(WON, Paid(stake, prices)))
  }

  lemma ProductStep(prices: seq<nat>, p: nat)
    ensures Odds.Product(prices + [p]) == Odds.Product(prices) * p
  {
    assert (prices + [p])[..|prices|] == prices;
  }

  lemma PricesStep(legs: seq<Quoted>, leg: Quoted)
    ensures var front, last := Prices(legs), leg.price;
            Prices(legs + [leg]) == if front.Some? && last.Some? then Some(front.value + [last.value]) else None
  {
    assert (legs + [leg])[..|legs|] == legs;
  }

  lemma {:induction false} UnreadableStays(legs: seq<Quoted>, more: seq<Quoted>)
    requires Prices(legs).None?
    ensures Prices(legs + more).None?
  {
    if more == [] {
      assert legs + more == legs;
    } else {
      var n := |more| - 1;
      UnreadableStays(legs, more[..n]);
      PricesStep(legs + more[..n], more[n]);
      assert legs + more == legs + more[..n] + [more[n]];
    }
  }

  /** After `i` turns of the loop the numerator is that of the prices read so far. */
  ghost predicate Multiplied(stake: nat, legs: seq<Quoted>, numerator: nat) {
    Prices(legs).Some? && numerator == Times(stake, Odds.Product(Prices(legs).value))
  }

  lemma MultipliedNext(stake: nat, legs: seq<Quoted>, numerator: nat, leg: Quoted)
    requires Multiplied(stake, legs, numerator)
    ensures var h := leg.price;
            if h.Some? then Multiplied(stake, legs + [leg], Times(numerator, h.value)) else Prices(legs + [leg]).None?
  {
    PricesStep(legs, leg);
    var h := leg.price;
    if h.Some? {
      ProductStep(Prices(legs).value, h.value);
      Odds.MulAssociates(stake, Odds.Product(Prices(legs).value), h.value);
    }
  }

  /** The loop over the winning legs: numerator and denominator grow by one leg at a time. */
  method Multiply(stake: nat, legs: seq<Quoted>) returns (payout: Option<nat>)
    ensures payout == if Prices(legs).Some? then Some(Paid(stake, Prices(legs).value)) else None
  {
    var numerator: nat := stake;
    var denominator: nat := 1;
    for i := 0 to |legs|
      invariant Multiplied(stake, legs[..i], numerator)
      invariant denominator == Hundreds(i)
    {
      var hundredths := legs[i].price;
      MultipliedNext(stake, legs[..i], numerator, legs[i]);
      assert legs[..i] + [legs[i]] == legs[..i + 1];
      if hundredths.None? {
        UnreadableStays(legs[..i + 1], legs[i + 1..]);
        assert legs[..i + 1] + legs[i + 1..] == legs;
        return None;
      }
      numerator := Times(numerator, hundredths.value);
      denominator := denominator * 100;
    }
    assert legs[..|legs|] == legs;
    return Some(Money.Quotient(numerator, denominator));
  }

  method Resolve(stake: int, bet: seq<Leg>) returns (r: Result<Resolution, Problem>)
    ensures r == ResolveBet(stake, bet)
  {
    var legs := Quotes(bet);
    if stake < 0 {
      return Err(NegativeStake);
    }
    if |legs| == 0 {
      return Err(NoLegs);
    }
    if exists l | l in legs :: l.outcome == LOST {
      return Ok(Resolution(LOST, 0));
    }
    var winning := Winning(legs);
    if |winning| == 0 {
      return Ok(Resolution(VOID, stake));
    }
    var payout := Multiply(stake, winning);
    if payout.None? {
      return Err(BadOdds);
    }
    return Ok(Resolution(WON, payout.value));
  }

  // ---- A void leg counts as 1.00 ----

  function PriceOf(leg: Quoted): nat {
    if leg.outcome == VOID then 100 else leg.price.GetOr(0)
  }

  lemma WinningStep(legs: seq<Quoted>, leg: Quoted)
    ensures Winning(legs + [leg]) == Winning(legs) + if leg.outcome == WON then [leg] else []
  {
    FilterAppend((l: Quoted) => l.outcome == WON, legs, [leg]);
    OneLeg(leg);
  }

  lemma ChargedStep(legs: seq<Quoted>, leg: Quoted)
    ensures Odds.Product(Map(PriceOf, legs + [leg])) == Odds.Product(Map(PriceOf, legs)) * PriceOf(leg)
  {
    ProductStep(Map(PriceOf, legs), PriceOf(leg));
    assert Map(PriceOf, legs + [leg]) == Map(PriceOf, legs) + [PriceOf(leg)];
  }

  /** What the winning legs charge, with `100` for each of `void` others. */
  function Charged(prices: seq<nat>, void: nat): nat {
    Odds.Product(prices) * Hundreds(void)
  }

  lemma ChargedWon(prices: seq<nat>, p: nat, void: nat)
    ensures Charged(prices + [p], void) == Charged(prices, void) * p
  {
    ProductStep(prices, p);
    Odds.MulSwap(Odds.Product(prices), p, Hundreds(void));
  }

  lemma ChargedVoid(prices: seq<nat>, void: nat)
    ensures Charged(prices, void + 1) == Charged(prices, void) * 100
  {
    Odds.MulAssociates(Odds.Product(prices), Hundreds(void), 100);
  }

  /** The product of all prices, void legs at 1.00, is that of the winning ones times a hundred per void leg. */
  ghost predicate Factored(legs: seq<Quoted>) {
    && Prices(Winning(legs)).Some? && |Winning(legs)| <= |legs|
    && Odds.Product(Map(PriceOf, legs)) == Charged(Prices(Winning(legs)).value, |legs| - |Winning(legs)|)
  }

  lemma FactoredWon(legs: seq<Quoted>, leg: Quoted)
    requires Factored(legs) && leg.outcome == WON && leg.price.Some?
    ensures Factored(legs + [leg])
  {
    WinningStep(legs, leg);
    ChargedStep(legs, leg);
    PricesStep(Winning(legs), leg);
    ChargedWon(Prices(Winning(legs)).value, leg.price.value, |legs| - |Winning(legs)|);
  }

  lemma FactoredVoid(legs: seq<Quoted>, leg: Quoted)
    requires Factored(legs) && leg.outcome == VOID
    ensures Factored(legs + [leg])
  {
    WinningStep(legs, leg);
    ChargedStep(legs, leg);
    assert Winning(legs) + [] == Winning(legs);
    ChargedVoid(Prices(Winning(legs)).value, |legs| - |Winning(legs)|);
  }

  lemma {:induction false} VoidLegsFactor(legs: seq<Quoted>)
    requires (forall l | l in legs :: l.outcome != LOST) && Prices(Winning(legs)).Some?
    ensures Factored(legs)
  {
    if legs != [] {
      var front, last := legs[..|legs| - 1], legs[|legs| - 1];
      assert legs == front + [last];
      WinningStep(front, last);
      if last.outcome == WON {
        PricesStep(Winning(front), last);
        VoidLegsFactor(front);
        FactoredWon(front, last);
      } else {
        assert Winning(legs) == Winning(front);
        VoidLegsFactor(front);
        FactoredVoid(front, last);
      }
    }
  }

  lemma OneLeg(leg: Quoted)
    ensures Winning([leg]) == if leg.outcome == WON then [leg] else []
  {
    assert [leg] == [leg] + [];
    FilterStep((l: Quoted) => l.outcome == WON, leg, []);
  }

  lemma {:induction false} HundredsAdd(a: nat, b: nat)
    ensures Hundreds(a + b) == Hundreds(a) * Hundreds(b)
  {
    if b > 0 {
      HundredsAdd(a, b - 1);
      Odds.MulAssociates(Hundreds(a), Hundreds(b - 1), 100);
    }
  }

  lemma QuotientCancels(n: nat, d: nat, k: nat)
    requires d > 0 && k > 0
    ensures d * k > 0 && Money.Quotient(n * k, d * k) == Money.Quotient(n, d)
  {
    var q, r := n / d, n % d;
    assert n == d * q + r;
    assert n * k == (d * k) * q + r * k;
    assert 0 <= r * k < d * k;
    QuotientIs(n * k, d * k, q, r * k);
  }

  lemma QuotientIs(n: nat, d: nat, q: nat, r: nat)
    requires d > 0 && r < d && n == d * q + r
    ensures n / d == q && n % d == r
  {
    var e := n / d - q;
    assert n == d * (n / d) + n % d;
    assert d * e == d * (n / d) - d * q;
    assert 0 - d < d * e < d;
    if e >= 1 {
      Odds.MulOrder(d, 1, e);
    }
    if e <= -1 {
      Odds.MulOrder(d, e, -1);
    }
  }

  lemma VoidCountsAsOneQuoted(stake: nat, legs: seq<Quoted>)
    requires ResolveQuotes(stake, legs).Ok? && ResolveQuotes(stake, legs).value.outcome != LOST
    ensures ResolveQuotes(stake, legs).value.payout == Paid(stake, Map(PriceOf, legs))
  {
    var winning := Winning(legs);
    assert winning == [] ==> Prices(winning) == Some([]);
    VoidLegsFactor(legs);
    VoidLegsCancel(stake, Prices(winning).value, Map(PriceOf, legs));
    if winning == [] {
      assert Times(stake, Odds.Product([])) == stake;
      assert Paid(stake, []) == stake;
    }
  }

  /**
   * A bet that is not lost pays `floor(stake * product / 100^n)` over all its legs, a void leg counting as
   * 1.00: also where all are void, and the stake goes back.
   */
  lemma VoidCountsAsOne(stake: nat, bet: seq<Leg>)
    requires ResolveBet(stake, bet).Ok? && ResolveBet(stake, bet).value.outcome != LOST
    ensures ResolveBet(stake, bet).value.payout == Paid(stake, Map(PriceOf, Quotes(bet)))
  {
    VoidCountsAsOneQuoted(stake, Quotes(bet));
  }

  lemma VoidLegsCancel(stake: nat, prices: seq<nat>, charged: seq<nat>)
    requires |prices| <= |charged| && Odds.Product(charged) == Charged(prices, |charged| - |prices|)
    ensures Paid(stake, prices) == Paid(stake, charged)
  {
    var void := |charged| - |prices|;
    HundredsAdd(|prices|, void);
    Odds.MulAssociates(stake, Odds.Product(prices), Hundreds(void));
    QuotientCancels(Times(stake, Odds.Product(prices)), Hundreds(|prices|), Hundreds(void));
  }

  // ---- The price fixed at placement ----

  const MAX_TOTAL_ODDS_HUNDREDTHS: nat := 999_999_999_999

  datatype SlipPrice = SlipPrice(totalOddsHundredths: nat, potentialPayout: nat)

  /** `Err` where the code throws, `None` where the result exceeds the columns or a safe integer. */
  function PriceSlip(stake: int, prices: seq<nat>): Result<Option<SlipPrice>, ()> {
    if !(0 < stake <= Money.MAX_SAFE_INTEGER) || prices == []
       || exists p | p in prices :: !(100 < p <= Money.MAX_SAFE_INTEGER)
    then Err(())
    else
      var total := Money.Quotient(Odds.Product(prices), Hundreds(|prices| - 1));
      var potential := Paid(stake, prices);
      if total > MAX_TOTAL_ODDS_HUNDREDTHS || potential > Money.MAX_SAFE_INTEGER then Ok(None)
      else Ok(Some(SlipPrice(total, potential)))
  }

  /**
   * A slip is refused exactly for a stake or a price out of range or for having no leg, and priced exactly at the
   * floors of the product of its prices and of its return, unless one of those is too large.
   */
  lemma PricedAtFloors(stake: int, prices: seq<nat>, total: nat, potential: nat)
    ensures PriceSlip(stake, prices).Err?
            <==> stake < 1 || stake > 9_007_199_254_740_991 || |prices| == 0
                 || exists p | p in prices :: p < 101 || p > 9_007_199_254_740_991
    ensures PriceSlip(stake, prices) == Ok(Some(SlipPrice(total, potential)))
            <==> && PriceSlip(stake, prices).Ok?
                 && Money.FloorOf(total, Odds.Product(prices), 1, Hundreds(|prices| - 1))
                 && Money.FloorOf(potential, Times(stake, Odds.Product(prices)), 1, Hundreds(|prices|))
                 && total <= 999_999_999_999 && potential <= 9_007_199_254_740_991
  {
    if PriceSlip(stake, prices).Ok? {
      QuotientIsFloor(Odds.Product(prices), Hundreds(|prices| - 1), total);
      QuotientIsFloor(Times(stake, Odds.Product(prices)), Hundreds(|prices|), potential);
    }
  }

  lemma QuotientIsFloor(n: nat, d: nat, q: nat)
    requires d > 0
    ensures Money.Quotient(n, d) == q <==> Money.FloorOf(q, n, 1, d)
  {
    assert n == d * (n / d) + n % d;
    if Money.FloorOf(q, n, 1, d) {
      QuotientIs(n, d, q, n - d * q);
    }
  }

  /** The legs as they are stored when the bet is placed at the prices. */
  predicate StoredAt(bet: seq<Leg>, prices: seq<nat>) {
    |bet| == |prices| && forall i | 0 <= i < |bet| :: bet[i].odds == FormatHundredths(prices[i])
  }

  predicate QuotedAt(legs: seq<Quoted>, prices: seq<nat>) {
    |legs| == |prices| && forall i | 0 <= i < |legs| :: legs[i].price == ReadPrice(prices[i])
  }

  /** The legs' odds are read as the prices. */
  predicate PlacedAt(legs: seq<Quoted>, prices: seq<nat>) {
    |legs| == |prices| && forall i | 0 <= i < |legs| :: legs[i].price == Some(prices[i])
  }

  /** What the betting service accepts of a settlement of the bet. */
  predicate Consistent(r: Resolution, stake: int, potentialPayout: nat) {
    match r.outcome
    case LOST => r.payout == 0
    case VOID => r.payout == stake
    case WON => 0 < r.payout <= potentialPayout
  }

  lemma {:induction false} ReadablePrices(legs: seq<Quoted>)
    ensures Prices(legs).Some? <==> forall l | l in legs :: l.price.Some?
  {
    if legs != [] {
      var front, last := legs[..|legs| - 1], legs[|legs| - 1];
      ReadablePrices(front);
      assert legs == front + [last];
    }
  }

  lemma {:induction false} HundredsBelowProduct(prices: seq<nat>)
    requires forall p | p in prices :: p >= 100
    ensures Hundreds(|prices|) <= Odds.Product(prices)
  {
    if prices != [] {
      var n := |prices| - 1;
      assert forall p | p in prices[..n] :: p in prices;
      assert prices[n] in prices;
      HundredsBelowProduct(prices[..n]);
      Odds.MulOrder(100, Hundreds(n), Odds.Product(prices[..n]));
      Odds.MulOrder(Odds.Product(prices[..n]), 100, prices[n]);
    }
  }

  lemma PaysAtLeastStake(stake: nat, prices: seq<nat>)
    requires forall p | p in prices :: p >= 100
    ensures Paid(stake, prices) >= stake
  {
    var d := Hundreds(|prices|);
    HundredsBelowProduct(prices);
    Odds.MulOrder(stake, d, Odds.Product(prices));
    QuotientGrows(Times(stake, d), Times(stake, Odds.Product(prices)), d);
    QuotientIs(Times(stake, d), d, stake, 0);
  }

  lemma QuotientGrows(m: nat, n: nat, d: nat)
    requires d > 0 && m <= n
    ensures Money.Quotient(m, d) <= Money.Quotient(n, d)
  {
    var e := m / d - n / d;
    assert m == d * (m / d) + m % d && n == d * (n / d) + n % d;
    assert d * e == d * (m / d) - d * (n / d);
    if e >= 1 {
      Odds.MulOrder(d, 1, e);
    }
  }

  lemma PaidGrows(stake: nat, prices: seq<nat>, better: seq<nat>)
    requires |prices| == |better| && forall i | 0 <= i < |prices| :: prices[i] <= better[i]
    ensures Paid(stake, prices) <= Paid(stake, better)
  {
    Odds.ProductGrows(prices, better);
    Odds.MulOrder(stake, Odds.Product(prices), Odds.Product(better));
    QuotientGrows(Times(stake, Odds.Product(prices)), Times(stake, Odds.Product(better)), Hundreds(|prices|));
  }

  lemma WinningAreLegs(legs: seq<Quoted>)
    ensures forall l :: l in Winning(legs) <==> l in legs && l.outcome == WON
  {
    FilterMembers((l: Quoted) => l.outcome == WON, legs);
  }

  /** Each leg charges its price, or is void. */
  predicate ChargedAt(legs: seq<Quoted>, prices: seq<nat>) {
    |legs| == |prices| && forall i | 0 <= i < |legs| :: legs[i].outcome == VOID || legs[i].price == Some(prices[i])
  }

  lemma ChargedAtMost(legs: seq<Quoted>, prices: seq<nat>)
    requires ChargedAt(legs, prices) && forall p | p in prices :: p > 100
    ensures |Map(PriceOf, legs)| == |prices|
    ensures forall i | 0 <= i < |prices| :: 100 <= Map(PriceOf, legs)[i] <= prices[i]
  {
    forall i | 0 <= i < |prices|
      ensures 100 <= Map(PriceOf, legs)[i] <= prices[i]
    {
      assert prices[i] in prices;
    }
  }

  lemma PaysWithinPotential(stake: nat, legs: seq<Quoted>, prices: seq<nat>)
    requires ChargedAt(legs, prices) && forall p | p in prices :: p > 100
    ensures stake <= Paid(stake, Map(PriceOf, legs)) <= Paid(stake, prices)
  {
    var charged := Map(PriceOf, legs);
    ChargedAtMost(legs, prices);
    assert forall p | p in charged :: p >= 100;
    PaysAtLeastStake(stake, charged);
    PaidGrows(stake, charged, prices);
  }

  /** No leg is lost, and a winning one has a price that settlement does not read. */
  predicate Unreadable(legs: seq<Quoted>, prices: seq<nat>)
    requires |legs| == |prices|
  {
    && (forall l | l in legs :: l.outcome != LOST)
    && exists i | 0 <= i < |legs| :: legs[i].outcome == WON && prices[i] >= MAX_READABLE_HUNDREDTHS
  }

  lemma UnreadableFails(stake: nat, legs: seq<Quoted>, prices: seq<nat>)
    requires legs != [] && QuotedAt(legs, prices) && forall p | p in prices :: p > 100
    ensures ResolveQuotes(stake, legs).Err? <==> Unreadable(legs, prices)
  {
    WinningAreLegs(legs);
    ReadablePrices(Winning(legs));
    assert forall p | p in prices :: ReadPrice(p).None? <==> p >= MAX_READABLE_HUNDREDTHS;
    assert Winning(legs) == [] ==> Prices(Winning(legs)) == Some([]);
    if Unreadable(legs, prices) {
      var i :| 0 <= i < |legs| && legs[i].outcome == WON && prices[i] >= MAX_READABLE_HUNDREDTHS;
      assert legs[i] in Winning(legs);
    } else {
      forall l | l in Winning(legs) && forall m | m in legs :: m.outcome != LOST
        ensures l.price.Some?
      {
        var i :| 0 <= i < |legs| && legs[i] == l;
        assert prices[i] in prices;
      }
    }
  }

  lemma ReadLegsAreCharged(stake: nat, legs: seq<Quoted>, prices: seq<nat>)
    requires legs != [] && QuotedAt(legs, prices) && forall p | p in prices :: p > 100
    requires ResolveQuotes(stake, legs).Ok? && ResolveQuotes(stake, legs).value.outcome != LOST
    ensures ChargedAt(legs, prices)
  {
    UnreadableFails(stake, legs, prices);
    forall i | 0 <= i < |legs|
      ensures legs[i].outcome == VOID || legs[i].price == Some(prices[i])
    {
      assert prices[i] in prices && legs[i] in legs;
    }
  }

  /** No leg of the bet is lost, and one is won at a price of a million or more. */
  predicate WonBeyondReading(bet: seq<Leg>, prices: seq<nat>)
    requires |bet| == |prices|
  {
    && (forall l | l in bet :: l.outcome != LOST)
    && exists i | 0 <= i < |bet| :: bet[i].outcome == WON && prices[i] >= MAX_READABLE_HUNDREDTHS
  }

  /**
   * However the legs of a placed bet turn out, it can be resolved unless none is lost and one is won at a price
   * of a million or more; and what it is resolved to is a payout that the betting service accepts and that fits
   * a safe integer.
   */
  lemma PlacedBetsSettle(stake: nat, prices: seq<nat>, bet: seq<Leg>)
    requires PriceSlip(stake, prices).Ok? && PriceSlip(stake, prices).value.Some? && StoredAt(bet, prices)
    ensures var potential := PriceSlip(stake, prices).value.value.potentialPayout;
            && (ResolveBet(stake, bet).Err? <==> WonBeyondReading(bet, prices))
            && (ResolveBet(stake, bet).Ok? ==>
                  && Consistent(ResolveBet(stake, bet).value, stake, potential)
                  && ResolveBet(stake, bet).value.payout <= Money.MAX_SAFE_INTEGER)
  {
    SlipIsPriced(stake, prices);
    StoredIsQuoted(bet, prices);
    QuotedBetsSettle(stake, prices, Quotes(bet));
    QuotesKeepOutcomes(bet, prices);
  }

  lemma StoredIsQuoted(bet: seq<Leg>, prices: seq<nat>)
    requires StoredAt(bet, prices)
    ensures QuotedAt(Quotes(bet), prices)
  {
    forall i | 0 <= i < |bet|
      ensures Quotes(bet)[i].price == ReadPrice(prices[i])
    {
      FormattedPriceReadsBack(prices[i]);
    }
  }

  lemma QuotesKeepOutcomes(bet: seq<Leg>, prices: seq<nat>)
    requires |bet| == |prices|
    ensures Unreadable(Quotes(bet), prices) <==> WonBeyondReading(bet, prices)
  {
    var legs := Quotes(bet);
    forall i | 0 <= i < |bet|
      ensures legs[i] in legs && bet[i] in bet && legs[i].outcome == bet[i].outcome
    {
    }
  }

  lemma SlipIsPriced(stake: nat, prices: seq<nat>)
    requires PriceSlip(stake, prices).Ok? && PriceSlip(stake, prices).value.Some?
    ensures 0 < stake && prices != [] && forall p | p in prices :: p > 100
    ensures PriceSlip(stake, prices).value.value.potentialPayout == Paid(stake, prices) <= Money.MAX_SAFE_INTEGER
  {
  }

  lemma QuotedBetsSettle(stake: nat, prices: seq<nat>, legs: seq<Quoted>)
    requires 0 < stake && prices != [] && QuotedAt(legs, prices) && forall p | p in prices :: p > 100
    ensures ResolveQuotes(stake, legs).Err? <==> Unreadable(legs, prices)
    ensures ResolveQuotes(stake, legs).Ok? ==>
              && Consistent(ResolveQuotes(stake, legs).value, stake, Paid(stake, prices))
              && ResolveQuotes(stake, legs).value.payout <= Paid(stake, prices)
  {
    UnreadableFails(stake, legs, prices);
    if ResolveQuotes(stake, legs).Ok? && ResolveQuotes(stake, legs).value.outcome != LOST {
      ReadLegsAreCharged(stake, legs, prices);
      PaysWithinPotential(stake, legs, prices);
      VoidCountsAsOneQuoted(stake, legs);
    }
  }

  // ---- What the slip showed ----

  /** The price as the slip carries it, in ten-thousandths. */
  function Shown(price: nat): nat { 100 * price }

  lemma ShownStep(a: nat, h: nat, p: nat)
    ensures (a * h) * (100 * p) == (a * p) * (h * 100)
    ensures (h * h) * 10_000 == (h * 100) * (h * 100)
  {
    assert a * h * p == a * p * h;
    assert h * h * 100 == h * 100 * h;
  }

  lemma {:induction false} ShownProduct(prices: seq<nat>)
    ensures Odds.Product(Map(Shown, prices)) == Times(Odds.Product(prices), Hundreds(|prices|))
    ensures Odds.Scale(|prices|) == Times(Hundreds(|prices|), Hundreds(|prices|))
  {
    if prices != [] {
      var front, p := prices[..|prices| - 1], prices[|prices| - 1];
      ShownProduct(front);
      assert prices == front + [p] && Map(Shown, prices) == Map(Shown, front) + [Shown(p)];
      ProductStep(front, p);
      ProductStep(Map(Shown, front), Shown(p));
      ShownStep(Odds.Product(front), Hundreds(|front|), p);
    }
  }

  lemma HalfUpCancels(r: int, n: int, d: int)
    requires d > 0 && Odds.HalfUp(r, n * d, d * d)
    ensures Odds.HalfUp(r, n, d)
  {
    assert 2 * (n * d) - d * d == d * (2 * n - d) && 2 * (n * d) + d * d == d * (2 * n + d);
    assert 2 * (d * d * r) == d * (2 * (d * r));
    Odds.MulCancel(d, 2 * (d * r), 2 * n + d);
    if 2 * (d * r) <= 2 * n - d {
      Odds.MulOrder(d, 2 * (d * r), 2 * n - d);
    }
  }

  lemma HalfUpAgainstFloor(r: int, n: nat, d: nat)
    requires d > 0 && Odds.HalfUp(r, n, d)
    ensures r - Money.Quotient(n, d) == if 2 * Money.Remainder(n, d) < d then 0 else 1
  {
    var e := r - n / d;
    assert n == d * (n / d) + n % d;
    assert d * e == d * r - d * (n / d);
    if e >= 2 {
      Odds.MulOrder(d, 2, e);
    }
    if e <= -1 {
      Odds.MulOrder(d, e, -1);
    }
  }

  lemma ShownIsHalfUp(stake: nat, prices: seq<nat>)
    requires stake > 0 && prices != []
    ensures Odds.HalfUp(Odds.EstimateReturn(stake, Map(Shown, prices)),
                        Times(stake, Odds.Product(prices)), Hundreds(|prices|))
  {
    var d := Hundreds(|prices|);
    ShownProduct(prices);
    Odds.ReturnIsHalfUp(stake, Map(Shown, prices));
    Odds.MulAssociates(stake, Odds.Product(prices), d);
    HalfUpCancels(Odds.EstimateReturn(stake, Map(Shown, prices)), Times(stake, Odds.Product(prices)), d);
  }

  /** What is floored away, in hundredths to the number of legs of a minor unit. */
  function Remainder(stake: nat, prices: seq<nat>): nat {
    Money.Remainder(Times(stake, Odds.Product(prices)), Hundreds(|prices|))
  }

  /**
   * With every leg won, the slip showed what is paid or one minor unit more, and the same exactly when the
   * fraction that is floored away is less than a half.
   */
  lemma ShownAgainstPaid(stake: nat, bet: seq<Leg>, prices: seq<nat>)
    requires stake > 0 && bet != [] && PlacedAt(Quotes(bet), prices) && forall l | l in Quotes(bet) :: l.outcome == WON
    ensures ResolveBet(stake, bet) == Ok(Resolution(WON, Paid(stake, prices)))
    ensures Odds.EstimateReturn(stake, Map(Shown, prices)) - Paid(stake, prices)
            == if 2 * Remainder(stake, prices) < Hundreds(|prices|) then 0 else 1
  {
    AllWonPays(stake, Quotes(bet), prices);
    ShownLessPaid(stake, prices);
  }

  lemma ShownLessPaid(stake: nat, prices: seq<nat>)
    requires stake > 0 && prices != []
    ensures Odds.EstimateReturn(stake, Map(Shown, prices)) - Paid(stake, prices)
            == if 2 * Remainder(stake, prices) < Hundreds(|prices|) then 0 else 1
  {
    ShownIsHalfUp(stake, prices);
    HalfUpAgainstFloor(Odds.EstimateReturn(stake, Map(Shown, prices)), Times(stake, Odds.Product(prices)),
                       Hundreds(|prices|));
  }

  lemma AllWonPays(stake: nat, legs: seq<Quoted>, prices: seq<nat>)
    requires legs != [] && PlacedAt(legs, prices) && forall l | l in legs :: l.outcome == WON
    ensures ResolveQuotes(stake, legs) == Ok(Resolution(WON, Paid(stake, prices)))
  {
    AllWinning(legs);
    AllReadable(legs, prices);
  }

  lemma {:induction false} AllWinning(legs: seq<Quoted>)
    requires forall l | l in legs :: l.outcome == WON
    ensures Winning(legs) == legs
  {
    if legs != [] {
      var n := |legs| - 1;
      assert legs == legs[..n] + [legs[n]];
      AllWinning(legs[..n]);
      WinningStep(legs[..n], legs[n]);
    }
  }

  lemma {:induction false} AllReadable(legs: seq<Quoted>, prices: seq<nat>)
    requires PlacedAt(legs, prices)
    ensures Prices(legs) == Some(prices)
  {
    if legs != [] {
      var n := |legs| - 1;
      AllReadable(legs[..n], prices[..n]);
      PricesStep(legs[..n], legs[n]);
      assert legs == legs[..n] + [legs[n]] && prices == prices[..n] + [prices[n]];
    }
  }

  lemma OnePointFive()
    ensures FormatHundredths(150) == "1.50"
  {
    assert Print(50) == Print(5) + ['0'] == "50";
    assert Print(1) == "1";
  }

  lemma OneAndAHalf()
    ensures Odds.Product([150]) == 150 && Hundreds(0) == 1 && Hundreds(1) == 100
    ensures Paid(1, [150]) == 1 && Remainder(1, [150]) == 50
  {
    ProductStep([], 150);
    assert [] + [150] == [150] && Odds.Product([]) == 1;
    assert Hundreds(1) == Hundreds(0) * 100;
    assert Times(1, 150) == 150;
  }

  lemma QuotedOnce(leg: Leg, price: nat)
    requires OddsToHundredths(leg.odds) == Some(price)
    ensures PlacedAt(Quotes([leg]), [price]) && Quotes([leg]) == [Quoted(leg.outcome, Some(price))]
  {
  }

  /** One unit at 1.50: the slip shows a return of two, and one is paid. */
  lemma ShownCanExceedPaid(leg: Leg)
    requires leg == Leg(WON, "1.50")
    ensures StoredAt([leg], [150])
    ensures PriceSlip(1, [150]) == Ok(Some(SlipPrice(150, 1)))
    ensures ResolveBet(1, [leg]) == Ok(Resolution(WON, 1))
    ensures Odds.EstimateReturn(1, Map(Shown, [150])) == 2
  {
    OnePointFive();
    OneAndAHalf();
    FormattedPriceReadsBack(150);
    QuotedOnce(leg, 150);
    QuotedOnceSettles(Quotes([leg]), leg.outcome);
  }

  lemma QuotedOnceSettles(legs: seq<Quoted>, outcome: Outcome)
    requires outcome == WON && legs == [Quoted(outcome, Some(150))]
    requires Odds.Product([150]) == 150 && Paid(1, [150]) == 1 && Remainder(1, [150]) == 50
    requires Hundreds(0) == 1 && Hundreds(1) == 100
    ensures PriceSlip(1, [150]) == Ok(Some(SlipPrice(150, 1)))
    ensures ResolveQuotes(1, legs) == Ok(Resolution(WON, 1))
    ensures Odds.EstimateReturn(1, Map(Shown, [150])) == 2
  {
    AllWonPays(1, legs, [150]);
    ShownLessPaid(1, [150]);
  }
}
