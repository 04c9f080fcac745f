/**
 * Amounts in minor units, printed with a symbol and groups of three, and typed amounts read back digit by
 * digit. The currency is a parameter; the locale is one that groups by threes with commas.
 */
module Money {
  import opened Wrappers
  import opened Decimal
  import opened Text

  const MAX_SAFE_INTEGER := 9_007_199_254_740_991

  datatype Currency = Currency(symbol: string, minorUnits: nat)

  datatype Options = Options(alwaysSigned: bool, withFraction: bool)

  const PLAIN := Options(false, true)

  // ---- Printing ----

  function Abs(x: int): nat { if x < 0 then -x else x }

  /** The whole units, and the digits after the point, if the currency has any. */
  function Split(minorUnits: int, digits: nat): (nat, string) {
    var value, base := Abs(minorUnits), Pow10(digits);
    (Quotient(value, base), if digits == 0 then "" else PadStart(Print(Remainder(value, base)), digits))
  }

  function Quotient(n: nat, d: nat): nat
    requires d > 0
  {
    n / d
  }

  function Remainder(n: nat, d: nat): (r: nat)
    requires d > 0
    ensures r < d && n == Quotient(n, d) * d + r
  {
    n % d
  }

  function Group(digits: string): string {
    if |digits| <= 3 then digits else Group(digits[..|digits| - 3]) + ([','] + digits[|digits| - 3..])
  }

  function FormatMoney(minorUnits: int, currency: Currency, options: Options): string {
    var (whole, fraction) := Split(minorUnits, currency.minorUnits);
    var sign := if minorUnits < 0 then "-" else if options.alwaysSigned then "+" else "";
    var tail := if !options.withFraction || fraction == "" then "" else "." + fraction;
    sign + currency.symbol + Group(Print(whole)) + tail
  }

  /** Counted from the right, every fourth character of the grouped digits is a comma and no other is. */
  lemma {:induction false} GroupsOfThree(digits: string, k: nat)
    requires AllDigits(digits) && digits != [] && k < |Group(digits)|
    ensures var g := Group(digits); g[|g| - 1 - k] == ',' <==> k % 4 == 3
    ensures Group(digits)[0] != ','
  {
    if |digits| > 3 {
      var front := Group(digits[..|digits| - 3]);
      assert Group(digits) == front + ([','] + digits[|digits| - 3..]);
      if k >= 4 {
        GroupsOfThree(digits[..|digits| - 3], k - 4);
      } else {
        GroupsOfThree(digits[..|digits| - 3], 0);
      }
    }
  }

  // ---- Reading ----

  predicate IsSeparator(c: char) { IsSpace(c) || c == ',' || c == '_' }

  function Strip(text: string): string {
    if text == [] then []
    else if IsSeparator(text[0]) then Strip(text[1..])
    else [text[0]] + Strip(text[1..])
  }

  function RemoveFirst(text: string, part: string): string {
    if part <= text then text[|part|..]
    else if text == [] then []
    else [text[0]] + RemoveFirst(text[1..], part)
  }

  function Clean(text: string, currency: Currency): string {
    RemoveFirst(Strip(text), currency.symbol)
  }

  function PointIn(s: string): (i: nat)
    ensures i <= |s| && (forall k | 0 <= k < i :: s[k] != '.') && (i < |s| ==> s[i] == '.')
  {
    if s == [] || s[0] == '.' then 0 else 1 + PointIn(s[1..])
  }

  /** Digits, then perhaps a point and more digits: the two runs of digits, or nothing. */
  function MatchAmount(s: string): (r: Option<(string, string)>)
    ensures r.Some? ==> AllDigits(r.value.0) && AllDigits(r.value.1) && r.value.0 != []
  {
    var i := PointIn(s);
    var whole, fraction := s[..i], if i < |s| then s[i + 1..] else "";
    if whole != [] && AllDigits(whole) && AllDigits(fraction) then Some((whole, fraction)) else None
  }

  function MinorUnits(whole: string, fraction: string, digits: nat): nat
    requires AllDigits(whole) && AllDigits(fraction)
  {
    Read(whole) * Pow10(digits) + Read(PadEnd(if |fraction| > digits then fraction[..digits] else fraction, digits))
  }

  function ParseMoney(text: string, currency: Currency): Option<nat> {
    match MatchAmount(Clean(text, currency))
    case None => None
    case Some((whole, fraction)) =>
      var value := MinorUnits(whole, fraction, currency.minorUnits);
      if value > MAX_SAFE_INTEGER then None else Some(value)
  }

  // ---- What is cleaned away ----

  predicate OccursAt(text: string, part: string, i: nat) {
    i + |part| <= |text| && text[i..i + |part|] == part
  }

  lemma OccursInRest(text: string, part: string, i: nat)
    requires text != []
    ensures OccursAt(text[1..], part, i) <==> OccursAt(text, part, i + 1)
  {
    if i + |part| <= |text[1..]| {
      assert text[1..][i..i + |part|] == text[i + 1..i + 1 + |part|];
    }
  }

  lemma FirstOccurs(text: string, part: string)
    ensures part <= text <==> OccursAt(text, part, 0)
  {
  }

  /** The first occurrence of `part`. */
  ghost predicate FirstAt(text: string, part: string, i: nat) {
    OccursAt(text, part, i) && forall k: nat | k < i :: !OccursAt(text, part, k)
  }

  lemma FirstInRest(text: string, part: string, i: nat)
    requires FirstAt(text, part, i) && i > 0
    ensures text != [] && !(part <= text) && FirstAt(text[1..], part, i - 1)
  {
    FirstOccurs(text, part);
    assert !OccursAt(text, part, 0);
    OccursInRest(text, part, i - 1);
    forall k: nat | k < i - 1
      ensures !OccursAt(text[1..], part, k)
    {
      OccursInRest(text, part, k);
    }
  }

  lemma FirstAtFront(text: string, part: string)
    requires OccursAt(text, part, 0)
    ensures RemoveFirst(text, part) == text[..0] + text[|part|..]
  {
    FirstOccurs(text, part);
  }

  lemma FirstIsKept(text: string, part: string)
    requires text != [] && !(part <= text)
    ensures RemoveFirst(text, part) == [text[0]] + RemoveFirst(text[1..], part)
  {
  }

  /** The first occurrence of the symbol goes, wherever it stands, and nothing else. */
  lemma {:induction false} FirstOccurrenceGoes(text: string, part: string, i: nat)
    requires FirstAt(text, part, i)
    ensures RemoveFirst(text, part) == text[..i] + text[i + |part|..]
    decreases i
  {
    if i == 0 {
      FirstAtFront(text, part);
    } else {
      FirstInRest(text, part, i);
      FirstIsKept(text, part);
      FirstOccurrenceGoes(text[1..], part, i - 1);
      FrontAndBack(text, i, |part|);
    }
  }

  lemma FrontAndBack(text: string, i: nat, n: nat)
    requires 0 < i && i + n <= |text|
    ensures [text[0]] + (text[1..][..i - 1] + text[1..][i - 1 + n..]) == text[..i] + text[i + n..]
  {
  }

  lemma {:induction false} NothingGoes(text: string, part: string)
    requires forall i: nat :: !OccursAt(text, part, i)
    ensures RemoveFirst(text, part) == text
  {
    FirstOccurs(text, part);
    if text != [] {
      forall i: nat
        ensures !OccursAt(text[1..], part, i)
      {
        OccursInRest(text, part, i);
      }
      NothingGoes(text[1..], part);
      assert text == [text[0]] + text[1..];
    }
  }

  function StripPart(c: char): string {
    if IsSeparator(c) then [] else [c]
  }

  lemma StripStep(c: char, s: string)
    ensures Strip([c] + s) == StripPart(c) + Strip(s)
  {
    assert ([c] + s)[1..] == s;
  }

  lemma JoinsOnce(a: string, b: string, c: string)
    ensures a + (b + c) == a + b + c
  {
  }

  lemma {:induction false} StripAppend(a: string, b: string)
    ensures Strip(a + b) == Strip(a) + Strip(b)
  {
    if a == [] {
      assert a + b == b;
      assert Strip(a) + Strip(b) == Strip(b);
    } else {
      var c, rest := a[0], a[1..];
      StripAppend(rest, b);
      assert a == [c] + rest && a + b == [c] + (rest + b);
      StripStep(c, rest);
      StripStep(c, rest + b);
      JoinsOnce(StripPart(c), Strip(rest), Strip(b));
    }
  }

  /** White space, commas and underscores may stand anywhere. */
  lemma SeparatorsAreFree(before: string, separator: char, after: string, currency: Currency)
    requires separator == ',' || separator == '_' || IsSpace(separator)
    ensures ParseMoney(before + ([separator] + after), currency) == ParseMoney(before + after, currency)
  {
    StripAppend(before, [separator] + after);
    StripAppend(before, after);
    StripStep(separator, after);
  }

  // ---- What reading means ----

  /** `v` is the floor of `n * kept / all`. */
  predicate FloorOf(v: nat, n: nat, kept: nat, all: nat) {
    v * all <= n * kept < (v + 1) * all
  }

  /** `v` is the floor of `10^digits` times the number written `whole.fraction`. */
  predicate IsFloor(v: nat, whole: string, fraction: string, digits: nat)
    requires AllDigits(whole) && AllDigits(fraction)
  {
    FloorOf(v, Read(whole) * Pow10(|fraction|) + Read(fraction), Pow10(digits), Pow10(|fraction|))
  }

  lemma FloorOfLongFraction(w: nat, head: nat, tail: nat, kept: nat, cut: nat, fraction: nat, all: nat)
    requires tail < cut && kept > 0 && all == kept * cut && fraction == head * cut + tail
    ensures FloorOf(w * kept + head, w * all + fraction, kept, all)
  {
    var v := w * kept + head;
    assert w * (kept * cut) == w * kept * cut;
    assert w * kept * cut + head * cut == v * cut;
    assert (v * cut + tail) * kept == v * (kept * cut) + tail * kept;
    assert tail * kept < cut * kept;
    assert (v + 1) * (kept * cut) == v * (kept * cut) + kept * cut;
  }

  lemma FloorOfShortFraction(w: nat, f: nat, given: nat, filled: nat)
    requires given > 0
    ensures FloorOf(w * (given * filled) + f * filled, w * given + f, given * filled, given)
  {
    var n := w * given + f;
    assert w * (given * filled) + f * filled == n * filled;
    assert n * filled * given == n * (given * filled);
    assert (n * filled + 1) * given == n * filled * given + given;
  }

  lemma LongFractionIsFloor(whole: string, fraction: string, digits: nat)
    requires AllDigits(whole) && AllDigits(fraction) && |fraction| > digits
    ensures IsFloor(Read(whole) * Pow10(digits) + Read(fraction[..digits]), whole, fraction, digits)
  {
    var head, tail := fraction[..digits], fraction[digits..];
    CutFraction(head, tail);
    assert fraction == head + tail;
    FloorOfLongFraction(Read(whole), Read(head), Read(tail), Pow10(digits), Pow10(|tail|), Read(fraction),
        Pow10(|fraction|));
  }

  lemma CutFraction(head: string, tail: string)
    requires AllDigits(head) && AllDigits(tail)
    ensures AllDigits(head + tail) && Read(head + tail) == Read(head) * Pow10(|tail|) + Read(tail)
    ensures Read(tail) < Pow10(|tail|) && Pow10(|head + tail|) == Pow10(|head|) * Pow10(|tail|)
  {
    ReadAppend(head, tail);
    ReadBelow(tail);
    Pow10Adds(|head|, |tail|);
  }

  lemma ShortFractionIsFloor(whole: string, fraction: string, fill: nat)
    requires AllDigits(whole) && AllDigits(fraction)
    ensures AllDigits(fraction + Zeros(fill))
    ensures IsFloor(Read(whole) * Pow10(|fraction| + fill) + Read(fraction + Zeros(fill)),
                    whole, fraction, |fraction| + fill)
  {
    ReadAppend(fraction, Zeros(fill));
    ReadZeros(fill);
    Pow10Adds(|fraction|, fill);
    FloorOfShortFraction(Read(whole), Read(fraction), Pow10(|fraction|), Pow10(fill));
  }

  lemma MinorUnitsIsFloor(whole: string, fraction: string, digits: nat)
    requires AllDigits(whole) && AllDigits(fraction)
    ensures IsFloor(MinorUnits(whole, fraction, digits), whole, fraction, digits)
  {
    if |fraction| > digits {
      LongFractionIsFloor(whole, fraction, digits);
    } else {
      var fill := digits - |fraction|;
      ShortFractionIsFloor(whole, fraction, fill);
      assert PadEnd(fraction, digits) == fraction + Zeros(fill);
    }
  }

  lemma FloorIsUnique(v: nat, u: nat, whole: string, fraction: string, digits: nat)
    requires AllDigits(whole) && AllDigits(fraction)
    requires IsFloor(v, whole, fraction, digits) && IsFloor(u, whole, fraction, digits)
    ensures v == u
  {
    var k := Pow10(|fraction|);
    NextMultiple(v, u, k);
    NextMultiple(u, v, k);
  }

  lemma NextMultiple(a: nat, b: nat, k: nat)
    ensures a < b ==> (a + 1) * k <= b * k
  {
  }

  /** `text` is digits, or digits, a point and perhaps more digits: an amount of `whole` units and `fraction`. */
  predicate Writes(text: string, whole: string, fraction: string) {
    && whole != [] && AllDigits(whole) && AllDigits(fraction)
    && (text == whole + "." + fraction || (fraction == [] && text == whole))
  }

  lemma PointFound(whole: string, rest: string)
    requires AllDigits(whole) && (rest == [] || rest[0] == '.')
    ensures PointIn(whole + rest) == |whole|
  {
    var s := whole + rest;
    assert forall k | 0 <= k < |whole| :: s[k] == whole[k] && IsDigit(whole[k]);
    assert rest != [] ==> s[|whole|] == '.';
  }

  lemma WrittenMatches(whole: string, fraction: string, pointed: bool)
    requires whole != [] && AllDigits(whole) && AllDigits(fraction) && (pointed || fraction == [])
    ensures MatchAmount(if pointed then whole + "." + fraction else whole) == Some((whole, fraction))
  {
    var rest := if pointed then "." + fraction else "";
    var s := whole + rest;
    PointFound(whole, rest);
    assert s == if pointed then whole + "." + fraction else whole;
    assert s[..|whole|] == whole;
    assert pointed ==> s[|whole| + 1..] == fraction;
  }

  /** The matcher finds an amount exactly where one is written, and finds the one written. */
  lemma MatchesWhatIsWritten(text: string, whole: string, fraction: string)
    ensures MatchAmount(text) == Some((whole, fraction)) <==> Writes(text, whole, fraction)
  {
    if Writes(text, whole, fraction) {
      WrittenMatches(whole, fraction, text == whole + "." + fraction);
    }
    if MatchAmount(text) == Some((whole, fraction)) {
      var i := PointIn(text);
      assert i < |text| ==> text == text[..i] + "." + text[i + 1..];
    }
  }

  /** `text` writes an amount whose floor in minor units is `v`. */
  ghost predicate Means(text: string, v: nat, digits: nat) {
    exists whole, fraction :: Writes(text, whole, fraction) && IsFloor(v, whole, fraction, digits)
  }

  lemma MeantIsRead(text: string, whole: string, fraction: string, currency: Currency, v: nat)
    requires Writes(Clean(text, currency), whole, fraction) && v <= MAX_SAFE_INTEGER
    requires IsFloor(v, whole, fraction, currency.minorUnits)
    ensures ParseMoney(text, currency) == Some(v)
  {
    MatchesWhatIsWritten(Clean(text, currency), whole, fraction);
    MinorUnitsIsFloor(whole, fraction, currency.minorUnits);
    FloorIsUnique(v, MinorUnits(whole, fraction, currency.minorUnits), whole, fraction, currency.minorUnits);
  }

  lemma ReadIsMeant(text: string, currency: Currency) returns (whole: string, fraction: string)
    requires ParseMoney(text, currency).Some?
    ensures Writes(Clean(text, currency), whole, fraction)
    ensures ParseMoney(text, currency).value <= MAX_SAFE_INTEGER
    ensures IsFloor(ParseMoney(text, currency).value, whole, fraction, currency.minorUnits)
  {
    var m := MatchAmount(Clean(text, currency)).value;
    whole, fraction := m.0, m.1;
    MatchesWhatIsWritten(Clean(text, currency), whole, fraction);
    MinorUnitsIsFloor(whole, fraction, currency.minorUnits);
  }

  /** A text is read exactly when what is left of it writes an amount whose floor is safe, and then as that floor. */
  lemma ParsesToFloor(text: string, currency: Currency, v: nat)
    ensures ParseMoney(text, currency) == Some(v) <==>
            v <= MAX_SAFE_INTEGER && Means(Clean(text, currency), v, currency.minorUnits)
  {
    if v <= MAX_SAFE_INTEGER && Means(Clean(text, currency), v, currency.minorUnits) {
      var whole, fraction :|
        Writes(Clean(text, currency), whole, fraction) && IsFloor(v, whole, fraction, currency.minorUnits);
      MeantIsRead(text, whole, fraction, currency, v);
    }
    if ParseMoney(text, currency) == Some(v) {
      var whole, fraction := ReadIsMeant(text, currency);
    }
  }

  // ---- Printing and reading back ----

  /** A symbol the reader cannot take for part of the amount. */
  predicate ClearSymbol(symbol: string) {
    forall i | 0 <= i < |symbol| :: !IsDigit(symbol[i]) && symbol[i] != '.' && !IsSeparator(symbol[i])
  }

  predicate NoSeparators(s: string) {
    forall i | 0 <= i < |s| :: !IsSeparator(s[i])
  }

  lemma {:induction false} StripNothing(s: string)
    requires NoSeparators(s)
    ensures Strip(s) == s
  {
    if s != [] {
      StripNothing(s[1..]);
    }
  }

  lemma StripComma(before: string, after: string)
    requires NoSeparators(after)
    ensures Strip(before + ([','] + after)) == Strip(before) + after
  {
    StripNothing(after);
    StripStep(',', after);
    StripAppend(before, [','] + after);
  }

  lemma {:induction false} StripGroups(digits: string)
    requires AllDigits(digits)
    ensures Strip(Group(digits)) == digits
  {
    assert NoSeparators(digits);
    if |digits| <= 3 {
      StripNothing(digits);
    } else {
      var front, last := digits[..|digits| - 3], digits[|digits| - 3..];
      StripGroups(front);
      StripComma(Group(front), last);
      assert digits == front + last;
    }
  }

  lemma FormattedStrips(lead: string, digits: string, tail: string)
    requires NoSeparators(lead) && AllDigits(digits) && NoSeparators(tail)
    ensures Strip(lead + (Group(digits) + tail)) == lead + (digits + tail)
  {
    StripAppend(lead, Group(digits) + tail);
    StripAppend(Group(digits), tail);
    StripNothing(lead);
    StripGroups(digits);
    StripNothing(tail);
  }

  function Tail(fraction: string): string {
    if fraction == "" then "" else "." + fraction
  }

  lemma TailIsWritten(whole: string, fraction: string)
    ensures whole + Tail(fraction) == if fraction != [] then whole + "." + fraction else whole
  {
    assert fraction == [] ==> whole + Tail(fraction) == whole;
  }

  lemma AmountMatches(whole: string, fraction: string)
    requires whole != [] && AllDigits(whole) && AllDigits(fraction)
    ensures MatchAmount(whole + Tail(fraction)) == Some((whole, fraction))
  {
    TailIsWritten(whole, fraction);
    WrittenMatches(whole, fraction, fraction != []);
  }

  lemma SplitAddsUp(x: nat, digits: nat)
    ensures var (whole, fraction) := Split(x, digits);
            && AllDigits(fraction) && |fraction| == digits
            && whole == Quotient(x, Pow10(digits)) && whole * Pow10(digits) + Read(fraction) == x
  {
    if digits > 0 {
      PaddedReadsBack(Remainder(x, Pow10(digits)), digits);
    }
  }

  lemma RemovePrefix(part: string, rest: string)
    ensures RemoveFirst(part + rest, part) == rest
  {
    assert part <= part + rest;
  }

  /** What `FormatMoney` prints for an amount that is neither negative nor signed. */
  function Unsigned(whole: nat, fraction: string, currency: Currency): string {
    currency.symbol + Group(Print(whole)) + Tail(fraction)
  }

  lemma UnsignedReads(whole: nat, fraction: string, currency: Currency)
    requires ClearSymbol(currency.symbol) && AllDigits(fraction)
    ensures MatchAmount(Clean(Unsigned(whole, fraction, currency), currency)) == Some((Print(whole), fraction))
  {
    var symbol, digits, tail := currency.symbol, Print(whole), Tail(fraction);
    FormattedStrips(symbol, digits, tail);
    assert Unsigned(whole, fraction, currency) == symbol + (Group(digits) + tail);
    RemovePrefix(symbol, digits + tail);
    AmountMatches(digits, fraction);
  }

  lemma UnsignedParses(whole: nat, fraction: string, currency: Currency)
    requires ClearSymbol(currency.symbol) && AllDigits(fraction)
    ensures var value := MinorUnits(Print(whole), fraction, currency.minorUnits);
            value <= MAX_SAFE_INTEGER ==> ParseMoney(Unsigned(whole, fraction, currency), currency) == Some(value)
  {
    UnsignedReads(whole, fraction, currency);
  }

  /** Printing an amount and reading it back gives the amount. */
  lemma FormatReadsBack(x: nat, currency: Currency)
    requires x <= MAX_SAFE_INTEGER && ClearSymbol(currency.symbol)
    ensures ParseMoney(FormatMoney(x, currency, PLAIN), currency) == Some(x)
  {
    var (whole, fraction) := Split(x, currency.minorUnits);
    SplitAddsUp(x, currency.minorUnits);
    ReadPrint(whole);
    PlainIsUnsigned(x, currency);
    assert MinorUnits(Print(whole), fraction, currency.minorUnits) == x;
    UnsignedParses(whole, fraction, currency);
  }

  lemma PlainIsUnsigned(x: nat, currency: Currency)
    ensures var (whole, fraction) := Split(x, currency.minorUnits);
            FormatMoney(x, currency, PLAIN) == Unsigned(whole, fraction, currency)
  {
    var (whole, fraction) := Split(x, currency.minorUnits);
    NoSign(currency.symbol, Group(Print(whole)), Tail(fraction));
  }

  lemma NoSign(symbol: string, digits: string, tail: string)
    ensures "" + symbol + digits + tail == symbol + digits + tail
  {
    assert "" + symbol == symbol;
  }

  lemma NoFraction(whole: string, digits: nat)
    requires AllDigits(whole)
    ensures MinorUnits(whole, "", digits) == Read(whole) * Pow10(digits)
  {
    assert PadEnd("", digits) == Zeros(digits);
    ReadZeros(digits);
  }

  lemma WholeUnits(x: nat, digits: nat)
    ensures var whole := Quotient(x, Pow10(digits));
            MinorUnits(Print(whole), "", digits) == WholePart(x, digits)
  {
    ReadPrint(Quotient(x, Pow10(digits)));
    NoFraction(Print(Quotient(x, Pow10(digits))), digits);
  }

  lemma UnsignedIsRead(text: string, whole: nat, fraction: string, currency: Currency, value: nat)
    requires ClearSymbol(currency.symbol) && AllDigits(fraction) && text == Unsigned(whole, fraction, currency)
    requires value <= MAX_SAFE_INTEGER && value == MinorUnits(Print(whole), fraction, currency.minorUnits)
    ensures ParseMoney(text, currency) == Some(value)
  {
    UnsignedParses(whole, fraction, currency);
  }

  /** The whole units of an amount, in minor units. */
  function WholePart(x: nat, digits: nat): (value: nat)
    ensures value <= x
  {
    x - Remainder(x, Pow10(digits))
  }

  /** Printed without its fraction, an amount reads back as its whole units. */
  lemma WholeFormatReadsBack(x: nat, currency: Currency)
    requires x <= MAX_SAFE_INTEGER && ClearSymbol(currency.symbol)
    ensures ParseMoney(FormatMoney(x, currency, Options(false, false)), currency)
            == Some(WholePart(x, currency.minorUnits))
  {
    var whole := Quotient(x, Pow10(currency.minorUnits));
    WholeUnits(x, currency.minorUnits);
    WholeIsUnsigned(x, currency);
    UnsignedIsRead(FormatMoney(x, currency, Options(false, false)), whole, "", currency,
        WholePart(x, currency.minorUnits));
  }

  lemma WholeIsUnsigned(x: nat, currency: Currency)
    ensures FormatMoney(x, currency, Options(false, false))
            == Unsigned(Quotient(x, Pow10(currency.minorUnits)), "", currency)
  {
    NoSign(currency.symbol, Group(Print(Quotient(x, Pow10(currency.minorUnits)))), "");
  }

  /** A signed amount, owed or credited, is never read as an amount typed. */
  lemma SignedIsNeverRead(x: int, currency: Currency, options: Options)
    requires ClearSymbol(currency.symbol) && (x < 0 || options.alwaysSigned)
    ensures ParseMoney(FormatMoney(x, currency, options), currency) == None
  {
    var (whole, fraction) := Split(x, currency.minorUnits);
    SplitAddsUp(Abs(x), currency.minorUnits);
    SignedFormat(x, currency, options);
    SignedText(if x < 0 then '-' else '+', Print(whole), if options.withFraction then Tail(fraction) else "", currency);
  }

  lemma SignedFormat(x: int, currency: Currency, options: Options)
    requires x < 0 || options.alwaysSigned
    ensures var (whole, fraction) := Split(x, currency.minorUnits);
            FormatMoney(x, currency, options) ==
            [if x < 0 then '-' else '+'] + currency.symbol
                + (Group(Print(whole)) + if options.withFraction then Tail(fraction) else "")
  {
    var (whole, fraction) := Split(x, currency.minorUnits);
    var lead := (if x < 0 then "-" else "+") + currency.symbol;
    var digits, tail := Group(Print(whole)), if options.withFraction then Tail(fraction) else "";
    assert lead + digits + tail == lead + (digits + tail);
  }

  lemma SignedText(sign: char, digits: string, tail: string, currency: Currency)
    requires ClearSymbol(currency.symbol) && (sign == '-' || sign == '+') && AllDigits(digits) && NoSeparators(tail)
    ensures MatchAmount(Clean([sign] + currency.symbol + (Group(digits) + tail), currency)) == None
  {
    var lead := [sign] + currency.symbol;
    FormattedStrips(lead, digits, tail);
    var cleaned := RemoveFirst(lead + (digits + tail), currency.symbol);
    assert cleaned != [] && !IsDigit(cleaned[0]) && cleaned[0] != '.';
    assert PointIn(cleaned) > 0;
    assert cleaned[..PointIn(cleaned)][0] == cleaned[0];
  }
}
