/** Decimal notation of naturals: printing, padding and reading back. */
module Decimal {

  predicate IsDigit(c: char) { '0' <= c <= '9' }

  predicate AllDigits(s: string) {
    forall i | 0 <= i < |s| :: IsDigit(s[i])
  }

  function DigitChar(d: nat): (c: char)
    requires d < 10
    ensures IsDigit(c) && DigitValue(c) == d
  {
    '0' + d as char
  }

  function DigitValue(c: char): (d: nat)
    requires IsDigit(c)
    ensures d < 10
  {
    (c - '0') as nat
  }

  /** No leading zero, except for zero itself. */
  function Print(n: nat): (s: string)
    ensures s != [] && AllDigits(s)
  {
    if n < 10 then [DigitChar(n)] else Print(n / 10) + [DigitChar(n % 10)]
  }

  function Read(s: string): nat
    requires AllDigits(s)
  {
    if s == [] then 0 else 10 * Read(s[..|s| - 1]) + DigitValue(s[|s| - 1])
  }

  function Pow10(k: nat): (p: nat)
    ensures p > 0
  {
    if k == 0 then 1 else 10 * Pow10(k - 1)
  }

  function Zeros(k: nat): (s: string)
    ensures |s| == k && AllDigits(s)
    ensures forall i | 0 <= i < k :: s[i] == '0'
  {
    seq(k, _ => '0')
  }

  function PadStart(s: string, width: nat): string {
    if |s| < width then Zeros(width - |s|) + s else s
  }

  function PadEnd(s: string, width: nat): string {
    if |s| < width then s + Zeros(width - |s|) else s
  }

  lemma {:induction false} ReadPrint(n: nat)
    ensures Read(Print(n)) == n
  {
    if n >= 10 {
      ReadPrint(n / 10);
      assert Print(n)[..|Print(n)| - 1] == Print(n / 10);
    }
  }

  lemma {:induction false} PrintFits(n: nat, width: nat)
    requires n < Pow10(width) && width > 0
    ensures |Print(n)| <= width
  {
    if n >= 10 {
      PrintFits(n / 10, width - 1);
    }
  }

  lemma {:induction false} ReadAppend(a: string, b: string)
    requires AllDigits(a) && AllDigits(b)
    ensures AllDigits(a + b) && Read(a + b) == Read(a) * Pow10(|b|) + Read(b)
  {
    if b == [] {
      assert a + b == a;
    } else {
      var front := b[..|b| - 1];
      ReadAppend(a, front);
      assert (a + b)[..|a + b| - 1] == a + front;
      ShiftSum(Read(a), Pow10(|front|), Read(front), DigitValue(b[|b| - 1]));
    }
  }

  lemma ShiftSum(a: nat, p: nat, r: nat, d: nat)
    ensures 10 * (a * p + r) + d == a * (10 * p) + (10 * r + d)
  {
  }

  lemma {:induction false} ReadBelow(s: string)
    requires AllDigits(s)
    ensures Read(s) < Pow10(|s|)
  {
    if s != [] {
      ReadBelow(s[..|s| - 1]);
    }
  }

  lemma {:induction false} ReadZeros(k: nat)
    ensures Read(Zeros(k)) == 0
  {
    if k > 0 {
      ReadZeros(k - 1);
      assert Zeros(k)[..k - 1] == Zeros(k - 1);
    }
  }

  lemma LeadingZeros(k: nat, s: string)
    requires AllDigits(s)
    ensures AllDigits(Zeros(k) + s) && Read(Zeros(k) + s) == Read(s)
  {
    ReadAppend(Zeros(k), s);
    ReadZeros(k);
  }

  lemma {:induction false} Pow10Grows(a: nat, b: nat)
    requires a <= b
    ensures Pow10(a) <= Pow10(b)
  {
    if a < b {
      Pow10Grows(a, b - 1);
    }
  }

  /** A number is printed in so many digits exactly if it is below that power of ten. */
  lemma PrintLength(n: nat, width: nat)
    requires width > 0
    ensures |Print(n)| <= width <==> n < Pow10(width)
  {
    if n < Pow10(width) {
      PrintFits(n, width);
    } else if |Print(n)| <= width {
      ReadPrint(n);
      ReadBelow(Print(n));
      Pow10Grows(|Print(n)|, width);
    }
  }

  lemma PaddingReadsBack(s: string, width: nat)
    requires AllDigits(s) && |s| <= width
    ensures |PadStart(s, width)| == width && AllDigits(PadStart(s, width)) && Read(PadStart(s, width)) == Read(s)
  {
    if |s| < width {
      LeadingZeros(width - |s|, s);
    }
  }

  lemma PaddedReadsBack(n: nat, width: nat)
    requires n < Pow10(width) && width > 0
    ensures var s := PadStart(Print(n), width);
            |s| == width && AllDigits(s) && Read(s) == n
  {
    PrintFits(n, width);
    ReadPrint(n);
    PaddingReadsBack(Print(n), width);
  }

  lemma {:induction false} Pow10Adds(a: nat, b: nat)
    ensures Pow10(a + b) == Pow10(a) * Pow10(b)
  {
    if a > 0 {
      Pow10Adds(a - 1, b);
    }
  }
}
