/**
 * Random helpers over the device's secure source, whose output is a parameter: whole numbers below a bound
 * by rejection, and the fixed bits of a version 4 UUID.
 */
module NodeCrypto {
  import opened Wrappers

  const UINT32_RANGE := 0x1_0000_0000
  const MAX_SAFE_INTEGER := 0x1F_FFFF_FFFF_FFFF

  predicate IsSafeInteger(n: int) { -MAX_SAFE_INTEGER <= n <= MAX_SAFE_INTEGER }

  type Word = w: int | 0 <= w < UINT32_RANGE

  /** Words from here on are drawn again. */
  function Limit(span: nat): int
    requires 0 < span
  {
    UINT32_RANGE - UINT32_RANGE % span
  }

  predicate BoundsFit(min: int, max: int) {
    IsSafeInteger(min) && IsSafeInteger(max) && 0 < max - min <= UINT32_RANGE
  }

  datatype Drawn = Number(value: int, used: nat) | RangeError | SourceDry

  /** Draws from `words` in order; `SourceDry` is a source that never gave an accepted word. */
  method RandomInt(first: int, second: Option<int>, words: seq<Word>) returns (r: Drawn)
    ensures var min := if second.None? then 0 else first;
            var max := if second.None? then first else second.value;
            && (r.RangeError? <==> !BoundsFit(min, max))
            && (r.Number? ==>
                  && 1 <= r.used <= |words|
                  && words[r.used - 1] < Limit(max - min)
                  && (forall i | 0 <= i < r.used - 1 :: words[i] >= Limit(max - min))
                  && r.value == min + words[r.used - 1] % (max - min)
                  && min <= r.value < max)
            && (r.SourceDry? ==> forall i | 0 <= i < |words| :: words[i] >= Limit(max - min))
  {
    var min := if second.None? then 0 else first;
    var max := if second.None? then first else second.value;
    var span := max - min;
    if !IsSafeInteger(min) || !IsSafeInteger(max) || span <= 0 || span > UINT32_RANGE {
      return RangeError;
    }
    var limit := UINT32_RANGE - UINT32_RANGE % span;
    for i := 0 to |words|
      invariant forall k | 0 <= k < i :: words[k] >= limit
    {
      if words[i] < limit {
        return Number(min + words[i] % span, i + 1);
      }
    }
    return SourceDry;
  }

  /** The accepted words that come out as `offset` above the lower bound. */
  ghost function Preimages(span: nat, offset: nat): set<int>
    requires 0 < span <= UINT32_RANGE
  {
    set w: int | 0 <= w < Limit(span) && w % span == offset
  }

  lemma {:induction false} CountMultiples(span: nat, offset: nat, blocks: nat)
    requires offset < span
    ensures |set w: int | 0 <= w < blocks * span && w % span == offset| == blocks
  {
    var s := set w: int | 0 <= w < blocks * span && w % span == offset;
    if blocks == 0 {
      assert s == {};
    } else {
      var before := set w: int | 0 <= w < (blocks - 1) * span && w % span == offset;
      var top := (blocks - 1) * span + offset;
      CountMultiples(span, offset, blocks - 1);
      ModOfMultiple(blocks - 1, span, offset);
      forall w
        ensures w in s <==> w in before || w == top
      {
        if w in s && w !in before {
          LastBlock(w, blocks - 1, span);
        }
        assert (blocks - 1) * span + span == blocks * span;
      }
      assert s == before + {top};
    }
  }

  lemma ModOfMultiple(q: nat, span: nat, r: nat)
    requires r < span
    ensures (q * span + r) % span == r
  {
    DivisionIsUnique(q * span + r, span, q, r);
  }

  lemma DivisionIsUnique(n: int, d: int, q: int, r: int)
    requires d > 0 && 0 <= r < d && n == q * d + r
    ensures n % d == r
  {
    var e := n / d - q;
    assert n == d * (n / d) + n % d;
    assert d * e == d * (n / d) - d * q;
    assert -d < d * e < d;
    SmallMultiple(d, e);
  }

  lemma SmallMultiple(d: int, e: int)
    requires d > 0 && -d < d * e < d
    ensures e == 0
  {
  }

  lemma LastBlock(w: int, q: nat, span: nat)
    requires span > 0 && q * span <= w < q * span + span
    ensures w % span == w - q * span
  {
    DivisionIsUnique(w, span, q, w - q * span);
  }

  /** No value is favoured: each comes from exactly `limit / span` of the accepted words. */
  lemma EveryValueEquallyLikely(span: nat, offset: nat)
    requires offset < span <= UINT32_RANGE
    ensures |Preimages(span, offset)| == Limit(span) / span
    ensures Limit(span) % span == 0
  {
    var blocks := UINT32_RANGE / span;
    assert UINT32_RANGE == span * blocks + UINT32_RANGE % span;
    assert Limit(span) == blocks * span;
    CountMultiples(span, offset, blocks);
    DivisionIsUnique(Limit(span), span, blocks, 0);
    assert Limit(span) / span == blocks;
  }

  /** More than half of all words are accepted, whatever the span. */
  lemma MostWordsAccepted(span: nat)
    requires 0 < span <= UINT32_RANGE
    ensures UINT32_RANGE < 2 * Limit(span) && Limit(span) <= UINT32_RANGE
  {
    var blocks, rest := UINT32_RANGE / span, UINT32_RANGE % span;
    assert UINT32_RANGE == span * blocks + rest;
    if blocks >= 1 {
      assert span * blocks >= span;
    }
  }

  // ---- Version 4 UUIDs ----

  /** Sixteen random bytes made a version 4 UUID of RFC 4122: version nibble 4, variant bits 10, the rest kept. */
  method StampVersion(bytes: array<bv8>)
    requires bytes.Length == 16
    modifies bytes
    ensures bytes[6] & 0xf0 == 0x40 && bytes[6] & 0x0f == old(bytes[6]) & 0x0f
    ensures bytes[8] & 0xc0 == 0x80 && bytes[8] & 0x3f == old(bytes[8]) & 0x3f
    ensures forall i | 0 <= i < 16 && i != 6 && i != 8 :: bytes[i] == old(bytes[i])
  {
    bytes[6] := (bytes[6] & 0x0f) | 0x40;
    bytes[8] := (bytes[8] & 0x3f) | 0x80;
  }
}
