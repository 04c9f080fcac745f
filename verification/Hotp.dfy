/**
 * The authenticator code of one step: base32 secret to key bytes, HMAC over the counter, dynamic
 * truncation. The HMAC itself is a parameter. RFC 4648 section 6 and RFC 4226 section 5.3.
 */
module Hotp {
  import opened Decimal

  type Byte = n: nat | n < 256
  type Bit = n: nat | n < 2

  const ALPHABET := "ABCDEFGHIJKLMNOPQRSTUVWXYZ234567"

  /** The letters of the alphabet, by position. `AlphabetTable` ties both directions to the table itself. */
  predicate IsLetter(c: char) { 'A' <= c <= 'Z' || '2' <= c <= '7' }

  predicate AllLetters(text: string) {
    forall i | 0 <= i < |text| :: IsLetter(text[i])
  }

  function LetterAt(i: nat): (c: char)
    requires i < 32
    ensures IsLetter(c) && Position(c) == i
  {
    if i < 26 then 'A' + i as char else '2' + (i - 26) as char
  }

  function Position(c: char): (i: nat)
    requires IsLetter(c)
    ensures i < 32
  {
    if c <= '7' then (c - '2') as int + 26 else (c - 'A') as int
  }

  /** `LetterAt` indexes the table, and `Position` is the `indexOf` of each of its letters. */
  lemma AlphabetTable(i: nat)
    requires i < 32
    ensures |ALPHABET| == 32 && ALPHABET[i] == LetterAt(i)
    ensures Position(ALPHABET[i]) == i && ALPHABET[i] !in ALPHABET[..i]
    ensures forall c :: c in ALPHABET <==> IsLetter(c)
  {
    assert ALPHABET[i] == LetterAt(i) by { TableEntry(i); }
    forall k | 0 <= k < i
      ensures ALPHABET[k] != ALPHABET[i]
    {
      TableEntry(k);
    }
    forall c | IsLetter(c)
      ensures c in ALPHABET
    {
      TableEntry(Position(c));
      assert LetterAt(Position(c)) == c;
    }
    forall c | c in ALPHABET
      ensures IsLetter(c)
    {
      var k :| 0 <= k < |ALPHABET| && ALPHABET[k] == c;
      TableEntry(k);
    }
  }

  lemma TableEntry(i: nat)
    requires i < 32
    ensures |ALPHABET| == 32 && ALPHABET[i] == LetterAt(i)
  {
  }

  // ---- Bits ----

  function Pow2(k: nat): (p: nat)
    ensures p > 0
  {
    if k == 0 then 1 else 2 * Pow2(k - 1)
  }

  /** `toString(2)` padded with zeros to `width`. */
  function Bits(value: nat, width: nat): (bits: seq<Bit>)
    ensures |bits| == width
  {
    if width == 0 then [] else Bits(value / 2, width - 1) + [value % 2]
  }

  /** `parseInt` in base two. */
  function Value(bits: seq<Bit>): nat {
    if bits == [] then 0 else 2 * Value(bits[..|bits| - 1]) + bits[|bits| - 1]
  }

  lemma {:induction false} ValueOfBits(value: nat, width: nat)
    requires value < Pow2(width)
    ensures Value(Bits(value, width)) == value
  {
    if width > 0 {
      ValueOfBits(value / 2, width - 1);
      assert Bits(value, width)[..width - 1] == Bits(value / 2, width - 1);
    }
  }

  lemma {:induction false} BitsOfValue(bits: seq<Bit>)
    ensures Value(bits) < Pow2(|bits|) && Bits(Value(bits), |bits|) == bits
  {
    if bits != [] {
      BitsOfValue(bits[..|bits| - 1]);
    }
  }

  lemma SmallPowers()
    ensures Pow2(5) == 32 && Pow2(8) == 256
  {
    assert Pow2(2) == 4 && Pow2(5) == 8 * Pow2(2) && Pow2(8) == 8 * Pow2(5);
  }

  /** The full groups of `size` bits, as the global match of `.{size}` finds them: a shorter rest is dropped. */
  function Groups(bits: seq<Bit>, size: nat): (groups: seq<seq<Bit>>)
    requires size > 0
    ensures forall g | g in groups :: |g| == size
  {
    if |bits| < size then [] else [bits[..size]] + Groups(bits[size..], size)
  }

  // ---- Base32 ----

  function BytesToBits(bytes: seq<Byte>): (bits: seq<Bit>)
    ensures |bits| == 8 * |bytes|
  {
    if bytes == [] then [] else Bits(bytes[0], 8) + BytesToBits(bytes[1..])
  }

  function EncodeGroup(group: seq<Bit>): (c: char)
    requires |group| == 5
    ensures IsLetter(c)
  {
    BitsOfValue(group);
    SmallPowers();
    LetterAt(Value(group))
  }

  function EncodeGroups(groups: seq<seq<Bit>>): (text: string)
    requires forall g | g in groups :: |g| == 5
    ensures |text| == |groups| && AllLetters(text)
  {
    if groups == [] then [] else [EncodeGroup(groups[0])] + EncodeGroups(groups[1..])
  }

  /** `base32Secret`, for bytes of any number. */
  function Encode(bytes: seq<Byte>): (text: string)
    ensures AllLetters(text)
  {
    EncodeGroups(Groups(BytesToBits(bytes), 5))
  }

  function TextToBits(text: string): (bits: seq<Bit>)
    requires AllLetters(text)
    ensures |bits| == 5 * |text|
  {
    if text == [] then [] else Bits(Position(text[0]), 5) + TextToBits(text[1..])
  }

  function GroupsToBytes(groups: seq<seq<Bit>>): (bytes: seq<Byte>)
    requires forall g | g in groups :: |g| == 8
    ensures |bytes| == |groups|
  {
    if groups == [] then []
    else
      BitsOfValue(groups[0]);
      SmallPowers();
      [Value(groups[0])] + GroupsToBytes(groups[1..])
  }

  /** The key bytes `hotp` takes from a secret over the alphabet. */
  function Decode(text: string): seq<Byte>
    requires AllLetters(text)
  {
    GroupsToBytes(Groups(TextToBits(text), 8))
  }

  lemma LetterBits(group: seq<Bit>)
    requires |group| == 5
    ensures Bits(Position(EncodeGroup(group)), 5) == group
  {
    BitsOfValue(group);
    SmallPowers();
  }

  function Full(n: nat, size: nat): nat
    requires size > 0
  {
    n - n % size
  }

  lemma FullStep(bits: seq<Bit>)
    requires |bits| >= 5
    ensures bits[..5] + bits[5..][..Full(|bits[5..]|, 5)] == bits[..Full(|bits|, 5)]
  {
    FullLess(|bits|);
    FrontOfRest(bits, Full(|bits[5..]|, 5));
  }

  lemma FullLess(n: nat)
    requires n >= 5
    ensures Full(n, 5) == 5 + Full(n - 5, 5)
  {
  }

  lemma FrontOfRest(bits: seq<Bit>, k: nat)
    requires 5 + k <= |bits|
    ensures bits[..5] + bits[5..][..k] == bits[..5 + k]
  {
  }

  lemma FirstLetter(c: char, text: string)
    requires IsLetter(c) && AllLetters(text)
    ensures AllLetters([c] + text) && TextToBits([c] + text) == Bits(Position(c), 5) + TextToBits(text)
  {
    assert ([c] + text)[1..] == text;
  }

  lemma {:induction false} TextBitsOfGroups(bits: seq<Bit>)
    ensures TextToBits(EncodeGroups(Groups(bits, 5))) == bits[..Full(|bits|, 5)]
  {
    if |bits| >= 5 {
      var first, rest := bits[..5], bits[5..];
      var text := EncodeGroups(Groups(rest, 5));
      TextBitsOfGroups(rest);
      LetterBits(first);
      FullStep(bits);
      FirstLetter(EncodeGroup(first), text);
      assert EncodeGroups(Groups(bits, 5)) == [EncodeGroup(first)] + text by {
        assert Groups(bits, 5)[1..] == Groups(rest, 5);
      }
    }
  }

  lemma FirstByte(b: Byte, bits: seq<Bit>, all: seq<Bit>)
    requires all == Bits(b, 8) + bits
    ensures GroupsToBytes(Groups(all, 8)) == [b] + GroupsToBytes(Groups(bits, 8))
  {
    SmallPowers();
    ValueOfBits(b, 8);
    assert all[..8] == Bits(b, 8) && all[8..] == bits;
    assert Groups(all, 8)[1..] == Groups(bits, 8);
  }

  lemma BitsStep(bytes: seq<Byte>, rest: seq<Bit>)
    requires bytes != []
    ensures BytesToBits(bytes) + rest == Bits(bytes[0], 8) + (BytesToBits(bytes[1..]) + rest)
  {
  }

  /** Fewer than eight bits after the last byte are dropped. */
  lemma {:induction false} WholeBytes(bytes: seq<Byte>, rest: seq<Bit>, all: seq<Bit>)
    requires |rest| < 8 && all == BytesToBits(bytes) + rest
    ensures GroupsToBytes(Groups(all, 8)) == bytes
  {
    if bytes == [] {
      assert all == rest;
    } else {
      var tail := BytesToBits(bytes[1..]) + rest;
      BitsStep(bytes, rest);
      WholeBytes(bytes[1..], rest, tail);
      FirstByte(bytes[0], tail, all);
    }
  }

  lemma {:induction false} FrontBits(bytes: seq<Byte>, k: nat)
    requires k <= |bytes|
    ensures BytesToBits(bytes)[..8 * k] == BytesToBits(bytes[..k])
  {
    if k > 0 {
      FrontBits(bytes[1..], k - 1);
      assert bytes[..k][1..] == bytes[1..][..k - 1];
    }
  }

  lemma Cut<T>(s: seq<T>, m: nat, n: nat)
    requires m <= n <= |s|
    ensures s[..n] == s[..m] + s[m..n]
  {
  }

  lemma BytesOfPrefix(bytes: seq<Byte>, kept: nat)
    requires kept <= 8 * |bytes|
    ensures GroupsToBytes(Groups(BytesToBits(bytes)[..kept], 8)) == bytes[..kept / 8]
  {
    var k, bits := kept / 8, BytesToBits(bytes);
    FrontBits(bytes, k);
    Cut(bits, 8 * k, kept);
    WholeBytes(bytes[..k], bits[8 * k..kept], bits[..kept]);
  }

  lemma WholeBlocks(n: nat)
    ensures Full(8 * n, 5) / 8 == n <==> n % 5 == 0
  {
    var q, r := n / 5, n % 5;
    assert 8 * n == 5 * (8 * q) + 8 * r;
  }

  /**
   * Decoding gives back the bytes encoded, except those whose bits fall in the dropped last group: the
   * round trip is exact if and only if the number of bytes is a multiple of five. The secret has twenty.
   */
  lemma DecodeEncode(bytes: seq<Byte>)
    ensures Decode(Encode(bytes)) == bytes[..Full(8 * |bytes|, 5) / 8]
    ensures Decode(Encode(bytes)) == bytes <==> |bytes| % 5 == 0
  {
    var bits := BytesToBits(bytes);
    var kept := Full(|bits|, 5);
    TextBitsOfGroups(bits);
    assert Decode(Encode(bytes)) == GroupsToBytes(Groups(bits[..kept], 8));
    BytesOfPrefix(bytes, kept);
    WholeBlocks(|bytes|);
  }

  // ---- Counter and truncation ----

  function BigEndian(n: nat, width: nat): (bytes: seq<Byte>)
    ensures |bytes| == width
  {
    if width == 0 then [] else BigEndian(n / 256, width - 1) + [n % 256]
  }

  function FromBigEndian(bytes: seq<Byte>): nat {
    if bytes == [] then 0 else 256 * FromBigEndian(bytes[..|bytes| - 1]) + bytes[|bytes| - 1]
  }

  function Pow256(k: nat): nat {
    if k == 0 then 1 else 256 * Pow256(k - 1)
  }

  /** The counter is the step, as eight bytes, most significant first. */
  lemma {:induction false} CounterReadsBack(n: nat, width: nat)
    requires n < Pow256(width)
    ensures FromBigEndian(BigEndian(n, width)) == n
  {
    if width > 0 {
      CounterReadsBack(n / 256, width - 1);
      assert BigEndian(n, width)[..width - 1] == BigEndian(n / 256, width - 1);
    }
  }

  type Digest = d: seq<Byte> | |d| == 20 witness seq(20, _ => 0)

  function At(bytes: seq<Byte>, i: nat): (b: nat)
    requires i < |bytes|
    ensures b < 256
  {
    bytes[i]
  }

  /** `readUInt32BE`; the call must stay inside the buffer. */
  function ReadUInt32(bytes: seq<Byte>, at: nat): (n: nat)
    requires at + 4 <= |bytes|
  {
    ((At(bytes, at) * 256 + At(bytes, at + 1)) * 256 + At(bytes, at + 2)) * 256 + At(bytes, at + 3)
  }

  /** Masking with `0xf` and `0x7fffffff` keeps the low four and the low thirty-one bits. */
  function Truncate(digest: Digest): (n: nat) {
    ReadUInt32(digest, At(digest, 19) % 16) % 0x8000_0000
  }

  function Code(digest: Digest): string {
    PadStart(Print(Truncate(digest) % 1_000_000), 6)
  }

  function Hotp(hmac: (seq<Byte>, seq<Byte>) -> Digest, secret: string, step: nat): string
    requires AllLetters(secret)
    requires step < Pow256(8)
  {
    Code(hmac(Decode(secret), BigEndian(step, 8)))
  }

  /** DT of RFC 4226 section 5.3: the four bytes at the offset the last nibble names, without the top bit. */
  function DynamicTruncation(digest: Digest): nat {
    var o := At(digest, 19) % 16;
    At(digest, o) % 128 * 0x100_0000 + At(digest, o + 1) * 0x1_0000 + At(digest, o + 2) * 0x100 + At(digest, o + 3)
  }

  lemma DropsTopBit(b0: nat, b1: nat, b2: nat, b3: nat)
    requires b0 < 256 && b1 < 256 && b2 < 256 && b3 < 256
    ensures (((b0 * 256 + b1) * 256 + b2) * 256 + b3) % 0x8000_0000
            == b0 % 128 * 0x100_0000 + b1 * 0x1_0000 + b2 * 0x100 + b3 < 0x8000_0000
  {
    var low := b0 % 128 * 0x100_0000 + b1 * 0x1_0000 + b2 * 0x100 + b3;
    assert b0 == 128 * (b0 / 128) + b0 % 128 && b0 / 128 <= 1;
    assert ((b0 * 256 + b1) * 256 + b2) * 256 + b3 == b0 / 128 * 0x8000_0000 + low;
  }

  lemma TruncateIsDynamicTruncation(digest: Digest)
    ensures Truncate(digest) == DynamicTruncation(digest) < 0x8000_0000
  {
    var o := At(digest, 19) % 16;
    DropsTopBit(At(digest, o), At(digest, o + 1), At(digest, o + 2), At(digest, o + 3));
  }

  /**
   * For a secret encoded from a whole number of five-byte blocks, the code is the six decimal digits of
   * the truncated HMAC of the original key and the step.
   */
  lemma HotpFollowsRfc4226(hmac: (seq<Byte>, seq<Byte>) -> Digest, key: seq<Byte>, step: nat)
    requires |key| % 5 == 0 && step < Pow256(8)
    ensures var code := Hotp(hmac, Encode(key), step);
            var counter := BigEndian(step, 8);
            && FromBigEndian(counter) == step
            && |code| == 6 && AllDigits(code)
            && Read(code) == DynamicTruncation(hmac(key, counter)) % 1_000_000
  {
    DecodeEncode(key);
    CounterReadsBack(step, 8);
    var digest := hmac(key, BigEndian(step, 8));
    TruncateIsDynamicTruncation(digest);
    assert Pow10(3) == 1000 && Pow10(6) == 1000 * Pow10(3);
    PaddedReadsBack(Truncate(digest) % 1_000_000, 6);
  }
}
