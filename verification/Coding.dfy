/** Fixed-width and variable-length integers, length-prefixed strings. */
module Codings {

  newtype Byte = x: int | 0 <= x < 256
  type Bytes = seq<Byte>

  datatype Parsed<+T> = Malformed | Parsed(value: T, rest: Bytes)

  const TWO_7: int := 0x80
  const TWO_32: int := 0x1_0000_0000
  const TWO_64: int := 0x1_0000_0000_0000_0000

  // ----- Fixed width, least significant byte first -----

  function Fixed(v: nat, width: nat): (r: Bytes)
    ensures |r| == width
  {
    if width == 0 then [] else [(v % 256) as Byte] + Fixed(v / 256, width - 1)
  }

  function DecodeFixed(b: Bytes): nat {
    if b == [] then 0 else b[0] as nat + 256 * DecodeFixed(b[1..])
  }

  function Pow256(width: nat): (r: nat)
    ensures r >= 1
  {
    if width == 0 then 1 else 256 * Pow256(width - 1)
  }

  /** EncodeFixed32 and EncodeFixed64 are inverted by DecodeFixed32 and DecodeFixed64. */
  lemma {:induction false} FixedRoundTrip(v: nat, width: nat)
    requires v < Pow256(width)
    ensures DecodeFixed(Fixed(v, width)) == v
  {
    if width > 0 {
      FixedRoundTrip(v / 256, width - 1);
      assert Fixed(v, width)[1..] == Fixed(v / 256, width - 1);
    }
  }

  lemma {:induction false} DecodeFixedFits(b: Bytes)
    ensures DecodeFixed(b) < Pow256(|b|) && Fixed(DecodeFixed(b), |b|) == b
  {
    if b != [] {
      DecodeFixedFits(b[1..]);
      LowDigit(b[0] as nat, DecodeFixed(b[1..]));
    }
  }

  lemma LowDigit(d: nat, n: nat)
    requires d < 256
    ensures (d + 256 * n) % 256 == d && (d + 256 * n) / 256 == n
  {
  }

  lemma DivDiv(v: nat, m: nat, p: nat)
    requires m > 0 && p > 0
    ensures v / (m * p) == v / m / p
  {
    var q, r := v / m / p, v / m % p;
    assert v == m * (q * p + r) + v % m;
    assert m * (q * p + r) == q * (m * p) + m * r;
    assert m * r + v % m < m * p by { Below(m, r, p, v % m); }
    Quotient(v, m * p, q, m * r + v % m);
  }

  lemma Below(m: nat, r: nat, p: nat, s: nat)
    requires r < p && s < m
    ensures m * r + s < m * p
  {
    assert m * (r + 1) <= m * p;
  }

  lemma Quotient(v: nat, d: nat, q: nat, r: nat)
    requires d > 0 && r < d && v == q * d + r
    ensures v / d == q
  {
    assert (v / d - q) * d == r - v % d;
    Multiple(v / d - q, d);
  }

  lemma Multiple(k: int, d: nat)
    ensures (k >= 1 ==> k * d >= d) && (k <= -1 ==> k * d + d <= 0)
  {
    if k >= 1 { assert (k - 1) * d >= 0; } else if k <= -1 { assert (-k - 1) * d >= 0; }
  }

  /** Byte i of a fixed-width number is its i-th base-256 digit, counted from the lowest. */
  lemma {:induction false} FixedDigit(v: nat, width: nat, i: nat)
    requires i < width
    ensures Fixed(v, width)[i] as nat == v / Pow256(i) % 256
  {
    if i > 0 {
      FixedDigit(v / 256, width - 1, i - 1);
      DivDiv(v, 256, Pow256(i - 1));
    }
  }

  lemma FixedWidths()
    ensures Pow256(2) == 0x1_0000 && Pow256(4) == TWO_32 && Pow256(8) == TWO_64
  {
    assert Pow256(1) == 256 && Pow256(2) == 65536 && Pow256(3) == 0x100_0000;
    assert Pow256(5) == 256 * Pow256(4) && Pow256(6) == 256 * Pow256(5) && Pow256(7) == 256 * Pow256(6);
  }

  // ----- Variable length: seven bits a byte, low bits first, high bit set on all but the last -----

  function Varint(v: nat): (r: Bytes)
    ensures |r| >= 1
  {
    if v < TWO_7 then [v as Byte] else [(v % TWO_7 + TWO_7) as Byte] + Varint(v / TWO_7)
  }

  function Pow128(n: nat): (r: nat)
    ensures r >= 1
  {
    if n == 0 then 1 else TWO_7 * Pow128(n - 1)
  }

  function Pow2(n: nat): (r: nat)
    ensures r >= 1
  {
    if n == 0 then 1 else 2 * Pow2(n - 1)
  }

  lemma Pow2Seven(k: nat)
    ensures Pow2(k + 7) == TWO_7 * Pow2(k)
  {
    assert Pow2(k + 1) == 2 * Pow2(k) && Pow2(k + 2) == 2 * Pow2(k + 1) && Pow2(k + 3) == 2 * Pow2(k + 2);
    assert Pow2(k + 4) == 2 * Pow2(k + 3) && Pow2(k + 5) == 2 * Pow2(k + 4) && Pow2(k + 6) == 2 * Pow2(k + 5);
  }

  /** Byte i of a varint holds the i-th base-128 digit, counted from the lowest; the high bit says that
      more follow, and there are no more bytes than the number needs. */
  lemma {:induction false} VarintDigit(v: nat, i: nat)
    requires i < |Varint(v)|
    ensures Varint(v)[i] as nat == v / Pow128(i) % 128 + if i < |Varint(v)| - 1 then 128 else 0
    ensures v < Pow128(|Varint(v)|) && (|Varint(v)| > 1 ==> v >= Pow128(|Varint(v)| - 1))
  {
    OneByte();
    if v >= TWO_7 {
      VarintDigit(v / TWO_7, if i > 0 then i - 1 else 0);
      if i > 0 { DivDiv(v, TWO_7, Pow128(i - 1)); }
    }
  }

  // What the decoding loop reads: at most `left` bytes, the i-th weighing 2^(7i).
  function GetVarint(b: Bytes, left: nat): Parsed<nat> {
    if left == 0 || b == [] then Malformed
    else if b[0] < 128 then Parsed(b[0] as nat, b[1..])
    else match GetVarint(b[1..], left - 1)
      case Malformed => Malformed
      case Parsed(v, rest) => Parsed((b[0] - 128) as nat + TWO_7 * v, rest)
  }

  // GetVarint32: five bytes; bits shifted out of the 32-bit result are lost.
  function GetVarint32(b: Bytes): Parsed<nat> {
    match GetVarint(b, 5)
    case Malformed => Malformed
    case Parsed(v, rest) => Parsed(v % TWO_32, rest)
  }

  // GetVarint64: ten bytes.
  function GetVarint64(b: Bytes): Parsed<nat> {
    match GetVarint(b, 10)
    case Malformed => Malformed
    case Parsed(v, rest) => Parsed(v % TWO_64, rest)
  }

  lemma {:induction false} GetVarintShrinks(b: Bytes, left: nat)
    ensures GetVarint(b, left).Parsed? ==> |GetVarint(b, left).rest| < |b|
  {
    if left > 0 && b != [] && b[0] >= 128 { GetVarintShrinks(b[1..], left - 1); }
  }

  // A varint cut short is malformed.
  lemma {:induction false} VarintCut(v: nat, n: nat, left: nat)
    requires n < |Varint(v)|
    ensures GetVarint(Varint(v)[..n], left) == Malformed
  {
    if n > 0 && left > 0 {
      assert Varint(v)[..n][1..] == Varint(v / TWO_7)[..n - 1];
      VarintCut(v / TWO_7, n - 1, left - 1);
    }
  }

  lemma OneByte()
    ensures Pow128(1) == TWO_7
  {
  }

  lemma {:induction false} GetVarintInverts(v: nat, rest: Bytes, left: nat)
    requires left > 0 && v < Pow128(left)
    ensures GetVarint(Varint(v) + rest, left) == Parsed(v, rest)
  {
    var b := Varint(v) + rest;
    if v < TWO_7 {
      assert b[1..] == rest;
    } else {
      OneByte();
      GetVarintInverts(v / TWO_7, rest, left - 1);
      assert b[1..] == Varint(v / TWO_7) + rest;
    }
  }

  lemma VarintWidths()
    ensures Pow128(5) >= TWO_32 && Pow128(10) >= TWO_64
  {
    assert Pow128(1) == 0x80 && Pow128(2) == 0x4000 && Pow128(3) == 0x20_0000 && Pow128(4) == 0x1000_0000;
    assert Pow128(5) == 0x8_0000_0000 && Pow128(6) == TWO_7 * Pow128(5) && Pow128(7) == TWO_7 * Pow128(6);
    assert Pow128(8) == TWO_7 * Pow128(7) && Pow128(9) == TWO_7 * Pow128(8);
  }

  lemma Varint32RoundTrip(v: nat, rest: Bytes)
    requires v < TWO_32
    ensures GetVarint32(Varint(v) + rest) == Parsed(v, rest)
  {
    hide Pow128, GetVarint, Varint;
    VarintWidths();
    GetVarintInverts(v, rest, 5);
  }

  lemma Varint64RoundTrip(v: nat, rest: Bytes)
    requires v < TWO_64
    ensures GetVarint64(Varint(v) + rest) == Parsed(v, rest)
  {
    hide Pow128, GetVarint, Varint;
    VarintWidths();
    GetVarintInverts(v, rest, 10);
  }

  // ----- The encoding and decoding loops -----

  method EncodeVarint64(v0: nat) returns (r: Bytes)
    requires v0 < TWO_64
    ensures r == Varint(v0)
  {
    var v: nat := v0;
    r := [];
    hide Varint;
    while v >= TWO_7
      invariant r + Varint(v) == Varint(v0)
    {
      VarintStep(r, v);
      r := r + [More(v)];
      v := v / TWO_7;
    }
    VarintStep(r, v);
    r := r + [v as Byte];
  }

  // The low seven bits, and the bit that says more follow.
  function More(v: nat): Byte { (v % 128 + 128) as Byte }

  lemma VarintStep(r: Bytes, v: nat)
    ensures v >= TWO_7 ==> r + Varint(v) == (r + [More(v)]) + Varint(v / TWO_7)
    ensures v < TWO_7 ==> r + Varint(v) == r + [v as Byte]
  {
    if v >= TWO_7 { assert Varint(v) == [More(v)] + Varint(v / TWO_7); }
  }

  // The unrolled form for 32 bits.
  method EncodeVarint32(v: nat) returns (r: Bytes)
    requires v < TWO_32
    ensures r == Varint(v)
  {
    var v1 := v / 0x80;
    var v2 := v1 / 0x80;
    var v3 := v2 / 0x80;
    var v4 := v3 / 0x80;
    if v < 0x80 {
      r := [v as Byte];
    } else if v < 0x4000 {
      r := [More(v), v1 as Byte];
      assert Varint(v) == [More(v)] + Varint(v1);
    } else if v < 0x20_0000 {
      r := [More(v), More(v1), v2 as Byte];
      assert Varint(v1) == [More(v1)] + Varint(v2);
    } else if v < 0x1000_0000 {
      r := [More(v), More(v1), More(v2), v3 as Byte];
      assert Varint(v2) == [More(v2)] + Varint(v3) && Varint(v1) == [More(v1)] + Varint(v2);
    } else {
      r := [More(v), More(v1), More(v2), More(v3), v4 as Byte];
      assert Varint(v3) == [More(v3)] + Varint(v4);
      assert Varint(v2) == [More(v2)] + Varint(v3) && Varint(v1) == [More(v1)] + Varint(v2);
    }
  }

  // result |= digit << shift, where the bits do not meet.
  function Add(result: nat, digit: nat, weight: nat): nat { result + digit * weight }

  // The result so far, and what the bytes from here on add to it.
  function Weighted(result: nat, weight: nat, r: Parsed<nat>): Parsed<nat> {
    match r
    case Malformed => Malformed
    case Parsed(v, rest) => Parsed(Add(result, v, weight), rest)
  }

  lemma OneMoreByte(b: Bytes, left: nat, result: nat, weight: nat)
    requires left > 0 && b != []
    ensures b[0] < 128 ==> Weighted(result, weight, GetVarint(b, left)) == Parsed(Add(result, b[0] as nat, weight), b[1..])
    ensures b[0] >= 128 ==>
      (Weighted(result, weight, GetVarint(b, left)) ==
       Weighted(Add(result, (b[0] - 128) as nat, weight), TWO_7 * weight, GetVarint(b[1..], left - 1)))
  {
    if b[0] >= 128 && GetVarint(b[1..], left - 1).Parsed? {
      var x, v := (b[0] - 128) as nat, GetVarint(b[1..], left - 1).value;
      assert (x + TWO_7 * v) * weight == x * weight + v * (TWO_7 * weight);
    }
  }

  lemma Unweighted(r: Parsed<nat>)
    ensures Weighted(0, 1, r) == r
  {
  }

  /** GetVarint32PtrFallback and GetVarint64Ptr, with the result kept in full width. */
  method GetVarintPtr(b: Bytes, limit: nat) returns (r: Parsed<nat>)
    ensures r == GetVarint(b, limit)
  {
    var result: nat, weight: nat, p: nat := 0, 1, 0;
    Unweighted(GetVarint(b, limit));
    assert b[0..] == b;
    hide Weighted, GetVarint, Add;
    while p < limit && p < |b|
      invariant p <= limit && p <= |b|
      invariant Weighted(result, weight, GetVarint(b[p..], limit - p)) == GetVarint(b, limit)
    {
      assert b[p..][1..] == b[p + 1..];
      OneMoreByte(b[p..], limit - p, result, weight);
      if b[p] >= 128 {
        result := Add(result, (b[p] - 128) as nat, weight);
      } else {
        result := Add(result, b[p] as nat, weight);
        return Parsed(result, b[p + 1..]);
      }
      weight := TWO_7 * weight;
      p := p + 1;
    }
    NothingLeft(b[p..], limit - p, result, weight);
    return Malformed;
  }

  lemma NothingLeft(b: Bytes, left: nat, result: nat, weight: nat)
    requires left == 0 || b == []
    ensures Weighted(result, weight, GetVarint(b, left)) == Malformed
  {
  }

  // ----- Length-prefixed strings -----

  function LengthPrefixed(s: Bytes): Bytes { Varint(|s|) + s }

  function GetLengthPrefixed(b: Bytes): Parsed<Bytes> {
    match GetVarint32(b)
    case Malformed => Malformed
    case Parsed(n, rest) => if n <= |rest| then Parsed(rest[..n], rest[n..]) else Malformed
  }

  lemma LengthPrefixedRoundTrip(s: Bytes, rest: Bytes)
    requires |s| < TWO_32
    ensures GetLengthPrefixed(LengthPrefixed(s) + rest) == Parsed(s, rest)
  {
    Varint32RoundTrip(|s|, s + rest);
    assert LengthPrefixed(s) + rest == Varint(|s|) + (s + rest);
  }

  /** A length-prefixed string cut short is malformed. */
  lemma LengthPrefixedCut(s: Bytes, n: nat)
    requires |s| < TWO_32 && n < |LengthPrefixed(s)|
    ensures GetLengthPrefixed(LengthPrefixed(s)[..n]) == Malformed
  {
    hide Varint, GetVarint;
    var len := |Varint(|s|)|;
    if n < len {
      assert LengthPrefixed(s)[..n] == Varint(|s|)[..n];
      VarintCut(|s|, n, 5);
    } else {
      assert LengthPrefixed(s)[..n] == Varint(|s|) + s[..n - len];
      Varint32RoundTrip(|s|, s[..n - len]);
    }
  }
}

/** CRC32C as stored in files. */
module Crc32c {
  import opened Codings

  type Word = x: int | 0 <= x < TWO_32 witness 0

  const POLYNOMIAL: Word := 0x82f6_3b78  // Castagnoli, reflected
  const ALL_ONES: Word := 0xffff_ffff

  function XorBits(a: nat, b: nat): nat
    decreases a + b
  {
    if a == 0 && b == 0 then 0 else (if a % 2 == b % 2 then 0 else 1) + 2 * XorBits(a / 2, b / 2)
  }

  function Xor(a: Word, b: Word): Word { XorBits(a, b) % TWO_32 }

  // One bit of the input.
  function Step(c: Word, bit: bool): Word { if (c % 2 == 1) != bit then Xor(c / 2, POLYNOMIAL) else c / 2 }

  function Steps(c: Word, bits: seq<bool>): Word
    decreases |bits|
  {
    if bits == [] then c else Steps(Step(c, bits[0]), bits[1..])
  }

  // The bits of a string, lowest bit of each byte first.
  function Bits(data: Bytes): (r: seq<bool>)
    ensures |r| == 8 * |data|
  {
    seq(8 * |data|, i requires 0 <= i < 8 * |data| => data[i / 8] as nat / Pow2(i % 8) % 2 == 1)
  }

  function Invert(c: Word): Word { ALL_ONES - c }

  function Extend(crc: Word, data: Bytes): Word { Invert(Steps(Invert(crc), Bits(data))) }

  function Value(data: Bytes): Word { Extend(0, data) }

  lemma {:induction false} StepsConcat(c: Word, a: seq<bool>, b: seq<bool>)
    ensures Steps(c, a + b) == Steps(Steps(c, a), b)
    decreases |a|
  {
    hide Step;
    if a == [] {
      assert a + b == b;
    } else {
      assert (a + b)[1..] == a[1..] + b;
      StepsConcat(Step(c, a[0]), a[1..], b);
    }
  }

  lemma BitsConcat(a: Bytes, b: Bytes)
    ensures Bits(a + b) == Bits(a) + Bits(b)
  {
    forall i | 0 <= i < 8 * |a + b| ensures Bits(a + b)[i] == (Bits(a) + Bits(b))[i] {
      if i >= 8 * |a| {
        var j := i - 8 * |a|;
        assert i / 8 == |a| + j / 8 && i % 8 == j % 8;
      }
    }
  }

  /** Extend composes over concatenation. */
  lemma ExtendConcat(crc: Word, a: Bytes, b: Bytes)
    ensures Extend(crc, a + b) == Extend(Extend(crc, a), b)
  {
    BitsConcat(a, b);
    hide Steps, Bits;
    StepsConcat(Invert(crc), Bits(a), Bits(b));
  }

  // ----- What the checksum catches -----

  lemma {:induction false} XorTop(a: nat, b: nat, n: nat)
    requires a < 2 * Pow2(n) && Pow2(n) <= b < 2 * Pow2(n)
    ensures XorBits(a, b) < 2 * Pow2(n) && (XorBits(a, b) >= Pow2(n) <==> a < Pow2(n))
    decreases n
  {
    XorStep(a, b);
    if n == 0 {
      assert XorBits(0, 0) == 0;
    } else {
      hide XorBits;
      XorTop(a / 2, b / 2, n - 1);
      TopStep(a, XorBits(a / 2, b / 2), XorBits(a, b), Pow2(n - 1));
    }
  }

  lemma XorStep(a: nat, b: nat)
    requires b > 0
    ensures XorBits(a, b) == (if a % 2 == b % 2 then 0 else 1) + 2 * XorBits(a / 2, b / 2)
  {
  }

  lemma TopStep(a: nat, x: nat, r: nat, h: nat)
    requires x < 2 * h && (x >= h <==> a / 2 < h) && r / 2 == x
    ensures r < 4 * h && (r >= 2 * h <==> a < 2 * h)
  {
  }

  lemma {:induction false} XorInjective(a: nat, c: nat, b: nat)
    requires XorBits(a, b) == XorBits(c, b)
    ensures a == c
    decreases a + b + c
  {
    if a == 0 && b == 0 {
      XorZero(c);
    } else if c == 0 && b == 0 {
      XorZero(a);
    } else {
      assert XorBits(a, b) % 2 == XorBits(c, b) % 2 && XorBits(a, b) / 2 == XorBits(c, b) / 2;
      XorInjective(a / 2, c / 2, b / 2);
    }
  }

  lemma {:induction false} XorZero(a: nat)
    ensures XorBits(a, 0) == a
  {
    if a > 0 { XorZero(a / 2); }
  }

  // Shifting a bit in is undone by looking at the top bit.
  lemma StepInjective(c: Word, d: Word, x: bool, y: bool)
    requires Step(c, x) == Step(d, y)
    ensures c == d <==> x == y
  {
    TwoTo32();
    hide XorBits, Pow2;
    XorTop(c / 2, POLYNOMIAL, 31);
    XorTop(d / 2, POLYNOMIAL, 31);
    if ((c % 2 == 1) != x) && ((d % 2 == 1) != y) { XorInjective(c / 2, d / 2, POLYNOMIAL); }
  }

  lemma TwoTo32()
    ensures 2 * Pow2(31) == TWO_32
  {
    assert Pow2(3) == 8;
    Pow2Seven(3);
    Pow2Seven(10);
    Pow2Seven(17);
    Pow2Seven(24);
  }

  lemma {:induction false} StepsInjective(c: Word, d: Word, bits: seq<bool>)
    requires c != d
    ensures Steps(c, bits) != Steps(d, bits)
    decreases |bits|
  {
    hide Step;
    if bits != [] {
      if Step(c, bits[0]) == Step(d, bits[0]) { StepInjective(c, d, bits[0], bits[0]); }
      StepsInjective(Step(c, bits[0]), Step(d, bits[0]), bits[1..]);
    }
  }

  /** One bit changed anywhere changes the checksum. */
  lemma OneBitCaught(crc: Word, a: Bytes, b: Bytes, i: nat)
    requires |a| == |b| && i < 8 * |a| && Bits(a)[i] != Bits(b)[i]
    requires forall j :: 0 <= j < 8 * |a| && j != i ==> Bits(a)[j] == Bits(b)[j]
    ensures Extend(crc, a) != Extend(crc, b)
  {
    hide Bits, Step, Steps;
    OtherBit(Invert(crc), Bits(a), Bits(b), i);
  }

  lemma OtherBit(c: Word, s: seq<bool>, t: seq<bool>, i: nat)
    requires |s| == |t| && i < |s| && s[i] != t[i] && forall j :: 0 <= j < |s| && j != i ==> s[j] == t[j]
    ensures Steps(c, s) != Steps(c, t)
  {
    var d := Steps(c, s[..i]);
    assert t[..i] == s[..i] && t[i + 1..] == s[i + 1..];
    assert s == s[..i] + ([s[i]] + s[i + 1..]) && t == s[..i] + ([t[i]] + s[i + 1..]);
    hide Step;
    StepsConcat(c, s[..i], [s[i]] + s[i + 1..]);
    StepsConcat(c, s[..i], [t[i]] + s[i + 1..]);
    OneThen(d, s[i], s[i + 1..]);
    OneThen(d, t[i], s[i + 1..]);
    if Step(d, s[i]) == Step(d, t[i]) { StepInjective(d, d, s[i], t[i]); }
    StepsInjective(Step(d, s[i]), Step(d, t[i]), s[i + 1..]);
  }

  lemma OneThen(c: Word, x: bool, after: seq<bool>)
    ensures Steps(c, [x] + after) == Steps(Step(c, x), after)
  {
    assert ([x] + after)[1..] == after;
  }

  const MASK_DELTA: nat := 0xa282_ead8

  // Rotated right by 15 bits, plus a constant, in 32-bit arithmetic.
  function Mask(crc: Word): Word {
    (crc / 0x8000 + crc % 0x8000 * 0x2_0000 + MASK_DELTA) % TWO_32
  }

  function Unmask(masked: Word): Word {
    var rot := (masked - MASK_DELTA + TWO_32) % TWO_32;
    rot / 0x2_0000 + rot % 0x2_0000 * 0x8000
  }

  lemma UnmaskInverts(crc: Word)
    ensures Unmask(Mask(crc)) == crc
  {
    var hi, lo := crc / 0x8000, crc % 0x8000;
    var rot := hi + lo * 0x2_0000;
    assert hi < 0x2_0000 && rot < TWO_32;
    assert (Mask(crc) - MASK_DELTA + TWO_32) % TWO_32 == rot;
    assert rot / 0x2_0000 == lo && rot % 0x2_0000 == hi;
  }

  lemma MaskInverts(masked: Word)
    ensures Mask(Unmask(masked)) == masked
  {
    var rot := (masked - MASK_DELTA + TWO_32) % TWO_32;
    var hi, lo := rot / 0x2_0000, rot % 0x2_0000;
    assert hi < 0x8000 && Unmask(masked) / 0x8000 == lo && Unmask(masked) % 0x8000 == hi;
  }

  // The checksum read back from a header or trailer.
  function StoredCrc(stored: Bytes): Word
    requires |stored| == 4
  {
    DecodeFixedFits(stored);
    FixedWidths();
    Unmask(DecodeFixed(stored))
  }

  lemma StoredCrcReads(crc: Word)
    ensures StoredCrc(Fixed(Mask(crc), 4)) == crc
  {
    FixedWidths();
    FixedRoundTrip(Mask(crc), 4);
    UnmaskInverts(crc);
  }

  lemma StoredCrcIff(stored: Bytes, crc: Word)
    requires |stored| == 4
    ensures StoredCrc(stored) == crc <==> stored == Fixed(Mask(crc), 4)
  {
    DecodeFixedFits(stored);
    FixedWidths();
    MaskInverts(DecodeFixed(stored));
    StoredCrcReads(crc);
    hide Mask, Unmask;
  }
}
