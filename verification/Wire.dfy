/**
 Bytes, bits and the big-endian conversions between them.  Slices clamp at the
 end of the sequence, as they do in the source language.
 */
module Wire {

  type byte = x: int | 0 <= x < 256

  type Bytes = seq<byte>

  /** Most significant bit first. */
  type Bits = seq<bool>

  type Bits16 = b: Bits | |b| == 16 witness seq(16, _ => false)
  type Bits20 = b: Bits | |b| == 20 witness seq(20, _ => false)
  type Bits32 = b: Bits | |b| == 32 witness seq(32, _ => false)
  type Bits48 = b: Bits | |b| == 48 witness seq(48, _ => false)
  type Bits49 = b: Bits | |b| == 49 witness seq(49, _ => false)
  type Bits72 = b: Bits | |b| == 72 witness seq(72, _ => false)
  type Bits196 = b: Bits | |b| == 196 witness seq(196, _ => false)

  function Zeros(n: nat): (r: Bits)
    ensures |r| == n
  {
    seq(n, _ => false)
  }

  /** The clamped slice s[lo:hi]. */
  function Slice<T>(s: seq<T>, lo: nat, hi: nat): (r: seq<T>)
    requires lo <= hi
    ensures |s| >= hi ==> r == s[lo..hi]
    ensures |r| <= hi - lo
  {
    var hi' := if hi <= |s| then hi else |s|;
    if lo <= hi' then s[lo..hi'] else []
  }

  /** Walking back through a concatenation: a part is found where the parts before it end. */
  lemma PartAt<T>(whole: seq<T>, before: seq<T>, part: seq<T>)
    requires before + part <= whole
    ensures before <= whole
    ensures whole[|before|..|before| + |part|] == part
  {
    assert before + part == whole[..|before| + |part|];
    assert whole[..|before|] == (before + part)[..|before|];
  }

  lemma SliceOfSlice<T>(s: seq<T>, a: nat, b: nat, lo: nat, hi: nat)
    requires a <= b <= |s| && lo <= hi <= b - a
    ensures s[a..b][lo..hi] == s[a + lo..a + hi]
  {
    var x, y := s[a..b][lo..hi], s[a + lo..a + hi];
    assert |x| == |y|;
    assert forall i :: 0 <= i < |x| ==> x[i] == s[a..b][lo + i] == s[a + lo + i] == y[i];
  }

  function Bit(b: bool): int {
    if b then 1 else 0
  }

  /** The k low bits of n. */
  function BitsOf(n: nat, k: nat): (r: Bits)
    ensures |r| == k
  {
    if k == 0 then [] else BitsOf(n / 2, k - 1) + [n % 2 == 1]
  }

  /** The number written by the bits. */
  function Value(b: Bits): nat {
    if b == [] then 0 else 2 * Value(b[..|b| - 1]) + Bit(b[|b| - 1])
  }

  function Pow2(k: nat): (r: nat)
    ensures r >= 1
  {
    if k == 0 then 1 else 2 * Pow2(k - 1)
  }

  lemma ValueOfAppend(b: Bits, x: bool)
    ensures Value(b + [x]) == 2 * Value(b) + Bit(x)
  {
    assert (b + [x])[..|b|] == b;
  }

  lemma {:induction false} ValueOfBits(n: nat, k: nat)
    requires n < Pow2(k)
    ensures Value(BitsOf(n, k)) == n
  {
    if k > 0 {
      var half := n / 2;
      ValueOfBits(half, k - 1);
      ValueOfAppend(BitsOf(half, k - 1), n % 2 == 1);
    }
  }

  lemma {:induction false} BitsOfValue(b: Bits)
    ensures Value(b) < Pow2(|b|)
    ensures BitsOf(Value(b), |b|) == b
  {
    if b != [] {
      BitsOfValue(b[..|b| - 1]);
      assert Value(b) / 2 == Value(b[..|b| - 1]);
      assert b == b[..|b| - 1] + [b[|b| - 1]];
    }
  }

  lemma Pow2Of8()
    ensures Pow2(8) == 256
  {
    assert Pow2(4) == 16;
  }

  function BitsOfByte(b: byte): (r: Bits)
    ensures |r| == 8
  {
    BitsOf(b, 8)
  }

  function ByteOfBits(b: Bits): byte
    requires |b| == 8
  {
    BitsOfValue(b);
    Pow2Of8();
    Value(b)
  }

  function ToBits(s: Bytes): (r: Bits)
    ensures |r| == 8 * |s|
  {
    if s == [] then [] else BitsOfByte(s[0]) + ToBits(s[1..])
  }

  /** Packs bits into bytes; a last partial byte is filled up with zero bits. */
  function ToBytes(b: Bits): (r: Bytes)
    ensures |r| == (|b| + 7) / 8
  {
    if b == [] then []
    else if |b| < 8 then [ByteOfBits(b + Zeros(8 - |b|))]
    else [ByteOfBits(b[..8])] + ToBytes(b[8..])
  }

  lemma {:induction false} BytesRoundTrip(s: Bytes)
    ensures ToBytes(ToBits(s)) == s
  {
    if s != [] {
      var rest := ToBits(s[1..]);
      assert ToBits(s)[..8] == BitsOfByte(s[0]) && ToBits(s)[8..] == rest;
      Pow2Of8();
      ValueOfBits(s[0], 8);
      BytesRoundTrip(s[1..]);
    }
  }

  lemma {:induction false} BitsRoundTrip(b: Bits)
    requires |b| % 8 == 0
    ensures ToBits(ToBytes(b)) == b
  {
    if b != [] {
      BitsOfValue(b[..8]);
      BitsRoundTrip(b[8..]);
      assert ToBytes(b)[1..] == ToBytes(b[8..]);
    }
  }

  lemma {:induction false} ValueSplit(a: Bits, b: Bits)
    ensures Value(a + b) == Value(a) * Pow2(|b|) + Value(b)
  {
    if b == [] {
      assert a + b == a;
    } else {
      var init, x := b[..|b| - 1], b[|b| - 1];
      ValueSplit(a, init);
      assert a + b == (a + init) + [x];
      ValueOfAppend(a + init, x);
      Doubled(Value(a), Pow2(|b| - 1));
    }
  }

  lemma Doubled(v: nat, p: nat)
    ensures 2 * (v * p) == v * (2 * p)
  {
  }

  lemma ValueOf2(b: Bits)
    requires |b| == 2
    ensures Value(b) == 2 * Bit(b[0]) + Bit(b[1])
  {
    assert Value(b[..1]) == 2 * Value(b[..1][..0]) + Bit(b[0]);
  }

  lemma ValueOf4(b: Bits)
    requires |b| == 4
    ensures Value(b) == 8 * Bit(b[0]) + 4 * Bit(b[1]) + 2 * Bit(b[2]) + Bit(b[3])
  {
    assert Pow2(2) == 4;
    hide Value, Pow2, Bit;
    ValueOf2(b[..2]);
    ValueOf2(b[2..]);
    ValueSplit(b[..2], b[2..]);
    assert b[..2] + b[2..] == b;
  }

  /** The two halves of a byte are those of its bits. */
  lemma Nibbles(n: byte)
    ensures var bits := BitsOfByte(n);
      && n % 16 == Value(bits[4..])
      && n / 16 == 8 * Bit(bits[0]) + 4 * Bit(bits[1]) + 2 * Bit(bits[2]) + Bit(bits[3])
      && n % 16 == 8 * Bit(bits[4]) + 4 * Bit(bits[5]) + 2 * Bit(bits[6]) + Bit(bits[7])
  {
    assert Pow2(4) == 16;
    hide BitsOf, Value, Pow2;
    var bits := BitsOfByte(n);
    Pow2Of8();
    ValueOfBits(n, 8);
    assert bits[..4] + bits[4..] == bits;
    ValueSplit(bits[..4], bits[4..]);
    ValueOf4(bits[..4]);
    ValueOf4(bits[4..]);
    assert n == Value(bits[..4]) * 16 + Value(bits[4..]);
  }

  // Big-endian integers.

  function U16(n: nat): (r: Bytes)
    requires n < 0x1_0000
    ensures |r| == 2
  {
    [n / 256, n % 256]
  }

  function U32(n: nat): (r: Bytes)
    requires n < 0x1_0000_0000
    ensures |r| == 4
  {
    U16(n / 0x1_0000) + U16(n % 0x1_0000)
  }

  function FromU16(b: Bytes): (n: nat)
    requires |b| == 2
    ensures n < 0x1_0000
  {
    var h: int, l: int := b[0], b[1];
    256 * h + l
  }

  function FromU32(b: Bytes): (n: nat)
    requires |b| == 4
    ensures n < 0x1_0000_0000
  {
    0x1_0000 * FromU16(b[..2]) + FromU16(b[2..])
  }

  lemma U16RoundTrip(n: nat)
    requires n < 0x1_0000
    ensures FromU16(U16(n)) == n
  {
  }

  lemma U32RoundTrip(n: nat)
    requires n < 0x1_0000_0000
    ensures FromU32(U32(n)) == n
  {
    var b := U32(n);
    assert b[..2] == U16(n / 0x1_0000) && b[2..] == U16(n % 0x1_0000);
  }

  lemma FromU32RoundTrip(b: Bytes)
    requires |b| == 4
    ensures U32(FromU32(b)) == b
  {
    var h, l := FromU16(b[..2]), FromU16(b[2..]);
    assert FromU32(b) / 0x1_0000 == h && FromU32(b) % 0x1_0000 == l;
  }

  /** Bit i of the bytes is the i-th counted from the most significant bit of the first. */
  lemma {:induction false} BitsAreBigEndian(s: Bytes, i: nat)
    requires i < 8 * |s|
    ensures ToBits(s)[i] <==> s[i / 8] / Pow2(7 - i % 8) % 2 == 1
  {
    if i < 8 {
      BitIs(s[0], 8, i);
    } else {
      BitsAreBigEndian(s[1..], i - 8);
    }
  }

  /** Bit i of the k low bits of n, most significant first. */
  lemma {:induction false} BitIs(n: nat, k: nat, i: nat)
    requires i < k
    ensures BitsOf(n, k)[i] <==> n / Pow2(k - 1 - i) % 2 == 1
  {
    if i < k - 1 {
      BitIs(n / 2, k - 1, i);
      HalfThen(n, Pow2(k - 2 - i));
    }
  }

  lemma HalfThen(n: nat, p: nat)
    requires p >= 1
    ensures n / 2 / p == n / (2 * p)
  {
    var h := n / 2;
    var q, r := h / p, h % p;
    assert n == 2 * h + n % 2 && h == p * q + r;
    var t := 2 * r + n % 2;
    assert n == (2 * p) * q + t && 0 <= t < 2 * p;
    DivUnique(n, 2 * p, q, t);
  }

  lemma DivUnique(n: nat, d: nat, q: nat, t: nat)
    requires d >= 1 && n == d * q + t && t < d
    ensures n / d == q
  {
    var x := n / d;
    assert n == d * x + n % d;
    if x < q {
      TimesGrows(d, x + 1, q);
    } else if q < x {
      TimesGrows(d, q + 1, x);
    }
  }

  lemma TimesGrows(d: nat, a: nat, b: nat)
    requires a <= b
    ensures d * a <= d * b
  {
  }

  /** The bytes of a number, most significant first. */
  lemma NumbersAreBigEndian(n: nat)
    requires n < 0x1_0000_0000
    ensures var b := U32(n);
      n == 0x100_0000 * (b[0] as int) + 0x1_0000 * (b[1] as int) + 0x100 * (b[2] as int) + b[3] as int
    ensures n < 0x1_0000 ==> var b := U16(n); n == 0x100 * (b[0] as int) + b[1] as int
  {
    var high, low := n / 0x1_0000, n % 0x1_0000;
    assert high == 0x100 * (U16(high)[0] as int) + U16(high)[1] as int;
    assert low == 0x100 * (U16(low)[0] as int) + U16(low)[1] as int;
  }
}
