/** Machine integers, their byte encodings, and Rust's UTF-8 validity rule. */
module Bytes {

  type byte = x: int | 0 <= x < 256
  type u16 = x: int | 0 <= x < 0x1_0000
  type u32 = x: int | 0 <= x < 0x1_0000_0000
  type i16 = x: int | -0x8000 <= x < 0x8000
  type i32 = x: int | -0x8000_0000 <= x < 0x8000_0000

  const TWO_32 := 0x1_0000_0000

  // ---- big endian ------------------------------------------------------------

  function U16ToBe(n: u16): (b: seq<byte>)
    ensures |b| == 2
  {
    [n / 0x100, n % 0x100]
  }

  function BeToU16(b: seq<byte>): u16
    requires |b| == 2
  {
    var hi: int, lo: int := b[0], b[1];
    hi * 0x100 + lo
  }

  function U32ToBe(n: u32): (b: seq<byte>)
    ensures |b| == 4
  {
    U16ToBe(n / 0x1_0000) + U16ToBe(n % 0x1_0000)
  }

  function BeToU32(b: seq<byte>): u32
    requires |b| == 4
  {
    var hi: int, lo: int := BeToU16(b[..2]), BeToU16(b[2..]);
    hi * 0x1_0000 + lo
  }

  /** The two's-complement bit pattern of a signed word, and its inverse. */
  function I32Bits(n: i32): u32 {
    if n < 0 then n + TWO_32 else n
  }

  function BitsI32(u: u32): i32 {
    if u < 0x8000_0000 then u else u - TWO_32
  }

  lemma SignedBits(u: u32)
    ensures I32Bits(BitsI32(u)) == u
  {
  }

  lemma U16BeInverse(n: u16)
    ensures BeToU16(U16ToBe(n)) == n
  {
  }

  lemma BeU16Inverse(b: seq<byte>)
    requires |b| == 2
    ensures U16ToBe(BeToU16(b)) == b
  {
  }

  lemma U32BeInverse(n: u32)
    ensures BeToU32(U32ToBe(n)) == n
  {
    var hi, lo := n / 0x1_0000, n % 0x1_0000;
    U16BeInverse(hi);
    U16BeInverse(lo);
    assert U32ToBe(n)[..2] == U16ToBe(hi) && U32ToBe(n)[2..] == U16ToBe(lo);
  }

  lemma HighLow(hi: u16, lo: u16)
    ensures (hi * 0x1_0000 + lo) / 0x1_0000 == hi && (hi * 0x1_0000 + lo) % 0x1_0000 == lo
  {
  }

  lemma BeU32Inverse(b: seq<byte>)
    requires |b| == 4
    ensures U32ToBe(BeToU32(b)) == b
  {
    HighLow(BeToU16(b[..2]), BeToU16(b[2..]));
    BeU16Inverse(b[..2]);
    BeU16Inverse(b[2..]);
    assert b == b[..2] + b[2..];
  }

  /** The most significant byte comes first. */
  lemma BigEndian(n: u32)
    ensures var b := U32ToBe(n);
            var b0: int, b1: int, b2: int, b3: int := b[0], b[1], b[2], b[3];
            b0 * 0x100_0000 + b1 * 0x1_0000 + b2 * 0x100 + b3 == n
  {
    var hi, lo := n / 0x1_0000, n % 0x1_0000;
    assert hi / 0x100 * 0x100 + hi % 0x100 == hi && lo / 0x100 * 0x100 + lo % 0x100 == lo;
  }

  // ---- little endian ---------------------------------------------------------

  function U16ToLe(n: u16): (b: seq<byte>)
    ensures |b| == 2
  {
    [n % 0x100, n / 0x100]
  }

  function LeToU16(b: seq<byte>): u16
    requires |b| == 2
  {
    var lo: int, hi: int := b[0], b[1];
    lo + hi * 0x100
  }

  function U32ToLe(n: u32): (b: seq<byte>)
    ensures |b| == 4
  {
    U16ToLe(n % 0x1_0000) + U16ToLe(n / 0x1_0000)
  }

  function LeToU32(b: seq<byte>): u32
    requires |b| == 4
  {
    var lo: int, hi: int := LeToU16(b[..2]), LeToU16(b[2..]);
    lo + hi * 0x1_0000
  }

  function I16ToLe(s: i16): (b: seq<byte>)
    ensures |b| == 2
  {
    U16ToLe(if s < 0 then s + 0x1_0000 else s)
  }

  function LeToI16(b: seq<byte>): i16
    requires |b| == 2
  {
    var u := LeToU16(b);
    if u < 0x8000 then u else u - 0x1_0000
  }

  lemma I16LeInverse(s: i16)
    ensures LeToI16(I16ToLe(s)) == s
  {
  }

  lemma LeI16Inverse(b: seq<byte>)
    requires |b| == 2
    ensures I16ToLe(LeToI16(b)) == b
  {
  }

  lemma U16LeInverse(n: u16)
    ensures LeToU16(U16ToLe(n)) == n
  {
  }

  lemma U32LeInverse(n: u32)
    ensures LeToU32(U32ToLe(n)) == n
  {
    var lo, hi := n % 0x1_0000, n / 0x1_0000;
    U16LeInverse(lo);
    U16LeInverse(hi);
    assert U32ToLe(n)[..2] == U16ToLe(lo) && U32ToLe(n)[2..] == U16ToLe(hi);
  }

  /** The least significant byte comes first. */
  lemma LittleEndian(n: u32)
    ensures var b := U32ToLe(n);
            var b0: int, b1: int, b2: int, b3: int := b[0], b[1], b[2], b[3];
            b0 + b1 * 0x100 + b2 * 0x1_0000 + b3 * 0x100_0000 == n
  {
    var hi, lo := n / 0x1_0000, n % 0x1_0000;
    assert hi / 0x100 * 0x100 + hi % 0x100 == hi && lo / 0x100 * 0x100 + lo % 0x100 == lo;
  }

  /** Of a sample too, in two's complement. */
  lemma LittleEndianSample(s: i16)
    ensures var b := I16ToLe(s);
            var low: int, high: int := b[0], b[1];
            s == low + (if high < 0x80 then high else high - 0x100) * 0x100
  {
  }

  // ---- PCM -------------------------------------------------------------------

  /** Consecutive byte pairs read as little-endian samples; an odd last byte is ignored. */
  function PcmOfLe(b: seq<byte>): (s: seq<i16>)
    ensures |s| == |b| / 2
  {
    if |b| < 2 then [] else [LeToI16(b[..2])] + PcmOfLe(b[2..])
  }

  function LeOfPcm(s: seq<i16>): (b: seq<byte>)
    ensures |b| == 2 * |s|
  {
    if s == [] then [] else I16ToLe(s[0]) + LeOfPcm(s[1..])
  }

  lemma {:induction false} PcmRoundTrip(s: seq<i16>)
    ensures PcmOfLe(LeOfPcm(s)) == s
  {
    if s != [] {
      var b := LeOfPcm(s);
      assert b[..2] == I16ToLe(s[0]) && b[2..] == LeOfPcm(s[1..]);
      I16LeInverse(s[0]);
      PcmRoundTrip(s[1..]);
    }
  }

  /** Sample `i` stands at bytes 2i and 2i + 1. */
  lemma {:induction false} SampleAt(s: seq<i16>, i: nat)
    requires i < |s|
    ensures LeOfPcm(s)[2 * i..2 * i + 2] == I16ToLe(s[i])
  {
    var b := LeOfPcm(s);
    if i == 0 {
      assert b[..2] == I16ToLe(s[0]);
    } else {
      SampleAt(s[1..], i - 1);
      assert b[2..] == LeOfPcm(s[1..]);
      assert b[2..][2 * (i - 1)..2 * (i - 1) + 2] == b[2 * i..2 * i + 2];
    }
  }

  lemma {:induction false} LeRoundTrip(b: seq<byte>)
    ensures LeOfPcm(PcmOfLe(b)) == b[..|b| / 2 * 2]
  {
    if |b| >= 2 {
      LeI16Inverse(b[..2]);
      LeRoundTrip(b[2..]);
      assert PcmOfLe(b)[1..] == PcmOfLe(b[2..]);
      assert b[..2] + b[2..][..|b[2..]| / 2 * 2] == b[..|b| / 2 * 2];
    }
  }

  lemma {:induction false} LeOfPcmAppend(s: seq<i16>, t: seq<i16>)
    ensures LeOfPcm(s + t) == LeOfPcm(s) + LeOfPcm(t)
  {
    if s == [] {
      assert s + t == t;
    } else {
      assert (s + t)[1..] == s[1..] + t;
      LeOfPcmAppend(s[1..], t);
    }
  }

  /** The sample loop of both writers. */
  method WriteI16Le(samples: seq<i16>) returns (out: seq<byte>)
    ensures out == LeOfPcm(samples)
  {
    out := [];
    for i := 0 to |samples|
      invariant out == LeOfPcm(samples[..i])
    {
      assert samples[..i + 1] == samples[..i] + [samples[i]];
      LeOfPcmAppend(samples[..i], [samples[i]]);
      out := out + I16ToLe(samples[i]);
    }
    assert samples[..|samples|] == samples;
  }

  function Silence(n: nat): (s: seq<i16>)
    ensures |s| == n
  {
    seq(n, _ => 0)
  }

  function Min(a: nat, b: nat): nat {
    if a < b then a else b
  }

  // ---- UTF-8 (table 3-7 of the Unicode Standard) -----------------------------

  predicate Continuation(b: byte) {
    0x80 <= b <= 0xBF
  }

  /** Length of the well-formed sequence at the front of `b`, or 0 when there is none. */
  function Utf8Lead(b: seq<byte>): (n: nat)
    ensures n <= |b|
  {
    if |b| >= 1 && b[0] < 0x80 then 1
    else if |b| >= 2 && 0xC2 <= b[0] <= 0xDF && Continuation(b[1]) then 2
    else if |b| >= 3 && 0xE0 <= b[0] <= 0xEF && Continuation(b[1]) && Continuation(b[2])
            && (b[0] == 0xE0 ==> 0xA0 <= b[1]) && (b[0] == 0xED ==> b[1] <= 0x9F) then 3
    else if |b| >= 4 && 0xF0 <= b[0] <= 0xF4
            && Continuation(b[1]) && Continuation(b[2]) && Continuation(b[3])
            && (b[0] == 0xF0 ==> 0x90 <= b[1]) && (b[0] == 0xF4 ==> b[1] <= 0x8F) then 4
    else 0
  }

  predicate ValidUtf8(b: seq<byte>) {
    b == [] || (Utf8Lead(b) > 0 && ValidUtf8(b[Utf8Lead(b)..]))
  }

  /** A Rust `String`, as its bytes. */
  type Utf8 = b: seq<byte> | ValidUtf8(b) witness []
}
