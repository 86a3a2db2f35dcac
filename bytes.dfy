/**
 * The fixed-width integer types of the C++ source and the conversions between
 * them.  All types are subsets of the unbounded `int`; every truncation that C
 * performs implicitly is written out here.
 */
module Bytes {

  type byte = b: int | 0 <= b < 0x100
  type uint16 = v: int | 0 <= v < 0x1_0000
  type int8 = v: int | -0x80 <= v < 0x80
  type int16 = v: int | -0x8000 <= v < 0x8000

  /** Conversion of any integer to `uint8_t`: C reduces modulo 2^8.  Dafny's `%`
      is Euclidean, so this is also right for negative arguments. */
  function ToUint8(v: int): (b: byte)
    ensures (v - b) % 0x100 == 0
    ensures 0 <= v < 0x100 ==> b == v
  {
    v % 0x100
  }

  /** Conversion of any integer to `uint16_t`, reduction modulo 2^16. */
  function ToUint16(v: int): (u: uint16)
    ensures (v - u) % 0x1_0000 == 0
    ensures 0 <= v < 0x1_0000 ==> u == v
  {
    v % 0x1_0000
  }

  /** The `LSB` and `MSB` macros: the low and the high byte of a 16-bit value. */
  function Lsb(v: uint16): (b: byte)
    ensures (v - b) % 0x100 == 0
  {
    v % 0x100
  }

  function Msb(v: uint16): (b: byte)
    ensures Lsb(v) + 0x100 * b == v
  {
    v / 0x100
  }

  /** A 16-bit value read back from its little-endian byte pair. */
  function Le16(lo: byte, hi: byte): uint16 { lo + 0x100 * hi }

  /** The two's-complement reading of an unsigned value as `int16_t` / `int8_t`. */
  function AsInt16(u: uint16): int16 { if u < 0x8000 then u else u - 0x1_0000 }

  function AsInt8(b: byte): int8 { if b < 0x80 then b else b - 0x100 }

  lemma Le16OfBytes(v: uint16)
    ensures Le16(Lsb(v), Msb(v)) == v
  {
  }

  lemma BytesOfLe16(lo: byte, hi: byte)
    ensures Lsb(Le16(lo, hi)) == lo && Msb(Le16(lo, hi)) == hi
  {
  }

  /** Storing a signed value in a wider unsigned type and reading it back as
      signed is the identity, and so is the opposite direction. */
  lemma Int16RoundTrip(x: int16, u: uint16)
    ensures AsInt16(ToUint16(x)) == x
    ensures ToUint16(AsInt16(u)) == u
  {
  }

  lemma Int8RoundTrip(z: int8, b: byte)
    ensures AsInt8(ToUint8(z)) == z
    ensures ToUint8(AsInt8(b)) == b
  {
  }

  /** 2^n. */
  function Pow2(n: nat): (p: nat)
    ensures p >= 1
  {
    if n == 0 then 1 else 2 * Pow2(n - 1)
  }

  /** The unsigned little-endian value of a byte string, as HID item data is read. */
  function LeUnsigned(data: seq<byte>): (v: nat)
    ensures v < Pow2(8 * |data|)
  {
    if |data| == 0 then 0
    else
      var rest := LeUnsigned(data[1..]);
      assert Pow2(8 * |data|) == 0x100 * Pow2(8 * |data[1..]|) by { Pow2Add(8, 8 * |data[1..]|); }
      data[0] + 0x100 * rest
  }

  /** The two's-complement reading of `data` as a signed number of 8*|data| bits,
      as HID reads the data of Logical Minimum and Logical Maximum items. */
  function LeSigned(data: seq<byte>): (v: int)
    ensures |data| > 0 ==> 0 <= v + Pow2(8 * |data| - 1) && v < Pow2(8 * |data| - 1)
  {
    if |data| == 0 then 0
    else
      var u := LeUnsigned(data);
      Pow2Add(1, 8 * |data| - 1);
      if u < Pow2(8 * |data| - 1) then u else u - Pow2(8 * |data|)
  }

  lemma {:induction false} Pow2Add(a: nat, b: nat)
    ensures Pow2(a + b) == Pow2(a) * Pow2(b)
  {
    if a > 0 {
      Pow2Add(a - 1, b);
    }
  }

  // Division and remainder facts used to read fields out of a little-endian number.

  /** `a / d` and `a % d` are the only quotient and remainder. */
  lemma DivModUnique(a: int, d: int, q: int, r: int)
    requires d > 0 && a == d * q + r && 0 <= r < d
    ensures a / d == q && a % d == r
  {
    var k := q - a / d;
    assert d * k == a % d - r;
    if k > 0 {
    } else if k < 0 {
    }
  }

  /** Dropping the low byte of `b + 256*x` and then dividing by `p`. */
  lemma DivByteStep(b: byte, x: nat, p: nat)
    requires p > 0
    ensures (b + 0x100 * x) / (0x100 * p) == x / p
  {
    var q := x / p;
    var r := x % p;
    assert x == p * q + r;
    assert b + 0x100 * x == (0x100 * p) * q + (0x100 * r + b);
    DivModUnique(b + 0x100 * x, 0x100 * p, q, 0x100 * r + b);
  }

  /** Keeping the low byte of `b + 256*x` and the low bits of `x`. */
  lemma ModByteStep(b: byte, x: nat, p: nat)
    requires p > 0
    ensures (b + 0x100 * x) % (0x100 * p) == b + 0x100 * (x % p)
  {
    var q := x / p;
    var r := x % p;
    assert x == p * q + r;
    assert b + 0x100 * x == (0x100 * p) * q + (0x100 * r + b);
    DivModUnique(b + 0x100 * x, 0x100 * p, q, 0x100 * r + b);
  }

  lemma DivAddMultiple(a: int, d: int, y: int)
    requires d > 0
    ensures (a + d * y) / d == a / d + y
  {
    DivModUnique(a + d * y, d, a / d + y, a % d);
  }

  lemma ModAddMultiple(a: int, d: int, y: int)
    requires d > 0
    ensures (a + d * y) % d == a % d
  {
    DivModUnique(a + d * y, d, a / d + y, a % d);
  }

  /** Shifting a little-endian number right by whole bytes drops its first bytes. */
  lemma {:induction false} LeUnsignedDrop(s: seq<byte>, k: nat)
    requires k <= |s|
    ensures LeUnsigned(s) / Pow2(8 * k) == LeUnsigned(s[k..])
  {
    if k > 0 {
      var t := s[1..];
      LeUnsignedDrop(t, k - 1);
      assert t[k - 1..] == s[k..];
      Pow2Add(8, 8 * (k - 1));
      DivByteStep(s[0], LeUnsigned(t), Pow2(8 * (k - 1)));
    }
  }

  /** Masking a little-endian number to whole bytes keeps its first bytes. */
  lemma {:induction false} LeUnsignedTake(s: seq<byte>, m: nat)
    requires m <= |s|
    ensures LeUnsigned(s) % Pow2(8 * m) == LeUnsigned(s[..m])
  {
    if m > 0 {
      var t := s[1..];
      LeUnsignedTake(t, m - 1);
      assert s[..m][1..] == t[..m - 1];
      Pow2Add(8, 8 * (m - 1));
      ModByteStep(s[0], LeUnsigned(t), Pow2(8 * (m - 1)));
    }
  }
}
