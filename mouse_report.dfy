/**
 * The 6-byte input report that `USBMouse16::update` sends:
 *   [buttons, x_lo, x_hi, y_lo, y_hi, -z]
 * with X and Y little-endian two's complement and the wheel byte the negation
 * of `z` truncated to 8 bits.
 */
module MouseReport {
  import opened Bytes

  /** `report.length = 6` */
  const REPORT_LENGTH: nat := 6

  /** The relative axis range the report descriptor declares (`X_MIN_REL` ... `Y_MAX_REL`). */
  const X_MIN_REL: int := -32767
  const Y_MIN_REL: int := -32767
  const X_MAX_REL: int := 32767
  const Y_MAX_REL: int := 32767

  /** The arguments of `update`, as a value. */
  datatype Motion = Motion(x: int16, y: int16, buttons: byte, z: int8)

  /** The report bytes, each computed with the conversion the C++ code applies:
      `(uint8_t)x`, `(uint8_t)((uint16_t)x >> 8)` and `-z` stored into a `uint8_t`. */
  function Encode(x: int16, y: int16, buttons: byte, z: int8): (r: seq<byte>)
    ensures |r| == REPORT_LENGTH
    ensures r[0] == buttons
  {
    [ buttons,
      ToUint8(x), ToUint8(ToUint16(x) / 0x100),
      ToUint8(y), ToUint8(ToUint16(y) / 0x100),
      ToUint8(-(z as int)) ]
  }

  /** The inverse of `Encode`: the `update` arguments a report was built from. */
  function Decode(r: seq<byte>): (m: Motion)
    requires |r| == REPORT_LENGTH
  {
    Motion(AsInt16(Le16(r[1], r[2])), AsInt16(Le16(r[3], r[4])), r[0], AsInt8(ToUint8(-(r[5] as int))))
  }

  /** The two 16-bit fields are `x` and `y`, little-endian: `b1 + 256*b2` read as
      a signed 16-bit number is `x`, and likewise `b3 + 256*b4` is `y`. */
  lemma AxesAreLittleEndian(x: int16, y: int16, buttons: byte, z: int8)
    ensures var r := Encode(x, y, buttons, z);
      && r[1] == Lsb(ToUint16(x)) && r[2] == Msb(ToUint16(x))
      && r[3] == Lsb(ToUint16(y)) && r[4] == Msb(ToUint16(y))
      && AsInt16(Le16(r[1], r[2])) == x
      && AsInt16(Le16(r[3], r[4])) == y
  {
    LowByteOfInt16(x);
    LowByteOfInt16(y);
    Le16OfBytes(ToUint16(x));
    Le16OfBytes(ToUint16(y));
    Int16RoundTrip(x, 0);
    Int16RoundTrip(y, 0);
  }

  /** `(uint8_t)x` is the low byte of `(uint16_t)x`. */
  lemma LowByteOfInt16(x: int16)
    ensures ToUint8(x) == Lsb(ToUint16(x))
  {
    var u := ToUint16(x);
    assert u == (if x < 0 then x + 0x1_0000 else x);
  }

  /** The wheel byte is `(-z) mod 256`.  Read as `int8_t`, as the host reads an
      8-bit field whose logical minimum is negative, it is `-z` for every `z`
      except -128, whose negation does not fit in 8 bits and wraps to -128. */
  lemma WheelIsNegated(x: int16, y: int16, buttons: byte, z: int8)
    ensures var r := Encode(x, y, buttons, z);
      && (r[5] + z) % 0x100 == 0
      && AsInt8(r[5]) == (if z == -0x80 then -0x80 else -z)
  {
  }

  /** Decoding an encoded report gives back every argument of `update`, including
      the button bits 5..7, which `update` does not mask. */
  lemma DecodeEncode(m: Motion)
    ensures Decode(Encode(m.x, m.y, m.buttons, m.z)) == m
  {
    AxesAreLittleEndian(m.x, m.y, m.buttons, m.z);
  }

  /** Every 6-byte string is the report of exactly one call: `Encode` is onto. */
  lemma EncodeDecode(r: seq<byte>)
    requires |r| == REPORT_LENGTH
    ensures var m := Decode(r); Encode(m.x, m.y, m.buttons, m.z) == r
  {
    var m := Decode(r);
    AxisBytes(r[1], r[2]);
    AxisBytes(r[3], r[4]);
    Int8RoundTrip(0, ToUint8(-(r[5] as int)));
  }

  /** The two bytes `Encode` writes for an axis value read back from `lo`, `hi`
      are `lo`, `hi` again. */
  lemma AxisBytes(lo: byte, hi: byte)
    ensures var v := AsInt16(Le16(lo, hi));
      ToUint8(v) == lo && ToUint8(ToUint16(v) / 0x100) == hi
  {
    var v := AsInt16(Le16(lo, hi));
    Int16RoundTrip(v, Le16(lo, hi));
    LowByteOfInt16(v);
    BytesOfLe16(lo, hi);
  }

  /** Different calls give different reports. */
  lemma EncodeInjective(m: Motion, n: Motion)
    requires Encode(m.x, m.y, m.buttons, m.z) == Encode(n.x, n.y, n.buttons, n.z)
    ensures m == n
  {
    DecodeEncode(m);
    DecodeEncode(n);
  }

  /** The two worked examples of the wire format. */
  lemma ExampleReports()
    ensures Encode(100, -200, 0x05, 10) == [0x05, 0x64, 0x00, 0x38, 0xFF, 0xF6]
    ensures Encode(32767, -32767, 0, 0) == [0x00, 0xFF, 0x7F, 0x01, 0x80, 0x00]
  {
  }
}
