/**
 * The `USBMouse16` object: what `update`, `report_desc` and
 * `configuration_desc` do to it and return.  The endpoint addresses and the
 * report buffer size that the `USBHID` base class supplies are fixed when the
 * object is made; `reportLength` is the base class field that `report_desc`
 * sets, and `configurationDescriptor` is the 41-byte array the object owns.
 */
module Mouse16 {
  import opened Bytes
  import MouseReport
  import MouseReportDescriptor
  import opened ConfigurationDescriptor

  /** `memcpy(dst, src, n)` with `n` the length of both. */
  method CopyInto(dst: array<byte>, src: seq<byte>)
    requires |src| == dst.Length
    modifies dst
    ensures dst[..] == src
  {
    var i := 0;
    while i < dst.Length
      invariant 0 <= i <= dst.Length
      invariant dst[..i] == src[..i]
    {
      dst[i] := src[i];
      i := i + 1;
    }
  }

  class USBMouse16 {
    /** `_int_in` and `_int_out`, the interrupt endpoint addresses. */
    const intIn: byte
    const intOut: byte
    /** `MAX_HID_REPORT_SIZE`: the capacity of a report's data buffer, also
        announced as the endpoints' maximum packet size. */
    const maxHidReportSize: uint16
    /** `reportLength`, set by `report_desc`. */
    var reportLength: uint16
    /** `_configuration_descriptor[41]`. */
    const configurationDescriptor: array<byte>

    predicate Valid()
    {
      && configurationDescriptor.Length == TOTAL_DESCRIPTOR_LENGTH as int
      && maxHidReportSize >= MouseReport.REPORT_LENGTH
    }

    constructor(intIn: byte, intOut: byte, maxHidReportSize: uint16)
      requires maxHidReportSize >= MouseReport.REPORT_LENGTH
      ensures Valid() && fresh(configurationDescriptor)
      ensures this.intIn == intIn && this.intOut == intOut && this.maxHidReportSize == maxHidReportSize
      ensures reportLength == 0
    {
      this.intIn := intIn;
      this.intOut := intOut;
      this.maxHidReportSize := maxHidReportSize;
      reportLength := 0;
      configurationDescriptor := new byte[TOTAL_DESCRIPTOR_LENGTH];
    }

    /** `update`: fill a report buffer with the six bytes of the motion, set its
        length to 6 and hand the report to `send`, whose answer is returned.
        `send` sees the first `length` bytes of the buffer. */
    method Update(x: int16, y: int16, buttons: byte, z: int8, send: seq<byte> -> bool) returns (ret: bool)
      requires Valid()
      ensures ret == send(MouseReport.Encode(x, y, buttons, z))
    {
      var data := new byte[maxHidReportSize];
      data[0] := buttons;
      data[1] := ToUint8(x);
      data[2] := ToUint8(ToUint16(x) / 0x100);
      data[3] := ToUint8(y);
      data[4] := ToUint8(ToUint16(y) / 0x100);
      data[5] := ToUint8(-(z as int));
      var length := MouseReport.REPORT_LENGTH;
      assert data[..length] == MouseReport.Encode(x, y, buttons, z);
      ret := send(data[..length]);
    }

    /** `report_desc`: the report descriptor, its length stored in `reportLength`. */
    method ReportDesc() returns (d: seq<byte>)
      modifies this`reportLength
      ensures d == MouseReportDescriptor.ReportDescriptor()
      ensures reportLength as int == |d| == 66
    {
      MouseReportDescriptor.DescriptorParses();
      d := MouseReportDescriptor.ReportDescriptor();
      reportLength := |d|;
    }

    /** `report_desc_length()` of the base class: calls `report_desc` and
        returns the length it stored. */
    method ReportDescLength() returns (n: uint16)
      modifies this`reportLength
      ensures n == reportLength && n as int == |MouseReportDescriptor.ReportDescriptor()| == 66
    {
      var _ := ReportDesc();
      n := reportLength;
    }

    /** `configuration_desc`: no descriptor, and nothing written, for an index
        other than 0; for index 0 the 41 bytes, copied into the owned array,
        which is returned.  What is written depends only on the endpoint
        addresses and the buffer size, so every call writes the same bytes. */
    method ConfigurationDesc(index: byte) returns (p: array?<byte>)
      requires Valid()
      modifies this`reportLength, configurationDescriptor
      ensures index != 0 ==> p == null && reportLength == old(reportLength)
      ensures index != 0 ==> configurationDescriptor[..] == old(configurationDescriptor[..])
      ensures index == 0 ==> p == configurationDescriptor
      ensures index == 0 ==> reportLength as int == |MouseReportDescriptor.ReportDescriptor()|
      ensures index == 0 ==> p[..] == ConfigurationBytes(intIn, intOut, maxHidReportSize, reportLength)
    {
      if index != 0 {
        return null;
      }
      var lengthLow := ReportDescLength();
      var lengthHigh := ReportDescLength();
      var temp := ConfigurationBytes(intIn, intOut, maxHidReportSize, lengthLow);
      assert |temp| == configurationDescriptor.Length;
      CopyInto(configurationDescriptor, temp);
      p := configurationDescriptor;
    }
  }
}
