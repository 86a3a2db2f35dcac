/**
 * The 41-byte configuration descriptor that `USBMouse16::configuration_desc`
 * builds for configuration index 0: a Configuration descriptor (section 9.6.3
 * of the USB 2.0 specification), one Interface descriptor (section 9.6.5), the
 * HID class descriptor (section 6.2.1 of HID 1.11) and two interrupt Endpoint
 * descriptors (section 9.6.6), one after the other.  A host walks such a block
 * descriptor by descriptor, each one's first byte (bLength) giving its size.
 */
module ConfigurationDescriptor {
  import opened Bytes
  import opened Wrappers

  // Descriptor types (USB 2.0, table 9-5; HID 1.11, section 7.1).
  const CONFIGURATION_DESCRIPTOR: byte := 0x02
  const INTERFACE_DESCRIPTOR: byte := 0x04
  const ENDPOINT_DESCRIPTOR: byte := 0x05
  const HID_DESCRIPTOR: byte := 0x21
  const REPORT_DESCRIPTOR: byte := 0x22

  // Descriptor lengths.
  const CONFIGURATION_DESCRIPTOR_LENGTH: byte := 9
  const INTERFACE_DESCRIPTOR_LENGTH: byte := 9
  const HID_DESCRIPTOR_LENGTH: byte := 9
  const ENDPOINT_DESCRIPTOR_LENGTH: byte := 7

  /** `TOTAL_DESCRIPTOR_LENGTH`: one configuration, one interface, one HID and
      two endpoint descriptors. */
  const TOTAL_DESCRIPTOR_LENGTH: uint16 :=
    1 * CONFIGURATION_DESCRIPTOR_LENGTH + 1 * INTERFACE_DESCRIPTOR_LENGTH
    + 1 * HID_DESCRIPTOR_LENGTH + 2 * ENDPOINT_DESCRIPTOR_LENGTH

  const DEFAULT_CONFIGURATION: byte := 1

  // bmAttributes bits of the configuration descriptor and the bMaxPower unit.
  const C_RESERVED: bv8 := 0x80
  const C_SELF_POWERED: bv8 := 0x40

  /** `C_POWER(mA)`: bMaxPower counts units of 2 mA. */
  function CPower(milliamps: nat): nat { milliamps / 2 }

  // Interface class, subclass and protocol codes of a boot mouse (HID 1.11,
  // sections 4.1 to 4.3), the HID release number, and the endpoint type.
  const HID_CLASS: byte := 0x03
  const HID_SUBCLASS_BOOT: byte := 0x01
  const HID_PROTOCOL_MOUSE: byte := 0x02
  const HID_VERSION_1_11: uint16 := 0x0111
  const E_INTERRUPT: byte := 0x03

  /** The configuration descriptor proper: one interface, configuration value 1,
      self-powered, drawing no bus current. */
  function ConfigurationPart(): (r: seq<byte>)
    ensures |r| == CONFIGURATION_DESCRIPTOR_LENGTH as int && r[0] == CONFIGURATION_DESCRIPTOR_LENGTH && r[1] == CONFIGURATION_DESCRIPTOR
    ensures r[4] == 1 && r[5] == DEFAULT_CONFIGURATION
  {
    [ CONFIGURATION_DESCRIPTOR_LENGTH,
      CONFIGURATION_DESCRIPTOR,
      Lsb(TOTAL_DESCRIPTOR_LENGTH),
      Msb(TOTAL_DESCRIPTOR_LENGTH),
      0x01,
      DEFAULT_CONFIGURATION,
      0x00,
      (C_RESERVED | C_SELF_POWERED) as byte,
      CPower(0) ]
  }

  /** Interface 0, alternate setting 0, two endpoints, HID boot mouse. */
  function InterfacePart(): (r: seq<byte>)
    ensures |r| == INTERFACE_DESCRIPTOR_LENGTH as int && r[0] == INTERFACE_DESCRIPTOR_LENGTH && r[1] == INTERFACE_DESCRIPTOR
    ensures r[4] == 2 && r[5] == HID_CLASS && r[6] == HID_SUBCLASS_BOOT && r[7] == HID_PROTOCOL_MOUSE
  {
    [ INTERFACE_DESCRIPTOR_LENGTH,
      INTERFACE_DESCRIPTOR,
      0x00,
      0x00,
      0x02,
      HID_CLASS,
      HID_SUBCLASS_BOOT,
      HID_PROTOCOL_MOUSE,
      0x00 ]
  }

  /** The HID descriptor: HID 1.11, no country code, one report descriptor of
      `reportLength` bytes. */
  function HidPart(reportLength: uint16): (r: seq<byte>)
    ensures |r| == HID_DESCRIPTOR_LENGTH as int && r[0] == HID_DESCRIPTOR_LENGTH && r[1] == HID_DESCRIPTOR
    ensures r[5] == 1 && r[6] == REPORT_DESCRIPTOR
  {
    [ HID_DESCRIPTOR_LENGTH,
      HID_DESCRIPTOR,
      Lsb(HID_VERSION_1_11),
      Msb(HID_VERSION_1_11),
      0x00,
      0x01,
      REPORT_DESCRIPTOR,
      Lsb(reportLength),
      Msb(reportLength) ]
  }

  /** An interrupt endpoint polled every millisecond. */
  function EndpointPart(address: byte, maxPacketSize: uint16): (r: seq<byte>)
    ensures |r| == ENDPOINT_DESCRIPTOR_LENGTH as int && r[0] == ENDPOINT_DESCRIPTOR_LENGTH && r[1] == ENDPOINT_DESCRIPTOR
    ensures r[2] == address && r[3] == E_INTERRUPT && r[6] == 1
  {
    [ ENDPOINT_DESCRIPTOR_LENGTH,
      ENDPOINT_DESCRIPTOR,
      address,
      E_INTERRUPT,
      Lsb(maxPacketSize),
      Msb(maxPacketSize),
      1 ]
  }

  /** The initialiser of `configuration_descriptor_temp`, for the endpoint
      addresses `_int_in` and `_int_out`, `MAX_HID_REPORT_SIZE` and the value of
      `report_desc_length()`. */
  function ConfigurationBytes(intIn: byte, intOut: byte, maxPacketSize: uint16, reportLength: uint16): (d: seq<byte>)
    ensures |d| == TOTAL_DESCRIPTOR_LENGTH
  {
    ConfigurationPart() + InterfacePart() + HidPart(reportLength)
    + EndpointPart(intIn, maxPacketSize) + EndpointPart(intOut, maxPacketSize)
  }

  // How a host takes the block apart.

  /** The descriptors of a block, each as long as its bLength says.  Absent when
      a bLength is below 2 (no room for bDescriptorType) or runs past the end. */
  function SplitDescriptors(s: seq<byte>): (r: Option<seq<seq<byte>>>)
    ensures r.Some? ==> forall i :: 0 <= i < |r.value| ==> 2 <= |r.value[i]| && r.value[i][0] == |r.value[i]|
    decreases |s|
  {
    if |s| == 0 then Some([])
    else if s[0] < 2 || s[0] > |s| then None
    else
      match SplitDescriptors(s[s[0]..])
      case None => None
      case Some(rest) => Some([s[..s[0]]] + rest)
  }

  function Concat(ds: seq<seq<byte>>): seq<byte>
  {
    if |ds| == 0 then [] else ds[0] + Concat(ds[1..])
  }

  /** The sum of the bLength fields of a list of descriptors. */
  function SumOfLengths(ds: seq<seq<byte>>): nat
  {
    if |ds| == 0 then 0 else (if |ds[0]| == 0 then 0 else ds[0][0]) + SumOfLengths(ds[1..])
  }

  /** How many of the descriptors have type `t`. */
  function CountOfType(ds: seq<seq<byte>>, t: byte): nat
  {
    if |ds| == 0 then 0 else (if |ds[0]| >= 2 && ds[0][1] == t then 1 else 0) + CountOfType(ds[1..], t)
  }

  /** Splitting loses nothing: the descriptors put back together are the block,
      and their bLengths add up to its length. */
  lemma {:induction false} SplitConcat(s: seq<byte>)
    requires SplitDescriptors(s).Some?
    ensures Concat(SplitDescriptors(s).value) == s
    ensures SumOfLengths(SplitDescriptors(s).value) == |s|
    decreases |s|
  {
    if |s| > 0 {
      var n := s[0];
      SplitConcat(s[n..]);
      var rest := SplitDescriptors(s[n..]).value;
      var ds := [s[..n]] + rest;
      assert ds[1..] == rest;
      assert s[..n] + s[n..] == s;
    }
  }

  /** A block that starts with a descriptor `a` of the right bLength splits into
      `a` followed by the split of the rest. */
  lemma SplitFirst(a: seq<byte>, rest: seq<byte>)
    requires 2 <= |a| && a[0] == |a|
    ensures SplitDescriptors(a + rest) ==
      match SplitDescriptors(rest)
      case None => None
      case Some(ds) => Some([a] + ds)
  {
    var s := a + rest;
    assert s[..|a|] == a;
    assert s[|a|..] == rest;
  }

  /** The five descriptors of the block, in order. */
  function ConfigurationParts(intIn: byte, intOut: byte, maxPacketSize: uint16, reportLength: uint16): seq<seq<byte>>
  {
    [ConfigurationPart(), InterfacePart(), HidPart(reportLength),
     EndpointPart(intIn, maxPacketSize), EndpointPart(intOut, maxPacketSize)]
  }

  /** Descriptors whose bLengths are right, put one after the other, split back
      into themselves. */
  lemma {:induction false} ConcatSplit(ds: seq<seq<byte>>)
    requires forall i :: 0 <= i < |ds| ==> 2 <= |ds[i]| && ds[i][0] == |ds[i]|
    ensures SplitDescriptors(Concat(ds)) == Some(ds)
  {
    if |ds| > 0 {
      ConcatSplit(ds[1..]);
      SplitFirst(ds[0], Concat(ds[1..]));
      assert [ds[0]] + ds[1..] == ds;
    }
  }

  /** The block of `configuration_desc(0)` splits into its five descriptors. */
  lemma ConfigurationSplits(intIn: byte, intOut: byte, maxPacketSize: uint16, reportLength: uint16)
    ensures SplitDescriptors(ConfigurationBytes(intIn, intOut, maxPacketSize, reportLength)) ==
      Some(ConfigurationParts(intIn, intOut, maxPacketSize, reportLength))
  {
    var ds := ConfigurationParts(intIn, intOut, maxPacketSize, reportLength);
    assert Concat(ds[4..]) == ds[4];
    assert Concat(ds[3..]) == ds[3] + ds[4];
    assert Concat(ds[2..]) == ds[2] + (ds[3] + ds[4]);
    assert Concat(ds[1..]) == ds[1] + (ds[2] + (ds[3] + ds[4]));
    assert Concat(ds) == ConfigurationBytes(intIn, intOut, maxPacketSize, reportLength);
    ConcatSplit(ds);
  }

  /** wTotalLength is the length of the block, which is also the sum of the
      bLengths of its five descriptors. */
  lemma TotalLengthConsistent(intIn: byte, intOut: byte, maxPacketSize: uint16, reportLength: uint16)
    ensures var d := ConfigurationBytes(intIn, intOut, maxPacketSize, reportLength);
      Le16(d[2], d[3]) == |d| == SumOfLengths(ConfigurationParts(intIn, intOut, maxPacketSize, reportLength)) == 41
  {
    TotalLengthField(intIn, intOut, maxPacketSize, reportLength);
    LengthsAddUp(intIn, intOut, maxPacketSize, reportLength);
  }

  lemma TotalLengthField(intIn: byte, intOut: byte, maxPacketSize: uint16, reportLength: uint16)
    ensures var d := ConfigurationBytes(intIn, intOut, maxPacketSize, reportLength);
      Le16(d[2], d[3]) == TOTAL_DESCRIPTOR_LENGTH == 41
  {
    var d := ConfigurationBytes(intIn, intOut, maxPacketSize, reportLength);
    assert d[2] == Lsb(TOTAL_DESCRIPTOR_LENGTH) && d[3] == Msb(TOTAL_DESCRIPTOR_LENGTH);
    Le16OfBytes(TOTAL_DESCRIPTOR_LENGTH);
  }

  lemma LengthsAddUp(intIn: byte, intOut: byte, maxPacketSize: uint16, reportLength: uint16)
    ensures var d := ConfigurationBytes(intIn, intOut, maxPacketSize, reportLength);
      |d| == SumOfLengths(ConfigurationParts(intIn, intOut, maxPacketSize, reportLength))
  {
    var d := ConfigurationBytes(intIn, intOut, maxPacketSize, reportLength);
    ConfigurationSplits(intIn, intOut, maxPacketSize, reportLength);
    SplitConcat(d);
  }

  /** bNumInterfaces and bNumEndpoints count the interface and endpoint
      descriptors in the block. */
  lemma CountsConsistent(intIn: byte, intOut: byte, maxPacketSize: uint16, reportLength: uint16)
    ensures var d := ConfigurationBytes(intIn, intOut, maxPacketSize, reportLength);
      var ds := ConfigurationParts(intIn, intOut, maxPacketSize, reportLength);
      d[4] == CountOfType(ds, INTERFACE_DESCRIPTOR) && d[13] == CountOfType(ds, ENDPOINT_DESCRIPTOR)
  {
    var d := ConfigurationBytes(intIn, intOut, maxPacketSize, reportLength);
    var ds := ConfigurationParts(intIn, intOut, maxPacketSize, reportLength);
    assert CountOfType(ds[4..], INTERFACE_DESCRIPTOR) == 0 && CountOfType(ds[4..], ENDPOINT_DESCRIPTOR) == 1;
    assert CountOfType(ds[3..], INTERFACE_DESCRIPTOR) == 0 && CountOfType(ds[3..], ENDPOINT_DESCRIPTOR) == 2;
    assert CountOfType(ds[2..], INTERFACE_DESCRIPTOR) == 0 && CountOfType(ds[2..], ENDPOINT_DESCRIPTOR) == 2;
    assert CountOfType(ds[1..], INTERFACE_DESCRIPTOR) == 1 && CountOfType(ds[1..], ENDPOINT_DESCRIPTOR) == 2;
    assert d[4] == 1 && d[13] == 2;
  }

  /** The HID descriptor, release 1.11, announces one report descriptor, of
      `reportLength` bytes. */
  lemma ReportLengthConsistent(intIn: byte, intOut: byte, maxPacketSize: uint16, reportLength: uint16)
    ensures var d := ConfigurationBytes(intIn, intOut, maxPacketSize, reportLength);
      && Le16(d[20], d[21]) == HID_VERSION_1_11
      && d[23] == 1 && d[24] == REPORT_DESCRIPTOR && Le16(d[25], d[26]) == reportLength
  {
    var d := ConfigurationBytes(intIn, intOut, maxPacketSize, reportLength);
    assert d[20] == Lsb(HID_VERSION_1_11) && d[21] == Msb(HID_VERSION_1_11);
    Le16OfBytes(HID_VERSION_1_11);
    assert d[25] == Lsb(reportLength) && d[26] == Msb(reportLength);
    Le16OfBytes(reportLength);
  }

  /** The two endpoints carry the given addresses and maximum packet size. */
  lemma EndpointsConsistent(intIn: byte, intOut: byte, maxPacketSize: uint16, reportLength: uint16)
    ensures var d := ConfigurationBytes(intIn, intOut, maxPacketSize, reportLength);
      && d[29] == intIn && d[36] == intOut
      && Le16(d[31], d[32]) == maxPacketSize && Le16(d[38], d[39]) == maxPacketSize
  {
    var d := ConfigurationBytes(intIn, intOut, maxPacketSize, reportLength);
    assert d[31] == Lsb(maxPacketSize) && d[32] == Msb(maxPacketSize);
    assert d[38] == Lsb(maxPacketSize) && d[39] == Msb(maxPacketSize);
    Le16OfBytes(maxPacketSize);
  }
}
