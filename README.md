# USBMouse16 in Dafny

This project models the mbed `USBMouse16` class (`relmouse_16.h`), a USB HID
mouse whose X and Y axes are relative 16-bit values. It covers the class's
three operations:

- `update(x, y, buttons, z)` packs the 6-byte input report
  `[buttons, x_lo, x_hi, y_lo, y_hi, -z]` and hands it to `send`.
- `report_desc()` returns the 66-byte HID report descriptor and stores its
  length in `reportLength`.
- `configuration_desc(index)` returns NULL for an index other than 0. For
  index 0 it builds the 41-byte configuration block (configuration, interface,
  HID, and two endpoint descriptors) and copies it into the object's
  `_configuration_descriptor` array.

The byte strings are modelled as pure functions. The object is a Dafny class:

- a `reportLength` field;
- an owned 41-byte array;
- the endpoint addresses `_int_in`, `_int_out` and the buffer size
  `MAX_HID_REPORT_SIZE`, which its base class supplies and which are fixed when
  the object is made.

Each byte string is proved against the way a host reads it:

- **Report descriptor.** The descriptor is split into HID 1.11 short items.
  An item-state parser (global and local items, collections, Input items)
  then turns them into input fields.
- **Input report.** The report that `update` sends is read field by field, as
  HID 1.11 section 5.8 describes: little-endian bit fields, sign-extended
  when the logical minimum is negative.
- **Configuration block.** The block is split into descriptors by their
  bLength bytes.

Modules, one file each:

- `Bytes` (`bytes.dfy`): byte and integer widths, C conversions, little-endian numbers.
- `Wrappers` (`wrappers.dfy`): `Option`.
- `MouseReport` (`mouse_report.dfy`): the report `update` builds, and its decoding.
- `HidItems` (`hid_items.dfy`): short items, the item-prefix macros, encoding and parsing.
- `HidInputFields` (`hid_input_fields.dfy`): the host's item-state parser and field reading.
- `MouseReportDescriptor` (`report_descriptor.dfy`): the descriptor of `report_desc` and what a host reads from it.
- `ConfigurationDescriptor` (`configuration_descriptor.dfy`): the block of `configuration_desc(0)`.
- `Mouse16` (`usb_mouse16.dfy`): the `USBMouse16` object and its methods.

## Model

| member | source | states |
|---|---|---|
| MouseReport.Encode | relmouse_16.h:79-87 | the report is 6 bytes long and byte 0 is `buttons` unmasked |
| MouseReport.AxesAreLittleEndian | relmouse_16.h:81-84 | bytes 1-2 and 3-4 are the low and high bytes of `(uint16_t)x` and `(uint16_t)y`; read little-endian as `int16_t` they give back `x` and `y` |
| MouseReport.WheelIsNegated | relmouse_16.h:85 | byte 5 is `(-z) mod 256`; read as `int8_t` it is `-z`, except for z = -128, which wraps to -128 |
| MouseReport.DecodeEncode | relmouse_16.h:79-87 | decoding the report of any call gives back all four arguments, buttons bits 5-7 included |
| MouseReport.EncodeDecode | relmouse_16.h:79-87 | every 6-byte string is the report of the arguments it decodes to (the encoding is onto) |
| MouseReport.EncodeInjective | relmouse_16.h:79-87 | two calls with different arguments send different reports |
| MouseReport.ExampleReports | relmouse_16.h:79-87 | two concrete argument sets produce the expected wire bytes |
| HidItems.MacroValues | relmouse_16.h:98-136 | the item-prefix macros used by the descriptor have the HID 1.11 prefix values (0x05, 0x09, 0xA1, 0x95, 0x75, 0x19, 0x29, 0x15, 0x25, 0x16, 0x26, 0x81, 0xC0) |
| HidItems.ParseItems | relmouse_16.h:97-137 | a byte string that splits into short items yields only well-formed items |
| HidItems.ParseEncode | relmouse_16.h:97-137 | parsing the encoding of well-formed items gives the items back |
| HidItems.EncodeParse | relmouse_16.h:97-137 | a byte string that parses is exactly the encoding of its items: each prefix's bSize matches the data bytes after it |
| HidItems.EncodeAppend | relmouse_16.h:97-137 | encoding a concatenation of item lists is the concatenation of their encodings |
| HidItems.ParseAppend | relmouse_16.h:97-137 | parsing two item streams one after the other gives their items one after the other |
| HidInputFields.RunAppend | relmouse_16.h:97-137 | interpreting two item lists in sequence is interpreting the first and then the second from the state it leaves |
| HidInputFields.RunOfSteps | relmouse_16.h:97-137 | a run through states in which each item steps to the next ends in the last state |
| HidInputFields.UsageRange | relmouse_16.h:108-109 | Usage Minimum / Usage Maximum declare the usages lo, lo+1, ..., hi-1, as many as the range holds |
| HidInputFields.ByteAlignedField | relmouse_16.h:118-133 | a field on byte boundaries is the little-endian number of its bytes |
| HidInputFields.FirstByteBits | relmouse_16.h:105-116 | a bit field inside the first byte is read from that byte alone |
| HidInputFields.FirstByteFlags | relmouse_16.h:105-112 | n one-bit unsigned values at the start of a report are bits 0..n-1 of byte 0 |
| HidInputFields.FirstByteValue | relmouse_16.h:114-116 | one unsigned value inside byte 0 is the corresponding bits of byte 0 |
| HidInputFields.SignedWordValue | relmouse_16.h:118-125 | a signed 16-bit field on a byte boundary is the `int16_t` reading of its two bytes, low byte first |
| HidInputFields.FieldValuesAt | relmouse_16.h:105-133 | the i-th value of a field sits i report sizes after its first bit |
| HidInputFields.FieldValues | relmouse_16.h:105-133 | a field with a report count of n yields n values |
| HidInputFields.InputValues | relmouse_16.h:105-133 | a report yields as many values as the report counts of the fields add up to |
| MouseReportDescriptor.ReportDescriptor | relmouse_16.h:97-137 | the descriptor bytes are the encoding of the 33 items written with the macros, group after group |
| MouseReportDescriptor.CollectionsOpen | relmouse_16.h:98-102 | the opening bytes encode Usage Page, Usage, Collection, Usage, Collection with their data |
| MouseReportDescriptor.ButtonsLayout | relmouse_16.h:105-109 | the bytes encode Report Count 5, Report Size 1, Usage Page Button, Usage Minimum 1, Usage Maximum 5 |
| MouseReportDescriptor.ButtonsInput | relmouse_16.h:110-112 | the bytes encode Logical Minimum 0, Logical Maximum 1 and Input 0x02 |
| MouseReportDescriptor.Buttons | relmouse_16.h:105-112 | the button bytes are the encoding of the layout items followed by the Input items |
| MouseReportDescriptor.Padding | relmouse_16.h:114-116 | the bytes encode Report Count 1, Report Size 3 and Input 0x01 |
| MouseReportDescriptor.AxesLayout | relmouse_16.h:118-122 | the bytes encode Report Count 2, Report Size 16, Usage Page Generic Desktop, Usages X and Y |
| MouseReportDescriptor.AxesInput | relmouse_16.h:123-125 | the bytes encode the two-byte Logical Minimum 0x01 0x80, Logical Maximum 0xff 0x7f and Input 0x06 |
| MouseReportDescriptor.Axes | relmouse_16.h:118-125 | the axis bytes are the encoding of the layout items followed by the Input items |
| MouseReportDescriptor.WheelLayout | relmouse_16.h:127-130 | the bytes encode Report Count 1, Report Size 8, Usage Page Generic Desktop, Usage Wheel |
| MouseReportDescriptor.WheelInput | relmouse_16.h:131-133 | the bytes encode Logical Minimum 0x81, Logical Maximum 0x7f and Input 0x06 |
| MouseReportDescriptor.Wheel | relmouse_16.h:127-133 | the wheel bytes are the encoding of the layout items followed by the Input items |
| MouseReportDescriptor.CollectionsClose | relmouse_16.h:135-136 | the closing bytes encode two End Collection items without data |
| MouseReportDescriptor.DescriptorParses | relmouse_16.h:97-138 | the descriptor parses as 33 well-formed short items; its length, the value `report_desc` stores in `reportLength`, is 66 |
| MouseReportDescriptor.CollectionsOpenRun | relmouse_16.h:98-102 | the Application collection is opened with usage Generic Desktop / Mouse and, inside it, the Physical collection with usage Pointer; each collection keeps its usage page and usage |
| MouseReportDescriptor.ButtonsLayoutRun | relmouse_16.h:105-109 | count 5, size 1, Button page, usages 1 to 5 |
| MouseReportDescriptor.ButtonsInputRun | relmouse_16.h:110-112 | the buttons become one Input field of five 1-bit values in [0, 1] |
| MouseReportDescriptor.PaddingRun | relmouse_16.h:114-116 | three constant padding bits follow as a second field |
| MouseReportDescriptor.AxesLayoutRun | relmouse_16.h:118-122 | count 2, size 16, Generic Desktop page, usages X and Y |
| MouseReportDescriptor.AxesLimitValues | relmouse_16.h:123-124 | the two-byte logical limits 0x01 0x80 and 0xff 0x7f decode to -32767 and 32767 (`X_MIN_REL` ... `Y_MAX_REL`) |
| MouseReportDescriptor.AxesInputRun | relmouse_16.h:123-125 | X and Y become one relative Input field of two 16-bit values in [-32767, 32767] |
| MouseReportDescriptor.WheelLayoutRun | relmouse_16.h:127-130 | count 1, size 8, Generic Desktop page, usage Wheel |
| MouseReportDescriptor.WheelInputRun | relmouse_16.h:131-133 | the wheel becomes one relative Input field of an 8-bit value in [-127, 127] |
| MouseReportDescriptor.CollectionsCloseRun | relmouse_16.h:135-136 | the two End Collection items close both collections |
| MouseReportDescriptor.DescriptorRun | relmouse_16.h:97-137 | the whole item stream is accepted and ends with every collection closed and the four fields found |
| MouseReportDescriptor.DescriptorFields | relmouse_16.h:97-138 | a host finds exactly the buttons, padding, axes and wheel fields with balanced collections; they hold 9 values and 48 bits, the 6 bytes `update` sends |
| MouseReportDescriptor.HostReading | relmouse_16.h:75-137 | from `update`'s report a host reads buttons bits 0-4, bits 5-7 as padding, `x` and `y` exactly, and `-z` as the wheel; x or y = -32768 and z = -128 fall below the declared logical minimum |
| MouseReportDescriptor.HostReadsButtons | relmouse_16.h:105-116 | the five button values are bits 0-4 of `buttons` and the padding value is `buttons / 32` |
| MouseReportDescriptor.HostReadsAxes | relmouse_16.h:118-125 | the two axis values are `x` and `y`, below -32767 exactly when the argument is -32768 |
| MouseReportDescriptor.HostReadsWheel | relmouse_16.h:127-133 | the wheel value is `-z`, and below -127 exactly for z = -128 |
| MouseReportDescriptor.MouseValues | relmouse_16.h:105-133 | the values of a report are those of the four fields at bit offsets 0, 5, 8 and 40 |
| MouseReportDescriptor.AxesValues | relmouse_16.h:81-84 | the axis field of `update`'s report holds `[x, y]` |
| MouseReportDescriptor.WheelValue | relmouse_16.h:85 | the wheel field of `update`'s report holds byte 5 read as `int8_t` |
| MouseReportDescriptor.PaddingValue | relmouse_16.h:114-116 | the padding field holds bits 5-7 of byte 0 |
| Bytes.Lsb | relmouse_16.h:156 | `LSB(v)` is a byte congruent to `v` modulo 256 |
| Bytes.Msb | relmouse_16.h:157 | `MSB(v)` is the byte that, 256 times over and added to `LSB(v)`, gives back `v` |
| Bytes.Le16OfBytes | relmouse_16.h:156-157 | the pair `LSB(v)`, `MSB(v)` read little-endian is `v` |
| ConfigurationDescriptor.ConfigurationPart | relmouse_16.h:154-162 | a 9-byte Configuration descriptor with bNumInterfaces 1 and bConfigurationValue `DEFAULT_CONFIGURATION` |
| ConfigurationDescriptor.InterfacePart | relmouse_16.h:164-172 | a 9-byte Interface descriptor with two endpoints, class HID, boot subclass, mouse protocol |
| ConfigurationDescriptor.HidPart | relmouse_16.h:174-182 | a 9-byte HID descriptor announcing one descriptor of type Report |
| ConfigurationDescriptor.EndpointPart | relmouse_16.h:184-190 | a 7-byte interrupt Endpoint descriptor for the given address, polled every frame |
| ConfigurationDescriptor.ConfigurationBytes | relmouse_16.h:153-199 | the block is `TOTAL_DESCRIPTOR_LENGTH` = 41 bytes long, so the size check before `memcpy` holds |
| ConfigurationDescriptor.SplitDescriptors | relmouse_16.h:153-199 | every descriptor a host splits off is at least 2 bytes long and as long as its bLength says |
| ConfigurationDescriptor.SplitConcat | relmouse_16.h:153-199 | splitting loses nothing: the descriptors put back together are the block, and their bLengths add up to its length |
| ConfigurationDescriptor.ConcatSplit | relmouse_16.h:153-199 | descriptors with correct bLengths, concatenated, split back into themselves |
| ConfigurationDescriptor.ConfigurationSplits | relmouse_16.h:153-199 | the block splits into the configuration, interface, HID and two endpoint descriptors |
| ConfigurationDescriptor.TotalLengthConsistent | relmouse_16.h:143-157 | wTotalLength equals the block's length and the sum of its five bLengths, 41 |
| ConfigurationDescriptor.TotalLengthField | relmouse_16.h:143-146 | wTotalLength reads as `TOTAL_DESCRIPTOR_LENGTH`, one configuration, one interface, one HID and two endpoint descriptor lengths: 41 |
| ConfigurationDescriptor.LengthsAddUp | relmouse_16.h:153-199 | the block is as long as the bLengths of its five descriptors add up to |
| ConfigurationDescriptor.CountsConsistent | relmouse_16.h:158-168 | bNumInterfaces and bNumEndpoints count the interface and endpoint descriptors of the block |
| ConfigurationDescriptor.ReportLengthConsistent | relmouse_16.h:176-182 | the HID descriptor carries bcdHID 1.11 and announces one report descriptor whose wDescriptorLength is the report descriptor length |
| ConfigurationDescriptor.EndpointsConsistent | relmouse_16.h:184-198 | the endpoints carry `_int_in`, `_int_out` and wMaxPacketSize `MAX_HID_REPORT_SIZE` |
| Mouse16.CopyInto | relmouse_16.h:200-201 | `memcpy` of a sequence into an array of the same size leaves the array equal to it |
| Mouse16.USBMouse16.constructor | relmouse_16.h:61-64 | the object owns a fresh 41-byte descriptor array and keeps its endpoint addresses and buffer size |
| Mouse16.USBMouse16.Update | relmouse_16.h:75-93 | the result is `send`'s answer on exactly the six bytes of `Encode(x, y, buttons, z)` |
| Mouse16.USBMouse16.ReportDesc | relmouse_16.h:95-140 | returns the report descriptor and stores its length, 66, in `reportLength` |
| Mouse16.USBMouse16.ReportDescLength | relmouse_16.h:181-182 | `report_desc_length()` yields 66 and leaves `reportLength` at 66 |
| Mouse16.USBMouse16.ConfigurationDesc | relmouse_16.h:148-203 | index != 0: returns null and changes neither `reportLength` nor the array; index 0: sets `reportLength` to the length of the report descriptor and returns the owned array holding the block for `_int_in`, `_int_out`, `MAX_HID_REPORT_SIZE` and that length |

## Left out

- The mutex `_mutex` (lines 50, 77, 91) only serialises concurrent callers; concurrency is not modelled.
- `send` (line 89) belongs to `USBHID` and talks to the USB stack. It is a function parameter of `Update`, whose result is returned unchanged.
- Both constructors, the destructor and the vendor, product and release IDs (lines 35-39, 61-73) only configure the base class. The model's constructor takes `_int_in`, `_int_out` and `MAX_HID_REPORT_SIZE` as parameters.
- `USBHID.h`, `USBDescriptor.h` and `USBHID_Types.h` are not part of this model. Their macro values are taken from USB 2.0 (chapter 9) and HID 1.11, as mbed defines them: the item-prefix macros, descriptor types and lengths, `C_RESERVED`, `C_SELF_POWERED`, `C_POWER`, `E_INTERRUPT`, `HID_CLASS`, `HID_SUBCLASS_BOOT`, `HID_PROTOCOL_MOUSE`, `HID_VERSION_1_11`, `LSB` and `MSB`.
- `REPORT_ID_MOUSE` (line 26) is defined but never used by the descriptor or the report.
- Mouse16.USBMouse16.Update: the bytes of the `HID_REPORT` buffer past `length` are left as they are in the source. Only the six bytes `send` reads are stated.
- Mouse16.USBMouse16.ReportDesc: returns the descriptor as a value rather than a pointer to a static array. It is the same 66 bytes on every call, so pointer identity is not modelled.
- `MBED_ASSERT` (line 200): the model proves that the size check holds (`ConfigurationBytes` is 41 bytes long) instead of checking it at run time.
- HidInputFields.Step: the host-side parser does not interpret Report ID, Push, Pop or long items. The descriptor has none of these.
- HidInputFields.Step: delimiters and string items are ignored.
- HidInputFields.Step: Usage Page is never folded into 32-bit extended usages. Usages are kept as their 16-bit values, beside the usage page.

## Edge cases

Two arguments of `update` produce values outside the ranges the descriptor
declares. `MouseReportDescriptor.HostReading` states both as proved behaviour:

- `x` or `y` equal to -32768 is sent unchanged (0x00 0x80). The logical
  minimum is -32767, so a host sees that value as out of range.
- `z` equal to -128 is sent as 0x80, because its negation does not fit in
  8 bits. That byte reads back as -128, below the wheel's logical minimum of
  -127.
