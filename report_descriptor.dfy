/**
 * The HID report descriptor of `USBMouse16::report_desc`, and what a host
 * reads from it: the input fields of the report, their bit widths, logical
 * ranges, usages and enclosing collections (HID 1.11, sections 5 and 6.2.2).
 */
module MouseReportDescriptor {
  import opened Bytes
  import opened Wrappers
  import opened HidItems
  import opened HidInputFields
  import MouseReport

  // Usage pages and usages of the HID Usage Tables.
  const GENERIC_DESKTOP_PAGE: nat := 0x01
  const BUTTON_PAGE: nat := 0x09
  const POINTER_USAGE: nat := 0x01
  const MOUSE_USAGE: nat := 0x02
  const X_USAGE: nat := 0x30
  const Y_USAGE: nat := 0x31
  const WHEEL_USAGE: nat := 0x38

  // Collection types (section 6.2.2.6).
  const PHYSICAL: nat := 0x00
  const APPLICATION: nat := 0x01

  // Bits of the Input item data (section 6.2.2.5).
  const CONSTANT_BIT: nat := 0x01
  const VARIABLE_BIT: nat := 0x02
  const RELATIVE_BIT: nat := 0x04

  // The descriptor, group by group as the comments of the C++ array divide it.

  /** Generic Desktop / Mouse application collection holding a Pointer physical collection. */
  function CollectionsOpen(): (r: seq<byte>)
    ensures r == EncodeItems(CollectionsOpenItems())
  {
    [ UsagePage(1), 0x01,  // Generic Desktop
      Usage(1), 0x02,      // Mouse
      Collection(1), 0x01, // Application
      Usage(1), 0x01,      // Pointer
      Collection(1), 0x00  // Physical
    ]
  }

  /** Five 1-bit buttons, Button page usages 1 to 5, logical range [0, 1]. */
  function Buttons(): (r: seq<byte>)
    ensures r == EncodeItems(ButtonsItems())
  {
    EncodeAppend(ButtonsLayoutItems(), ButtonsInputItems());
    ButtonsLayout() + ButtonsInput()
  }

  function ButtonsLayout(): (r: seq<byte>)
    ensures r == EncodeItems(ButtonsLayoutItems())
  {
    [ ReportCount(1), 0x05,
      ReportSize(1), 0x01,
      UsagePage(1), 0x09,
      UsageMinimum(1), 0x01,
      UsageMaximum(1), 0x05 ]
  }

  function ButtonsInput(): (r: seq<byte>)
    ensures r == EncodeItems(ButtonsInputItems())
  {
    [ LogicalMinimum(1), 0x00,
      LogicalMaximum(1), 0x01,
      Input(1), 0x02 ]                 // data, variable, absolute
  }

  /** Three constant bits completing the buttons' byte. */
  function Padding(): (r: seq<byte>)
    ensures r == EncodeItems(PaddingItems())
  {
    [ ReportCount(1), 0x01,
      ReportSize(1), 0x03,
      Input(1), 0x01 ]                 // constant
  }

  /** X and Y: two 16-bit relative values in [-32767, 32767]. */
  function Axes(): (r: seq<byte>)
    ensures r == EncodeItems(AxesItems())
  {
    EncodeAppend(AxesLayoutItems(), AxesInputItems());
    AxesLayout() + AxesInput()
  }

  function AxesLayout(): (r: seq<byte>)
    ensures r == EncodeItems(AxesLayoutItems())
  {
    [ ReportCount(1), 2,
      ReportSize(1), 16,
      UsagePage(1), 1,
      Usage(1), 0x30,                  // X
      Usage(1), 0x31 ]                 // Y
  }

  function AxesInput(): (r: seq<byte>)
    ensures r == EncodeItems(AxesInputItems())
  {
    [ LogicalMinimum(2), 0x01, 0x80,
      LogicalMaximum(2), 0xff, 0x7f,
      Input(1), 0x06 ]                 // relative data
  }

  /** The wheel: one 8-bit relative value in [-127, 127]. */
  function Wheel(): (r: seq<byte>)
    ensures r == EncodeItems(WheelItems())
  {
    EncodeAppend(WheelLayoutItems(), WheelInputItems());
    WheelLayout() + WheelInput()
  }

  function WheelLayout(): (r: seq<byte>)
    ensures r == EncodeItems(WheelLayoutItems())
  {
    [ ReportCount(1), 1,
      ReportSize(1), 8,
      UsagePage(1), 1,
      Usage(1), 0x38 ]                 // scroll
  }

  function WheelInput(): (r: seq<byte>)
    ensures r == EncodeItems(WheelInputItems())
  {
    [ LogicalMinimum(1), 0x81,
      LogicalMaximum(1), 0x7f,
      Input(1), 0x06 ]                 // relative data
  }

  function CollectionsClose(): (r: seq<byte>)
    ensures r == EncodeItems(CollectionsCloseItems())
  {
    [ EndCollection(0),
      EndCollection(0) ]
  }

  /** The static `report_descriptor[]` array. */
  function ReportDescriptor(): (d: seq<byte>)
    ensures d == EncodeItems(DescriptorItems())
  {
    EncodeGroups(CollectionsOpenItems(), ButtonsItems(), PaddingItems(), AxesItems(), WheelItems(), CollectionsCloseItems(),
                 CollectionsOpen(), Buttons(), Padding(), Axes(), Wheel(), CollectionsClose());
    CollectionsOpen() + Buttons() + Padding() + Axes() + Wheel() + CollectionsClose()
  }

  // The same groups as items.

  function CollectionsOpenItems(): seq<Item>
  {
    [ Item(Global, USAGE_PAGE_TAG, [0x01]),
      Item(Local, USAGE_TAG, [0x02]),
      Item(Main, COLLECTION_TAG, [0x01]),
      Item(Local, USAGE_TAG, [0x01]),
      Item(Main, COLLECTION_TAG, [0x00]) ]
  }

  function ButtonsItems(): seq<Item>
  {
    ButtonsLayoutItems() + ButtonsInputItems()
  }

  function ButtonsLayoutItems(): seq<Item>
  {
    [ Item(Global, REPORT_COUNT_TAG, [0x05]),
      Item(Global, REPORT_SIZE_TAG, [0x01]),
      Item(Global, USAGE_PAGE_TAG, [0x09]),
      Item(Local, USAGE_MINIMUM_TAG, [0x01]),
      Item(Local, USAGE_MAXIMUM_TAG, [0x05]) ]
  }

  function ButtonsInputItems(): seq<Item>
  {
    [ Item(Global, LOGICAL_MINIMUM_TAG, [0x00]),
      Item(Global, LOGICAL_MAXIMUM_TAG, [0x01]),
      Item(Main, INPUT_TAG, [0x02]) ]
  }

  function PaddingItems(): seq<Item>
  {
    [ Item(Global, REPORT_COUNT_TAG, [0x01]),
      Item(Global, REPORT_SIZE_TAG, [0x03]),
      Item(Main, INPUT_TAG, [0x01]) ]
  }

  function AxesItems(): seq<Item>
  {
    AxesLayoutItems() + AxesInputItems()
  }

  function AxesLayoutItems(): seq<Item>
  {
    [ Item(Global, REPORT_COUNT_TAG, [2]),
      Item(Global, REPORT_SIZE_TAG, [16]),
      Item(Global, USAGE_PAGE_TAG, [1]),
      Item(Local, USAGE_TAG, [0x30]),
      Item(Local, USAGE_TAG, [0x31]) ]
  }

  function AxesInputItems(): seq<Item>
  {
    [ Item(Global, LOGICAL_MINIMUM_TAG, [0x01, 0x80]),
      Item(Global, LOGICAL_MAXIMUM_TAG, [0xff, 0x7f]),
      Item(Main, INPUT_TAG, [0x06]) ]
  }

  function WheelItems(): seq<Item>
  {
    WheelLayoutItems() + WheelInputItems()
  }

  function WheelLayoutItems(): seq<Item>
  {
    [ Item(Global, REPORT_COUNT_TAG, [1]),
      Item(Global, REPORT_SIZE_TAG, [8]),
      Item(Global, USAGE_PAGE_TAG, [1]),
      Item(Local, USAGE_TAG, [0x38]) ]
  }

  function WheelInputItems(): seq<Item>
  {
    [ Item(Global, LOGICAL_MINIMUM_TAG, [0x81]),
      Item(Global, LOGICAL_MAXIMUM_TAG, [0x7f]),
      Item(Main, INPUT_TAG, [0x06]) ]
  }

  function CollectionsCloseItems(): seq<Item>
  {
    [ Item(Main, END_COLLECTION_TAG, []),
      Item(Main, END_COLLECTION_TAG, []) ]
  }

  function DescriptorItems(): seq<Item>
  {
    CollectionsOpenItems() + ButtonsItems() + PaddingItems() + AxesItems() + WheelItems() + CollectionsCloseItems()
  }

  lemma DescriptorWellFormed()
    ensures AllWellFormed(DescriptorItems())
  {
  }

  /** Six groups of items encode to the six groups of bytes one after the other. */
  lemma EncodeGroups(a1: seq<Item>, a2: seq<Item>, a3: seq<Item>, a4: seq<Item>, a5: seq<Item>, a6: seq<Item>,
                     b1: seq<byte>, b2: seq<byte>, b3: seq<byte>, b4: seq<byte>, b5: seq<byte>, b6: seq<byte>)
    requires EncodeItems(a1) == b1 && EncodeItems(a2) == b2 && EncodeItems(a3) == b3
    requires EncodeItems(a4) == b4 && EncodeItems(a5) == b5 && EncodeItems(a6) == b6
    ensures EncodeItems(a1 + a2 + a3 + a4 + a5 + a6) == b1 + b2 + b3 + b4 + b5 + b6
  {
    EncodeAppend(a1, a2);
    EncodeAppend(a1 + a2, a3);
    EncodeAppend(a1 + a2 + a3, a4);
    EncodeAppend(a1 + a2 + a3 + a4, a5);
    EncodeAppend(a1 + a2 + a3 + a4 + a5, a6);
  }

  /** The descriptor is a well-formed stream of 33 short items, 66 bytes long:
      every prefix's bSize matches the data bytes that follow it. */
  lemma DescriptorParses()
    ensures ParseItems(ReportDescriptor()) == Some(DescriptorItems())
    ensures |ReportDescriptor()| == 66 && |DescriptorItems()| == 33
  {
    DescriptorWellFormed();
    ParseEncode(DescriptorItems());
  }

  // What the host reads from the descriptor.

  /** A Generic Desktop Mouse application collection holding a Pointer
      physical collection. */
  const MOUSE_COLLECTIONS: seq<OpenCollection> :=
    [OpenCollection(APPLICATION, GENERIC_DESKTOP_PAGE, MOUSE_USAGE), OpenCollection(PHYSICAL, GENERIC_DESKTOP_PAGE, POINTER_USAGE)]

  /** The fields the descriptor is meant to declare, as the layout of the report
      is described: five 1-bit buttons, three constant bits, X and Y as 16-bit
      relative values in [-32767, 32767], and an 8-bit relative wheel in [-127, 127],
      all inside the Mouse application collection's Pointer physical collection. */
  function MouseFields(): seq<Field>
  {
    [ButtonsField(), PaddingField(), AxesField(), WheelField()]
  }

  function ButtonsField(): Field
  {
    Field(VARIABLE_BIT, BUTTON_PAGE, [1, 2, 3, 4, 5], 0, 1, 1, 5, MOUSE_COLLECTIONS)
  }

  function PaddingField(): Field
  {
    Field(CONSTANT_BIT, BUTTON_PAGE, [], 0, 1, 3, 1, MOUSE_COLLECTIONS)
  }

  function AxesField(): Field
  {
    Field(VARIABLE_BIT + RELATIVE_BIT, GENERIC_DESKTOP_PAGE, [X_USAGE, Y_USAGE],
          MouseReport.X_MIN_REL, MouseReport.X_MAX_REL, 16, 2, MOUSE_COLLECTIONS)
  }

  function WheelField(): Field
  {
    Field(VARIABLE_BIT + RELATIVE_BIT, GENERIC_DESKTOP_PAGE, [WHEEL_USAGE], -127, 127, 8, 1, MOUSE_COLLECTIONS)
  }

  // The parser state after each group of items.

  function AfterOpen(): Parser { Parser(GENERIC_DESKTOP_PAGE, 0, 0, 0, 0, [], 0, MOUSE_COLLECTIONS, []) }
  function AfterButtonsLayout(): Parser { Parser(BUTTON_PAGE, 0, 0, 1, 5, [1, 2, 3, 4, 5], 1, MOUSE_COLLECTIONS, []) }
  function AfterButtons(): Parser { Parser(BUTTON_PAGE, 0, 1, 1, 5, [], 0, MOUSE_COLLECTIONS, [ButtonsField()]) }
  function AfterPadding(): Parser { Parser(BUTTON_PAGE, 0, 1, 3, 1, [], 0, MOUSE_COLLECTIONS, [ButtonsField(), PaddingField()]) }
  function AfterAxesLayout(): Parser { Parser(GENERIC_DESKTOP_PAGE, 0, 1, 16, 2, [X_USAGE, Y_USAGE], 0, MOUSE_COLLECTIONS, [ButtonsField(), PaddingField()]) }
  function AfterAxes(): Parser { Parser(GENERIC_DESKTOP_PAGE, -32767, 32767, 16, 2, [], 0, MOUSE_COLLECTIONS, [ButtonsField(), PaddingField(), AxesField()]) }
  function AfterWheelLayout(): Parser { Parser(GENERIC_DESKTOP_PAGE, -32767, 32767, 8, 1, [WHEEL_USAGE], 0, MOUSE_COLLECTIONS, [ButtonsField(), PaddingField(), AxesField()]) }
  function AfterWheel(): Parser { Parser(GENERIC_DESKTOP_PAGE, -127, 127, 8, 1, [], 0, MOUSE_COLLECTIONS, MouseFields()) }
  function AfterClose(): Parser { Parser(GENERIC_DESKTOP_PAGE, -127, 127, 8, 1, [], 0, [], MouseFields()) }

  // Each group of items takes the parser from one state to the next.  Every
  // proof lists the intermediate states and checks one item per assertion.

  lemma CollectionsOpenRun()
    ensures Run(CollectionsOpenItems(), Start()) == Some(AfterOpen())
  {
    var items := CollectionsOpenItems();
    var application := OpenCollection(APPLICATION, GENERIC_DESKTOP_PAGE, MOUSE_USAGE);
    var p1 := Parser(GENERIC_DESKTOP_PAGE, 0, 0, 0, 0, [], 0, [], []);
    var p2 := Parser(GENERIC_DESKTOP_PAGE, 0, 0, 0, 0, [MOUSE_USAGE], 0, [], []);
    var p3 := Parser(GENERIC_DESKTOP_PAGE, 0, 0, 0, 0, [], 0, [application], []);
    var p4 := Parser(GENERIC_DESKTOP_PAGE, 0, 0, 0, 0, [POINTER_USAGE], 0, [application], []);
    assert [] + [MOUSE_USAGE] == [MOUSE_USAGE];
    assert [] + [application] == [application];
    assert [] + [POINTER_USAGE] == [POINTER_USAGE];
    assert [application] + [OpenCollection(PHYSICAL, GENERIC_DESKTOP_PAGE, POINTER_USAGE)] == MOUSE_COLLECTIONS;
    var states := [Start(), p1, p2, p3, p4, AfterOpen()];
    assert Step(states[0], items[0]) == Some(states[1]);
    assert Step(states[1], items[1]) == Some(states[2]);
    assert Step(states[2], items[2]) == Some(states[3]);
    assert Step(states[3], items[3]) == Some(states[4]);
    assert Step(states[4], items[4]) == Some(states[5]);
    RunOfSteps(items, states);
  }

  lemma ButtonsLayoutRun()
    ensures Run(ButtonsLayoutItems(), AfterOpen()) == Some(AfterButtonsLayout())
  {
    var items := ButtonsLayoutItems();
    var p1 := AfterOpen().(reportCount := 5);
    var p2 := p1.(reportSize := 1);
    var p3 := p2.(usagePage := BUTTON_PAGE);
    var p4 := p3.(usageMinimum := 1);
    assert p4.usages + UsageRange(1, 6) == [1, 2, 3, 4, 5];
    var states := [AfterOpen(), p1, p2, p3, p4, AfterButtonsLayout()];
    assert Step(states[0], items[0]) == Some(states[1]);
    assert Step(states[1], items[1]) == Some(states[2]);
    assert Step(states[2], items[2]) == Some(states[3]);
    assert Step(states[3], items[3]) == Some(states[4]);
    assert Step(states[4], items[4]) == Some(states[5]);
    RunOfSteps(items, states);
  }

  lemma ButtonsInputRun()
    ensures Run(ButtonsInputItems(), AfterButtonsLayout()) == Some(AfterButtons())
  {
    var items := ButtonsInputItems();
    var p1 := AfterButtonsLayout().(logicalMin := 0);
    var p2 := p1.(logicalMax := 1);
    assert LeSigned([0]) == 0 && LeSigned([1]) == 1;
    assert p2.fields + [ButtonsField()] == [ButtonsField()];
    var states := [AfterButtonsLayout(), p1, p2, AfterButtons()];
    assert Step(states[0], items[0]) == Some(states[1]);
    assert Step(states[1], items[1]) == Some(states[2]);
    assert Step(states[2], items[2]) == Some(states[3]);
    RunOfSteps(items, states);
  }

  lemma PaddingRun()
    ensures Run(PaddingItems(), AfterButtons()) == Some(AfterPadding())
  {
    var items := PaddingItems();
    var p1 := AfterButtons().(reportCount := 1);
    var p2 := p1.(reportSize := 3);
    assert p2.fields + [PaddingField()] == [ButtonsField(), PaddingField()];
    var states := [AfterButtons(), p1, p2, AfterPadding()];
    assert Step(states[0], items[0]) == Some(states[1]);
    assert Step(states[1], items[1]) == Some(states[2]);
    assert Step(states[2], items[2]) == Some(states[3]);
    RunOfSteps(items, states);
  }

  lemma AxesLayoutRun()
    ensures Run(AxesLayoutItems(), AfterPadding()) == Some(AfterAxesLayout())
  {
    var items := AxesLayoutItems();
    var p1 := AfterPadding().(reportCount := 2);
    var p2 := p1.(reportSize := 16);
    var p3 := p2.(usagePage := GENERIC_DESKTOP_PAGE);
    var p4 := p3.(usages := [X_USAGE]);
    assert p3.usages + [X_USAGE] == [X_USAGE];
    assert p4.usages + [Y_USAGE] == [X_USAGE, Y_USAGE];
    var states := [AfterPadding(), p1, p2, p3, p4, AfterAxesLayout()];
    assert Step(states[0], items[0]) == Some(states[1]);
    assert Step(states[1], items[1]) == Some(states[2]);
    assert Step(states[2], items[2]) == Some(states[3]);
    assert Step(states[3], items[3]) == Some(states[4]);
    assert Step(states[4], items[4]) == Some(states[5]);
    RunOfSteps(items, states);
  }

  lemma AxesLimitValues()
    ensures LeSigned([0x01, 0x80]) == -32767 && LeSigned([0xff, 0x7f]) == 32767
  {
    assert LeUnsigned([0x01, 0x80]) == 0x8001 && LeUnsigned([0xff, 0x7f]) == 0x7fff;
    assert Pow2(15) == 0x8000 && Pow2(16) == 0x1_0000;
  }

  lemma AxesInputRun()
    ensures Run(AxesInputItems(), AfterAxesLayout()) == Some(AfterAxes())
  {
    var items := AxesInputItems();
    var p1 := AfterAxesLayout().(logicalMin := -32767);
    var p2 := p1.(logicalMax := 32767);
    AxesLimitValues();
    assert p2.fields + [AxesField()] == [ButtonsField(), PaddingField(), AxesField()];
    var states := [AfterAxesLayout(), p1, p2, AfterAxes()];
    assert Step(states[0], items[0]) == Some(states[1]);
    assert Step(states[1], items[1]) == Some(states[2]);
    assert Step(states[2], items[2]) == Some(states[3]);
    RunOfSteps(items, states);
  }

  lemma WheelLayoutRun()
    ensures Run(WheelLayoutItems(), AfterAxes()) == Some(AfterWheelLayout())
  {
    var items := WheelLayoutItems();
    var p1 := AfterAxes().(reportCount := 1);
    var p2 := p1.(reportSize := 8);
    var p3 := p2.(usagePage := GENERIC_DESKTOP_PAGE);
    assert p3.usages + [WHEEL_USAGE] == [WHEEL_USAGE];
    var states := [AfterAxes(), p1, p2, p3, AfterWheelLayout()];
    assert Step(states[0], items[0]) == Some(states[1]);
    assert Step(states[1], items[1]) == Some(states[2]);
    assert Step(states[2], items[2]) == Some(states[3]);
    assert Step(states[3], items[3]) == Some(states[4]);
    RunOfSteps(items, states);
  }

  lemma WheelInputRun()
    ensures Run(WheelInputItems(), AfterWheelLayout()) == Some(AfterWheel())
  {
    var items := WheelInputItems();
    var p1 := AfterWheelLayout().(logicalMin := -127);
    var p2 := p1.(logicalMax := 127);
    assert LeSigned([0x81]) == -127 && LeSigned([0x7f]) == 127;
    assert p2.fields + [WheelField()] == MouseFields();
    var states := [AfterWheelLayout(), p1, p2, AfterWheel()];
    assert Step(states[0], items[0]) == Some(states[1]);
    assert Step(states[1], items[1]) == Some(states[2]);
    assert Step(states[2], items[2]) == Some(states[3]);
    RunOfSteps(items, states);
  }

  lemma CollectionsCloseRun()
    ensures Run(CollectionsCloseItems(), AfterWheel()) == Some(AfterClose())
  {
  }

  /** Two runs one after the other. */
  lemma RunThrough(x: seq<Item>, y: seq<Item>, p: Parser, q: Parser, r: Parser)
    requires Run(x, p) == Some(q) && Run(y, q) == Some(r)
    ensures Run(x + y, p) == Some(r)
  {
    RunAppend(x, y, p);
  }

  /** The whole item stream, from the initial state to the state after the
      two End Collection items. */
  lemma DescriptorRun()
    ensures Run(DescriptorItems(), Start()) == Some(AfterClose())
  {
    CollectionsOpenRun();
    ButtonsLayoutRun();
    ButtonsInputRun();
    PaddingRun();
    AxesLayoutRun();
    AxesInputRun();
    WheelLayoutRun();
    WheelInputRun();
    CollectionsCloseRun();
    RunThrough(ButtonsLayoutItems(), ButtonsInputItems(), AfterOpen(), AfterButtonsLayout(), AfterButtons());
    RunThrough(AxesLayoutItems(), AxesInputItems(), AfterPadding(), AfterAxesLayout(), AfterAxes());
    RunThrough(WheelLayoutItems(), WheelInputItems(), AfterAxes(), AfterWheelLayout(), AfterWheel());
    var o := CollectionsOpenItems();
    RunThrough(o, ButtonsItems(), Start(), AfterOpen(), AfterButtons());
    RunThrough(o + ButtonsItems(), PaddingItems(), Start(), AfterButtons(), AfterPadding());
    RunThrough(o + ButtonsItems() + PaddingItems(), AxesItems(), Start(), AfterPadding(), AfterAxes());
    RunThrough(o + ButtonsItems() + PaddingItems() + AxesItems(), WheelItems(), Start(), AfterAxes(), AfterWheel());
    RunThrough(o + ButtonsItems() + PaddingItems() + AxesItems() + WheelItems(), CollectionsCloseItems(),
               Start(), AfterWheel(), AfterClose());
  }

  /** A host reading the descriptor finds exactly the four input fields of the
      mouse report, every collection closed, and they add up to the 48 bits of
      the 6-byte report. */
  lemma DescriptorFields()
    ensures InputFields(ReportDescriptor()) == Some(MouseFields())
    ensures TotalBits(MouseFields()) == 8 * MouseReport.REPORT_LENGTH
    ensures ValueCount(MouseFields()) == 9
  {
    DescriptorReadsMouseFields();
    MouseFieldsSize();
  }

  lemma DescriptorReadsMouseFields()
    ensures InputFields(ReportDescriptor()) == Some(MouseFields())
  {
    DescriptorParses();
    DescriptorRun();
  }

  lemma MouseFieldsSize()
    ensures TotalBits(MouseFields()) == 8 * MouseReport.REPORT_LENGTH
    ensures ValueCount(MouseFields()) == 9
  {
  }

  // What the host reads from a report that `update` sent.

  /** A host that parsed the descriptor reads, from the report of
      `update(x, y, buttons, z)`: button bits 0 to 4 of `buttons`, the three
      padding bits (bits 5 to 7 of `buttons`, which `update` does not clear), `x`
      and `y` exactly, and `-z` as the wheel.  Three arguments fall outside the
      logical ranges the descriptor declares, so a host treats those values as
      out of range: x or y = -32768, and z = -128, whose negation wraps to
      -128. */
  lemma HostReading(x: int16, y: int16, buttons: byte, z: int8)
    ensures var v := InputValues(MouseFields(), MouseReport.Encode(x, y, buttons, z), 0);
      && |v| == 9
      && (forall i :: 0 <= i < 5 ==> v[i] == (buttons / Pow2(i)) % 2)
      && v[5] == buttons / 32
      && v[6] == x && v[7] == y
      && (v[6] < AxesField().logicalMin <==> x == -0x8000)
      && (v[7] < AxesField().logicalMin <==> y == -0x8000)
      && (z != -0x80 ==> v[8] == -z)
      && (z == -0x80 ==> v[8] < WheelField().logicalMin)
  {
    HostReadsButtons(x, y, buttons, z);
    HostReadsAxes(x, y, buttons, z);
    HostReadsWheel(x, y, buttons, z);
  }

  lemma HostReadsButtons(x: int16, y: int16, buttons: byte, z: int8)
    ensures var v := InputValues(MouseFields(), MouseReport.Encode(x, y, buttons, z), 0);
      && |v| == 9
      && (forall i :: 0 <= i < 5 ==> v[i] == (buttons / Pow2(i)) % 2)
      && v[5] == buttons / 32
  {
    var r := MouseReport.Encode(x, y, buttons, z);
    MouseValues(r);
    FirstByteFlags(ButtonsField(), r, 5);
    PaddingValue(r);
  }

  lemma HostReadsAxes(x: int16, y: int16, buttons: byte, z: int8)
    ensures var v := InputValues(MouseFields(), MouseReport.Encode(x, y, buttons, z), 0);
      && |v| == 9 && v[6] == x && v[7] == y
      && (v[6] < AxesField().logicalMin <==> x == -0x8000)
      && (v[7] < AxesField().logicalMin <==> y == -0x8000)
  {
    var r := MouseReport.Encode(x, y, buttons, z);
    MouseValues(r);
    AxesValues(x, y, buttons, z);
  }

  lemma HostReadsWheel(x: int16, y: int16, buttons: byte, z: int8)
    ensures var v := InputValues(MouseFields(), MouseReport.Encode(x, y, buttons, z), 0);
      && |v| == 9
      && (z != -0x80 ==> v[8] == -z)
      && (z == -0x80 ==> v[8] < WheelField().logicalMin)
  {
    var r := MouseReport.Encode(x, y, buttons, z);
    MouseValues(r);
    WheelValue(x, y, buttons, z);
    MouseReport.WheelIsNegated(x, y, buttons, z);
  }

  /** The values of a 6-byte report, field by field. */
  lemma MouseValues(r: seq<byte>)
    ensures InputValues(MouseFields(), r, 0) ==
      FieldValues(ButtonsField(), r, 0, 5) + FieldValues(PaddingField(), r, 5, 1) +
      FieldValues(AxesField(), r, 8, 2) + FieldValues(WheelField(), r, 40, 1)
  {
    var fs := MouseFields();
    assert InputValues(fs[3..], r, 40) == FieldValues(WheelField(), r, 40, 1);
    assert InputValues(fs[2..], r, 8) == FieldValues(AxesField(), r, 8, 2) + InputValues(fs[3..], r, 40);
    assert InputValues(fs[1..], r, 5) == FieldValues(PaddingField(), r, 5, 1) + InputValues(fs[2..], r, 8);
  }

  /** The padding value is bits 5 to 7 of the first byte. */
  lemma PaddingValue(r: seq<byte>)
    requires |r| >= 1
    ensures FieldValues(PaddingField(), r, 5, 1) == [r[0] / 32]
  {
    FirstByteValue(PaddingField(), r, 5);
    assert Pow2(5) == 32 && Pow2(3) == 8;
    TopBits(r[0]);
  }

  lemma TopBits(b: byte)
    ensures (b / 32) % 8 == b / 32
  {
  }

  /** The two axis values are `x` and `y`. */
  lemma AxesValues(x: int16, y: int16, buttons: byte, z: int8)
    ensures FieldValues(AxesField(), MouseReport.Encode(x, y, buttons, z), 8, 2) == [x, y]
  {
    var r := MouseReport.Encode(x, y, buttons, z);
    assert FieldValues(AxesField(), r, 8, 2) == [FieldValue(AxesField(), r, 8), FieldValue(AxesField(), r, 24)];
    SignedWordValue(AxesField(), r, 1);
    SignedWordValue(AxesField(), r, 3);
    MouseReport.AxesAreLittleEndian(x, y, buttons, z);
  }

  /** The wheel value is the wheel byte read as `int8_t`. */
  lemma WheelValue(x: int16, y: int16, buttons: byte, z: int8)
    ensures var r := MouseReport.Encode(x, y, buttons, z);
      FieldValues(WheelField(), r, 40, 1) == [AsInt8(r[5])]
  {
    var r := MouseReport.Encode(x, y, buttons, z);
    ByteAlignedField(r, 5, 1);
    assert LeUnsigned(r[5..6]) == r[5];
    assert Pow2(7) == 0x80;
  }
}
