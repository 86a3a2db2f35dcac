/**
 * HID report descriptor "short items" (HID 1.11, section 6.2.2.2): a prefix byte
 * holding bTag (bits 7..4), bType (bits 3..2) and bSize (bits 1..0), followed by
 * 0, 1, 2 or 4 data bytes (bSize 3 means 4 bytes).  The item-prefix macros the
 * report descriptor is written with (`USAGE_PAGE(n)`, `INPUT(n)`, ...) are the
 * prefixes of sections 6.2.2.4 (main), 6.2.2.7 (global) and 6.2.2.8 (local).
 */
module HidItems {
  import opened Bytes
  import opened Wrappers

  /** bType; the reserved type 3 (and with it the long-item prefix 0xFE) is not a short item. */
  datatype ItemType = Main | Global | Local

  datatype Item = Item(kind: ItemType, tag: nat, data: seq<byte>)

  // Main item tags (section 6.2.2.4)
  const INPUT_TAG: nat := 0x8
  const OUTPUT_TAG: nat := 0x9
  const COLLECTION_TAG: nat := 0xA
  const FEATURE_TAG: nat := 0xB
  const END_COLLECTION_TAG: nat := 0xC

  // Global item tags (section 6.2.2.7)
  const USAGE_PAGE_TAG: nat := 0x0
  const LOGICAL_MINIMUM_TAG: nat := 0x1
  const LOGICAL_MAXIMUM_TAG: nat := 0x2
  const REPORT_SIZE_TAG: nat := 0x7
  const REPORT_ID_TAG: nat := 0x8
  const REPORT_COUNT_TAG: nat := 0x9
  const PUSH_TAG: nat := 0xA
  const POP_TAG: nat := 0xB

  // Local item tags (section 6.2.2.8)
  const USAGE_TAG: nat := 0x0
  const USAGE_MINIMUM_TAG: nat := 0x1
  const USAGE_MAXIMUM_TAG: nat := 0x2

  function TypeCode(k: ItemType): (c: nat)
    ensures c < 3
  {
    match k
    case Main => 0
    case Global => 1
    case Local => 2
  }

  function TypeOfCode(c: nat): (k: ItemType)
    requires c < 3
    ensures TypeCode(k) == c
  {
    if c == 0 then Main else if c == 1 then Global else Local
  }

  /** The number of data bytes a bSize code announces. */
  function DataLength(sizeCode: nat): nat { if sizeCode == 3 then 4 else sizeCode }

  predicate ValidDataLength(n: nat) { n == 0 || n == 1 || n == 2 || n == 4 }

  /** The bSize code of `n` data bytes (meaningful when `ValidDataLength(n)`). */
  function SizeCode(n: nat): (c: nat)
    ensures c < 4
    ensures ValidDataLength(n) ==> DataLength(c) == n
  {
    if n >= 4 then 3 else n
  }

  /** An item that has a short-item encoding. */
  predicate WellFormed(it: Item) { it.tag < 16 && ValidDataLength(|it.data|) }

  predicate AllWellFormed(items: seq<Item>)
  {
    forall i :: 0 <= i < |items| ==> WellFormed(items[i])
  }

  /** The prefix byte: bTag << 4 | bType << 2 | bSize. */
  function Prefix(tag: nat, kind: ItemType, sizeCode: nat): byte
    requires tag < 16 && sizeCode < 4
  {
    tag * 16 + TypeCode(kind) * 4 + sizeCode
  }

  // The item-prefix macros; the argument is the bSize code.
  function Input(sizeCode: nat): byte requires sizeCode < 4 { Prefix(INPUT_TAG, Main, sizeCode) }
  function Collection(sizeCode: nat): byte requires sizeCode < 4 { Prefix(COLLECTION_TAG, Main, sizeCode) }
  function EndCollection(sizeCode: nat): byte requires sizeCode < 4 { Prefix(END_COLLECTION_TAG, Main, sizeCode) }
  function UsagePage(sizeCode: nat): byte requires sizeCode < 4 { Prefix(USAGE_PAGE_TAG, Global, sizeCode) }
  function LogicalMinimum(sizeCode: nat): byte requires sizeCode < 4 { Prefix(LOGICAL_MINIMUM_TAG, Global, sizeCode) }
  function LogicalMaximum(sizeCode: nat): byte requires sizeCode < 4 { Prefix(LOGICAL_MAXIMUM_TAG, Global, sizeCode) }
  function ReportSize(sizeCode: nat): byte requires sizeCode < 4 { Prefix(REPORT_SIZE_TAG, Global, sizeCode) }
  function ReportCount(sizeCode: nat): byte requires sizeCode < 4 { Prefix(REPORT_COUNT_TAG, Global, sizeCode) }
  function Usage(sizeCode: nat): byte requires sizeCode < 4 { Prefix(USAGE_TAG, Local, sizeCode) }
  function UsageMinimum(sizeCode: nat): byte requires sizeCode < 4 { Prefix(USAGE_MINIMUM_TAG, Local, sizeCode) }
  function UsageMaximum(sizeCode: nat): byte requires sizeCode < 4 { Prefix(USAGE_MAXIMUM_TAG, Local, sizeCode) }

  /** The macros produce the prefix values HID 1.11 lists for them. */
  lemma MacroValues()
    ensures UsagePage(1) == 0x05 && Usage(1) == 0x09 && Collection(1) == 0xA1
    ensures ReportCount(1) == 0x95 && ReportSize(1) == 0x75
    ensures UsageMinimum(1) == 0x19 && UsageMaximum(1) == 0x29
    ensures LogicalMinimum(1) == 0x15 && LogicalMaximum(1) == 0x25
    ensures LogicalMinimum(2) == 0x16 && LogicalMaximum(2) == 0x26
    ensures Input(1) == 0x81 && EndCollection(0) == 0xC0
  {
  }

  /** The short-item encoding of `it`; faithful when `WellFormed(it)`. */
  function EncodeItem(it: Item): (s: seq<byte>)
  {
    [Prefix(it.tag % 16, it.kind, SizeCode(|it.data|))] + it.data
  }

  function EncodeItems(items: seq<Item>): (s: seq<byte>)
  {
    if |items| == 0 then [] else EncodeItem(items[0]) + EncodeItems(items[1..])
  }

  /** Splits a byte string into short items.  Absent when a prefix has the
      reserved type 3 (which includes the long-item prefix 0xFE) or announces
      more data bytes than remain. */
  function ParseItems(s: seq<byte>): (r: Option<seq<Item>>)
    ensures r.Some? ==> AllWellFormed(r.value)
    decreases |s|
  {
    if |s| == 0 then Some([])
    else
      var p := s[0];
      var n := DataLength(p % 4);
      if (p / 4) % 4 == 3 || |s| < 1 + n then None
      else
        match ParseItems(s[1 + n..])
        case None => None
        case Some(rest) => Some([Item(TypeOfCode((p / 4) % 4), p / 16, s[1..1 + n])] + rest)
  }

  /** The fields of a prefix byte read back. */
  lemma PrefixFields(tag: nat, kind: ItemType, sizeCode: nat)
    requires tag < 16 && sizeCode < 4
    ensures var p := Prefix(tag, kind, sizeCode);
      p % 4 == sizeCode && (p / 4) % 4 == TypeCode(kind) && p / 16 == tag
  {
  }

  /** Parsing the encoding of a well-formed item in front of `rest`. */
  lemma ParseItemFirst(it: Item, rest: seq<byte>)
    requires WellFormed(it)
    ensures ParseItems(EncodeItem(it) + rest) ==
      match ParseItems(rest)
      case None => None
      case Some(items) => Some([it] + items)
  {
    var s := EncodeItem(it) + rest;
    var p := Prefix(it.tag, it.kind, SizeCode(|it.data|));
    PrefixFields(it.tag, it.kind, SizeCode(|it.data|));
    assert s[0] == p;
    assert s[1 + |it.data|..] == rest;
    assert s[1..1 + |it.data|] == it.data;
    assert TypeOfCode((p / 4) % 4) == it.kind by {
      match it.kind
      case Main =>
      case Global =>
      case Local =>
    }
  }

  /** Round trip: parsing the encoding of well-formed items gives the items back. */
  lemma {:induction false} ParseEncode(items: seq<Item>)
    requires AllWellFormed(items)
    ensures ParseItems(EncodeItems(items)) == Some(items)
  {
    if |items| > 0 {
      ParseEncode(items[1..]);
      ParseItemFirst(items[0], EncodeItems(items[1..]));
      assert [items[0]] + items[1..] == items;
    }
  }

  /** Round trip the other way: a byte string that parses is the encoding of
      its items, so every prefix's bSize matches the data bytes that follow it. */
  lemma {:induction false} EncodeParse(s: seq<byte>)
    requires ParseItems(s).Some?
    ensures EncodeItems(ParseItems(s).value) == s
    decreases |s|
  {
    if |s| > 0 {
      var it, n := ParseItemsHead(s);
      var rest := s[1 + n..];
      EncodeParse(rest);
      EncodeItemsCons(it, ParseItems(rest).value);
      assert s == s[..1 + n] + rest;
    }
  }

  /** The first item of a byte string that parses, and its encoding. */
  lemma ParseItemsHead(s: seq<byte>) returns (it: Item, n: nat)
    requires |s| > 0 && ParseItems(s).Some?
    ensures 1 + n <= |s| && ParseItems(s[1 + n..]).Some?
    ensures ParseItems(s).value == [it] + ParseItems(s[1 + n..]).value
    ensures EncodeItem(it) == s[..1 + n]
  {
    var p := s[0];
    n := DataLength(p % 4);
    it := Item(TypeOfCode((p / 4) % 4), p / 16, s[1..1 + n]);
    PrefixOfFields(p);
  }

  /** A prefix byte of a type other than 3 is rebuilt from its fields. */
  lemma PrefixOfFields(p: byte)
    requires (p / 4) % 4 != 3
    ensures Prefix(p / 16, TypeOfCode((p / 4) % 4), SizeCode(DataLength(p % 4))) == p
  {
  }

  lemma EncodeItemsCons(it: Item, rest: seq<Item>)
    ensures EncodeItems([it] + rest) == EncodeItem(it) + EncodeItems(rest)
  {
    assert ([it] + rest)[1..] == rest;
  }

  /** Encoding distributes over concatenation. */
  lemma {:induction false} EncodeAppend(x: seq<Item>, y: seq<Item>)
    ensures EncodeItems(x + y) == EncodeItems(x) + EncodeItems(y)
  {
    if |x| == 0 {
      assert x + y == y;
    } else {
      EncodeAppend(x[1..], y);
      TailOfAppend(x, y);
      AppendAssociates(EncodeItem(x[0]), EncodeItems(x[1..]), EncodeItems(y));
    }
  }

  lemma TailOfAppend(x: seq<Item>, y: seq<Item>)
    requires |x| > 0
    ensures (x + y)[0] == x[0] && (x + y)[1..] == x[1..] + y
  {
  }

  lemma AppendAssociates(a: seq<byte>, b: seq<byte>, c: seq<byte>)
    ensures (a + b) + c == a + (b + c)
  {
  }

  /** Parsing distributes over concatenation at item boundaries. */
  lemma ParseAppend(a: seq<byte>, b: seq<byte>)
    requires ParseItems(a).Some? && ParseItems(b).Some?
    ensures ParseItems(a + b) == Some(ParseItems(a).value + ParseItems(b).value)
  {
    var x, y := ParseItems(a).value, ParseItems(b).value;
    EncodeParse(a);
    EncodeParse(b);
    EncodeAppend(x, y);
    ParseEncode(x + y);
  }
}
