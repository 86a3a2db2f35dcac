/**
 * What a host makes of a report descriptor: the input fields of the report, in
 * order, with the global and local item state in force at each Input item
 * (HID 1.11, sections 6.2.2.4 to 6.2.2.8), and how it reads their values out
 * of a report (section 5.8: fields are packed from bit 0 of byte 0 upward,
 * little-endian; a field whose logical minimum is negative is two's complement).
 */
module HidInputFields {
  import opened Bytes
  import opened Wrappers
  import opened HidItems

  /** One Input main item: `reportCount` values of `reportSize` bits each. */
  datatype Field = Field(
    flags: nat,
    usagePage: nat,
    usages: seq<nat>,
    logicalMin: int,
    logicalMax: int,
    reportSize: nat,
    reportCount: nat,
    collections: seq<OpenCollection>)

  /** An open collection: its type (the data of the Collection item) and the
      usage page and usage in force when it was opened (HID 1.11, section
      6.2.2.6: a collection takes the first usage declared before it). */
  datatype OpenCollection = OpenCollection(kind: nat, usagePage: nat, usage: nat)

  /** The item state table of the host's descriptor parser. */
  datatype Parser = Parser(
    // global items: persist until changed
    usagePage: nat,
    logicalMin: int,
    logicalMax: int,
    reportSize: nat,
    reportCount: nat,
    // local items: cleared by every main item
    usages: seq<nat>,
    usageMinimum: nat,
    // open collections, outermost first, and the Input fields found so far
    collections: seq<OpenCollection>,
    fields: seq<Field>)

  /** The state before the first item: every global item zero, no usages, no
      collection open, no field found. */
  function Start(): Parser { Parser(0, 0, 0, 0, 0, [], 0, [], []) }

  function ClearLocals(p: Parser): Parser { p.(usages := [], usageMinimum := 0) }

  /** The usages lo, lo+1, ..., hi-1. */
  function UsageRange(lo: nat, hi: nat): (r: seq<nat>)
    ensures |r| == if lo < hi then hi - lo else 0
    ensures forall i :: 0 <= i < |r| ==> r[i] == lo + i
    decreases hi - lo
  {
    if lo >= hi then [] else [lo] + UsageRange(lo + 1, hi)
  }

  /** The effect of one item.  Absent for an End Collection with no open
      collection, a reserved main or global tag, and the Report ID, Push and
      Pop items, which this model does not interpret. */
  function Step(p: Parser, it: Item): Option<Parser>
  {
    var u := LeUnsigned(it.data);
    match it.kind
    case Main =>
      if it.tag == INPUT_TAG then
        var f := Field(u, p.usagePage, p.usages, p.logicalMin, p.logicalMax, p.reportSize, p.reportCount, p.collections);
        Some(ClearLocals(p.(fields := p.fields + [f])))
      else if it.tag == COLLECTION_TAG then
        var usage := if |p.usages| == 0 then 0 else p.usages[0];
        Some(ClearLocals(p.(collections := p.collections + [OpenCollection(u, p.usagePage, usage)])))
      else if it.tag == END_COLLECTION_TAG then
        if |p.collections| == 0 then None
        else Some(ClearLocals(p.(collections := p.collections[..|p.collections| - 1])))
      else if it.tag == OUTPUT_TAG || it.tag == FEATURE_TAG then
        Some(ClearLocals(p))
      else None
    case Global =>
      if it.tag == USAGE_PAGE_TAG then Some(p.(usagePage := u))
      else if it.tag == LOGICAL_MINIMUM_TAG then Some(p.(logicalMin := LeSigned(it.data)))
      else if it.tag == LOGICAL_MAXIMUM_TAG then Some(p.(logicalMax := LeSigned(it.data)))
      else if it.tag == REPORT_SIZE_TAG then Some(p.(reportSize := u))
      else if it.tag == REPORT_COUNT_TAG then Some(p.(reportCount := u))
      else if it.tag == REPORT_ID_TAG || it.tag >= PUSH_TAG then None
      else Some(p)
    case Local =>
      if it.tag == USAGE_TAG then Some(p.(usages := p.usages + [u]))
      else if it.tag == USAGE_MINIMUM_TAG then Some(p.(usageMinimum := u))
      else if it.tag == USAGE_MAXIMUM_TAG then Some(p.(usages := p.usages + UsageRange(p.usageMinimum, u + 1)))
      else Some(p)
  }

  function Run(items: seq<Item>, p: Parser): Option<Parser>
  {
    if |items| == 0 then Some(p)
    else
      match Step(p, items[0])
      case None => None
      case Some(q) => Run(items[1..], q)
  }

  /** Running two item streams one after the other. */
  lemma {:induction false} RunAppend(x: seq<Item>, y: seq<Item>, p: Parser)
    ensures Run(x + y, p) ==
      match Run(x, p)
      case None => None
      case Some(q) => Run(y, q)
  {
    if |x| == 0 {
      assert x + y == y;
    } else {
      assert (x + y)[1..] == x[1..] + y;
      match Step(p, x[0])
      case None =>
      case Some(q) => RunAppend(x[1..], y, q);
    }
  }

  /** A run through a list of states, each item taking the parser from one
      to the next, ends in the last state. */
  lemma {:induction false} RunOfSteps(items: seq<Item>, states: seq<Parser>)
    requires |states| == |items| + 1
    requires forall i :: 0 <= i < |items| ==> Step(states[i], items[i]) == Some(states[i + 1])
    ensures Run(items, states[0]) == Some(states[|items|])
  {
    if |items| > 0 {
      RunOfSteps(items[1..], states[1..]);
    }
  }

  /** The input fields a descriptor declares: absent when it does not parse,
      when an item cannot be interpreted, or when a collection is left open. */
  function InputFields(descriptor: seq<byte>): Option<seq<Field>>
  {
    match ParseItems(descriptor)
    case None => None
    case Some(items) =>
      match Run(items, Start())
      case None => None
      case Some(p) => if |p.collections| == 0 then Some(p.fields) else None
  }

  /** The number of values in a report the fields describe. */
  function ValueCount(fields: seq<Field>): nat
  {
    if |fields| == 0 then 0 else fields[0].reportCount + ValueCount(fields[1..])
  }

  /** The length in bits of the reports the fields describe. */
  function TotalBits(fields: seq<Field>): nat
  {
    if |fields| == 0 then 0 else fields[0].reportSize * fields[0].reportCount + TotalBits(fields[1..])
  }

  /** Bits [offset, offset + size) of a report, the report read as one
      little-endian number. */
  function BitField(report: seq<byte>, offset: nat, size: nat): nat
  {
    (LeUnsigned(report) / Pow2(offset)) % Pow2(size)
  }

  /** A field that starts and ends on byte boundaries is the little-endian
      number of its bytes. */
  lemma ByteAlignedField(report: seq<byte>, k: nat, m: nat)
    requires k + m <= |report|
    ensures BitField(report, 8 * k, 8 * m) == LeUnsigned(report[k..k + m])
  {
    LeUnsignedDrop(report, k);
    LeUnsignedTake(report[k..], m);
    assert report[k..][..m] == report[k..k + m];
  }

  /** A field inside the first byte is read from that byte alone. */
  lemma FirstByteBits(report: seq<byte>, j: nat, n: nat)
    requires |report| >= 1 && j + n <= 8
    ensures BitField(report, j, n) == (report[0] / Pow2(j)) % Pow2(n)
  {
    assert LeUnsigned(report) == report[0] + 0x100 * LeUnsigned(report[1..]);
    Pow2Add(j, 8 - j);
    Pow2Add(n, 8 - j - n);
    assert Pow2(8) == 0x100;
    LowBitsOfSum(report[0], LeUnsigned(report[1..]), Pow2(j), Pow2(8 - j), Pow2(n), Pow2(8 - j - n));
  }

  /** When `d * c == 256` and `m` divides `c`, adding a multiple of 256 to `a`
      does not change `a / d` modulo `m`. */
  lemma LowBitsOfSum(a: nat, x: nat, d: nat, c: nat, m: nat, e: nat)
    requires d > 0 && m > 0 && d * c == 0x100 && c == m * e
    ensures ((a + 0x100 * x) / d) % m == (a / d) % m
  {
    assert 0x100 * x == d * (c * x);
    DivAddMultiple(a, d, c * x);
    assert c * x == m * (e * x);
    ModAddMultiple(a / d, m, e * x);
  }

  /** The value of one `size`-bit field at `offset`, sign-extended when the
      field's logical minimum is negative. */
  function FieldValue(f: Field, report: seq<byte>, offset: nat): int
  {
    var u := BitField(report, offset, f.reportSize);
    if f.logicalMin < 0 && f.reportSize > 0 && u >= Pow2(f.reportSize - 1) then u - Pow2(f.reportSize) else u
  }

  /** The `n` values of `f` starting at bit `offset`. */
  function FieldValues(f: Field, report: seq<byte>, offset: nat, n: nat): (vs: seq<int>)
    ensures |vs| == n
    decreases n
  {
    if n == 0 then [] else [FieldValue(f, report, offset)] + FieldValues(f, report, offset + f.reportSize, n - 1)
  }

  /** The `i`-th value of a field sits `i` report sizes after the first. */
  lemma {:induction false} FieldValuesAt(f: Field, report: seq<byte>, offset: nat, n: nat, i: nat)
    requires i < n
    ensures FieldValues(f, report, offset, n)[i] == FieldValue(f, report, offset + i * f.reportSize)
    decreases n
  {
    if i > 0 {
      FieldValuesAt(f, report, offset + f.reportSize, n - 1, i - 1);
      assert offset + f.reportSize + (i - 1) * f.reportSize == offset + i * f.reportSize;
    }
  }

  /** The values of a field of `n` unsigned one-bit values at the start of a
      report are the low `n` bits of its first byte. */
  lemma FirstByteFlags(f: Field, report: seq<byte>, n: nat)
    requires |report| >= 1 && n <= 8
    requires f.reportSize == 1 && f.logicalMin >= 0
    ensures forall i :: 0 <= i < n ==> FieldValues(f, report, 0, n)[i] == (report[0] / Pow2(i)) % 2
  {
    forall i | 0 <= i < n
      ensures FieldValues(f, report, 0, n)[i] == (report[0] / Pow2(i)) % 2
    {
      FieldValuesAt(f, report, 0, n, i);
      FirstByteBits(report, i, 1);
    }
  }

  /** A single unsigned value inside the first byte of a report is read from
      that byte alone. */
  lemma FirstByteValue(f: Field, report: seq<byte>, j: nat)
    requires |report| >= 1 && j + f.reportSize <= 8 && f.logicalMin >= 0
    ensures FieldValues(f, report, j, 1) == [(report[0] / Pow2(j)) % Pow2(f.reportSize)]
  {
    FirstByteBits(report, j, f.reportSize);
  }

  /** A signed 16-bit value on a byte boundary is the two's-complement
      reading of its two bytes, low byte first. */
  lemma SignedWordValue(f: Field, report: seq<byte>, k: nat)
    requires k + 2 <= |report| && f.reportSize == 16 && f.logicalMin < 0
    ensures FieldValue(f, report, 8 * k) == AsInt16(Le16(report[k], report[k + 1]))
  {
    ByteAlignedField(report, k, 2);
    assert LeUnsigned(report[k..k + 2]) == Le16(report[k], report[k + 1]);
    assert Pow2(15) == 0x8000 && Pow2(16) == 0x1_0000;
  }

  /** Every value of every field, in report order. */
  function InputValues(fields: seq<Field>, report: seq<byte>, offset: nat): (vs: seq<int>)
    ensures |vs| == ValueCount(fields)
  {
    if |fields| == 0 then []
    else
      var f := fields[0];
      FieldValues(f, report, offset, f.reportCount) + InputValues(fields[1..], report, offset + f.reportSize * f.reportCount)
  }
}
