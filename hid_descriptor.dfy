/**
 * A checker for HID report descriptors: it walks the short items the way
 * section 6.2.2 of the USB Device Class Definition for HID 1.11 assigns them
 * meaning (Main items of section 6.2.2.4, collections of 6.2.2.6, Global
 * items of 6.2.2.7, Local items of 6.2.2.8), checks the collection nesting
 * and lists the Input fields it declares.  It checks data; it is not a
 * host's HID driver.
 */
module HidDescriptor {
  import opened Wrappers
  import opened HidItems

  // Main item tags (section 6.2.2.4)
  const InputTag: bv8 := 0x8
  const CollectionTag: bv8 := 0xA
  const EndCollectionTag: bv8 := 0xC

  // Global item tags (section 6.2.2.7)
  const UsagePageTag: bv8 := 0x0
  const LogicalMinimumTag: bv8 := 0x1
  const LogicalMaximumTag: bv8 := 0x2
  const ReportSizeTag: bv8 := 0x7
  const ReportIdTag: bv8 := 0x8
  const ReportCountTag: bv8 := 0x9
  const PushTag: bv8 := 0xA
  const PopTag: bv8 := 0xB

  // Local item tags (section 6.2.2.8)
  const UsageTag: bv8 := 0x0
  const UsageMinimumTag: bv8 := 0x1
  const UsageMaximumTag: bv8 := 0x2

  function Pow256(n: nat): (r: nat)
    ensures r >= 1
  {
    if n == 0 then 1 else 256 * Pow256(n - 1)
  }

  /** Item data read as an unsigned little-endian number. */
  function Unsigned(data: seq<bv8>): (r: nat)
    ensures r < Pow256(|data|)
  {
    if data == [] then 0
    else
      var rest := Unsigned(data[1..]);
      assert rest <= Pow256(|data| - 1) - 1;
      data[0] as nat + 256 * rest
  }

  /** Item data read as a two's-complement little-endian number. */
  function Signed(data: seq<bv8>): (r: int)
    ensures data == [] ==> r == 0
    ensures data != [] ==> (r < 0 <==> data[|data| - 1] >= 0x80)
    ensures data != [] ==> -128 * Pow256(|data| - 1) <= r < 128 * Pow256(|data| - 1)
  {
    var u := Unsigned(data);
    if data != [] && data[|data| - 1] >= 0x80 then
      NegativeUnsigned(data);
      u - Pow256(|data|)
    else
      if data != [] then PositiveUnsigned(data); u else u
  }

  /** A top byte of at least 0x80 makes the unsigned value at least half the range. */
  lemma {:induction false} NegativeUnsigned(data: seq<bv8>)
    requires data != [] && data[|data| - 1] >= 0x80
    ensures Unsigned(data) >= 128 * Pow256(|data| - 1)
  {
    if |data| > 1 {
      NegativeUnsigned(data[1..]);
      assert data[1..][|data| - 2] == data[|data| - 1];
    }
  }

  /** A top byte below 0x80 keeps the unsigned value below half the range. */
  lemma {:induction false} PositiveUnsigned(data: seq<bv8>)
    requires data != [] && data[|data| - 1] < 0x80
    ensures Unsigned(data) < 128 * Pow256(|data| - 1)
  {
    if |data| > 1 {
      PositiveUnsigned(data[1..]);
      assert data[1..][|data| - 2] == data[|data| - 1];
    }
  }

  /** The state of the Global items (section 6.2.2.7). */
  datatype Globals = Globals(
    usagePage: nat, logicalMin: int, logicalMax: int,
    reportSize: nat, reportId: nat, reportCount: nat)

  const NoGlobals := Globals(0, 0, 0, 0, 0, 0)

  /** The Local items seen since the last Main item (section 6.2.2.8). */
  datatype Locals = Locals(usages: seq<nat>, usageMin: nat, usageMax: nat)

  const NoLocals := Locals([], 0, 0)

  /** One Input main item with the state in force when it was read. */
  datatype InputField = InputField(
    reportId: nat, usagePage: nat, usages: seq<nat>, usageMin: nat, usageMax: nat,
    logicalMin: int, logicalMax: int, reportSize: nat, reportCount: nat, flags: nat)

  datatype CheckError =
    | Malformed(cause: ParseError)
    | EndWithoutCollection(index: nat)  // End Collection with no open collection
    | UnclosedCollection(depth: nat)    // collections still open at the end
    | PopWithoutPush(index: nat)        // Pop with an empty global stack
    | ReservedReportId(index: nat)      // Report ID 0 is reserved

  predicate IsCollectionError(e: CheckError) {
    e.EndWithoutCollection? || e.UnclosedCollection?
  }

  datatype ScanState = ScanState(
    depth: nat, globals: Globals, stack: seq<Globals>, locals: Locals, inputs: seq<InputField>)

  const Start := ScanState(0, NoGlobals, [], NoLocals, [])

  function SetGlobal(g: Globals, it: Item): Globals {
    var v := Unsigned(it.data);
    if it.tag == UsagePageTag then g.(usagePage := v)
    else if it.tag == LogicalMinimumTag then g.(logicalMin := Signed(it.data))
    else if it.tag == LogicalMaximumTag then g.(logicalMax := Signed(it.data))
    else if it.tag == ReportSizeTag then g.(reportSize := v)
    else if it.tag == ReportIdTag then g.(reportId := v)
    else if it.tag == ReportCountTag then g.(reportCount := v)
    else g
  }

  function SetLocal(l: Locals, it: Item): Locals {
    var v := Unsigned(it.data);
    if it.tag == UsageTag then l.(usages := l.usages + [v])
    else if it.tag == UsageMinimumTag then l.(usageMin := v)
    else if it.tag == UsageMaximumTag then l.(usageMax := v)
    else l
  }

  function Field(st: ScanState, it: Item): InputField {
    var g := st.globals;
    InputField(g.reportId, g.usagePage, st.locals.usages, st.locals.usageMin, st.locals.usageMax,
               g.logicalMin, g.logicalMax, g.reportSize, g.reportCount, Unsigned(it.data))
  }

  predicate Opens(it: Item) { it.kind == Main && it.tag == CollectionTag }

  predicate Closes(it: Item) { it.kind == Main && it.tag == EndCollectionTag }

  /** The effect of item number `i` on the scan. */
  function Step(st: ScanState, it: Item, i: nat): (r: Result<ScanState, CheckError>)
    ensures r.Ok? ==> r.value.depth == st.depth + (if Opens(it) then 1 else 0) - (if Closes(it) then 1 else 0)
    ensures r.Err? && IsCollectionError(r.error) <==> Closes(it) && st.depth == 0
  {
    match it.kind
    case Global =>
      if it.tag == ReportIdTag && Unsigned(it.data) == 0 then Err(ReservedReportId(i))
      else if it.tag == PushTag then Ok(st.(stack := st.stack + [st.globals]))
      else if it.tag == PopTag then
        if st.stack == [] then Err(PopWithoutPush(i))
        else Ok(st.(globals := st.stack[|st.stack| - 1], stack := st.stack[..|st.stack| - 1]))
      else Ok(st.(globals := SetGlobal(st.globals, it)))
    case Local => Ok(st.(locals := SetLocal(st.locals, it)))
    case Main =>
      if it.tag == CollectionTag then Ok(st.(depth := st.depth + 1, locals := NoLocals))
      else if it.tag == EndCollectionTag then
        if st.depth == 0 then Err(EndWithoutCollection(i))
        else Ok(st.(depth := st.depth - 1, locals := NoLocals))
      else if it.tag == InputTag then Ok(st.(inputs := st.inputs + [Field(st, it)], locals := NoLocals))
      else Ok(st.(locals := NoLocals))
  }

  function ScanFrom(items: seq<Item>, i: nat, st: ScanState): Result<ScanState, CheckError>
    requires i <= |items|
    decreases |items| - i
  {
    if i == |items| then
      if st.depth == 0 then Ok(st) else Err(UnclosedCollection(st.depth))
    else
      match Step(st, items[i], i)
      case Err(e) => Err(e)
      case Ok(next) => ScanFrom(items, i + 1, next)
  }

  /** The Input fields a sequence of items declares, or why it is refused. */
  function CheckItems(items: seq<Item>): Result<seq<InputField>, CheckError> {
    match ScanFrom(items, 0, Start)
    case Ok(st) => Ok(st.inputs)
    case Err(e) => Err(e)
  }

  /** Parses and checks descriptor bytes. */
  function Check(desc: seq<bv8>): Result<seq<InputField>, CheckError> {
    match Parse(desc)
    case Err(e) => Err(Malformed(e))
    case Ok(items) => CheckItems(items)
  }

  // Bits 0, 1 and 2 of an Input item's data (section 6.2.2.5).

  /** Bit 0 clear: Data rather than Constant. */
  predicate IsData(flags: nat) { flags % 2 == 0 }

  /** Bit 1 set: Variable rather than Array. */
  predicate IsVariable(flags: nat) { (flags / 2) % 2 == 1 }

  /** Bit 2 clear: Absolute rather than Relative. */
  predicate IsAbsolute(flags: nat) { (flags / 4) % 2 == 0 }

  /** The number of bits the Input fields with report ID `id` add to a report. */
  function ReportBits(fields: seq<InputField>, id: nat): nat {
    if fields == [] then 0
    else
      (if fields[0].reportId == id then fields[0].reportSize * fields[0].reportCount else 0)
      + ReportBits(fields[1..], id)
  }

  // An independent definition of balanced nesting, by counting.

  function OpenCount(items: seq<Item>): nat {
    if items == [] then 0
    else OpenCount(items[..|items| - 1]) + (if Opens(items[|items| - 1]) then 1 else 0)
  }

  function CloseCount(items: seq<Item>): nat {
    if items == [] then 0
    else CloseCount(items[..|items| - 1]) + (if Closes(items[|items| - 1]) then 1 else 0)
  }

  /** Every prefix closes no more collections than it opens, and the whole closes them all. */
  ghost predicate Balanced(items: seq<Item>) {
    OpenCount(items) == CloseCount(items)
    && forall j :: 0 <= j <= |items| ==> CloseCount(items[..j]) <= OpenCount(items[..j])
  }

  /**
   * The scan from item `i` on, started with a depth that matches the counts
   * of the first `i` items, succeeds only on balanced items and, on balanced
   * items, never reports a nesting error.
   */
  lemma {:induction false} ScanNesting(items: seq<Item>, i: nat, st: ScanState)
    requires i <= |items|
    requires st.depth + CloseCount(items[..i]) == OpenCount(items[..i])
    requires forall j :: 0 <= j <= i ==> CloseCount(items[..j]) <= OpenCount(items[..j])
    ensures ScanFrom(items, i, st).Ok? ==> Balanced(items)
    ensures Balanced(items) ==> !(ScanFrom(items, i, st).Err? && IsCollectionError(ScanFrom(items, i, st).error))
    decreases |items| - i
  {
    if i == |items| {
      assert items[..i] == items;
    } else {
      var pre := items[..i + 1];
      assert pre[..i] == items[..i];
      assert pre[i] == items[i];
      var r := Step(st, items[i], i);
      if r.Ok? {
        forall j | 0 <= j <= i + 1
          ensures CloseCount(items[..j]) <= OpenCount(items[..j])
        {
        }
        ScanNesting(items, i + 1, r.value);
      } else if IsCollectionError(r.error) {
        assert CloseCount(pre) > OpenCount(pre);
      }
    }
  }

  /** The check accepts items only if their collections are balanced. */
  lemma CheckItemsBalanced(items: seq<Item>)
    ensures CheckItems(items).Ok? ==> Balanced(items)
    ensures Balanced(items) ==> !(CheckItems(items).Err? && IsCollectionError(CheckItems(items).error))
  {
    assert items[..0] == [];
    ScanNesting(items, 0, Start);
  }
}
