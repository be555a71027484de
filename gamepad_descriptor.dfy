/**
 * The gamepad's constant report descriptor (`_hidReportDescriptor`): one
 * Application collection holding one Physical collection that declares
 * Report ID 1 and sixteen one-bit Button fields.
 */
module GamePadDescriptor {
  import opened Wrappers
  import opened HidItems
  import opened HidDescriptor
  import ButtonReport

  /** The report ID the descriptor declares and every report is sent with. */
  const GamePadReportId: bv8 := 1

  // The table in five parts, each part's bytes next to the items they
  // encode. Tags are written as numbers so that Dafny can evaluate each
  // part's encoding directly.

  /** Usage Page (Generic Desktop), Usage (Game Pad), Collection (Application). */
  const ApplicationBytes: seq<bv8> := [0x05, 0x01, 0x09, 0x05, 0xA1, 0x01]
  const ApplicationItems: seq<Item> := [
    Item(Global, 0x0, [0x01]),  // Usage Page
    Item(Local, 0x0, [0x05]),   // Usage
    Item(Main, 0xA, [0x01])     // Collection
  ]

  /** Collection (Physical), Report ID (1). */
  const PhysicalBytes: seq<bv8> := [0xA1, 0x00, 0x85, 0x01]
  const PhysicalItems: seq<Item> := [
    Item(Main, 0xA, [0x00]),    // Collection
    Item(Global, 0x8, [0x01])   // Report ID
  ]

  /** Usage Page (Button), Usage Minimum (1), Usage Maximum (16). */
  const UsageBytes: seq<bv8> := [0x05, 0x09, 0x19, 0x01, 0x29, 0x10]
  const UsageItems: seq<Item> := [
    Item(Global, 0x0, [0x09]),  // Usage Page
    Item(Local, 0x1, [0x01]),   // Usage Minimum
    Item(Local, 0x2, [0x10])    // Usage Maximum
  ]

  /** Logical Minimum (0), Logical Maximum (1), Report Count (16), Report Size (1). */
  const LayoutBytes: seq<bv8> := [0x15, 0x00, 0x25, 0x01, 0x95, 0x10, 0x75, 0x01]
  const LayoutItems: seq<Item> := [
    Item(Global, 0x1, [0x00]),  // Logical Minimum
    Item(Global, 0x2, [0x01]),  // Logical Maximum
    Item(Global, 0x9, [0x10]),  // Report Count
    Item(Global, 0x7, [0x01])   // Report Size
  ]

  /** Input (Data, Variable, Absolute), End Collection, End Collection. */
  const InputBytes: seq<bv8> := [0x81, 0x02, 0xC0, 0xC0]
  const InputItems: seq<Item> := [
    Item(Main, 0x8, [0x02]),    // Input
    Item(Main, 0xC, []),        // End Collection
    Item(Main, 0xC, [])         // End Collection
  ]

  /** The 28-byte report descriptor. */
  const ReportDescriptor: seq<bv8> := ApplicationBytes + PhysicalBytes + UsageBytes + LayoutBytes + InputBytes

  /** The 15 items the descriptor bytes stand for. */
  const ReportItems: seq<Item> := ApplicationItems + PhysicalItems + UsageItems + LayoutItems + InputItems

  /** The one Input field: Button page usages 1..16, 16 fields of 1 bit each, logical range 0..1. */
  const ButtonsField := InputField(1, 9, [], 1, 16, 0, 1, 1, 16, 2)

  lemma ApplicationEncoded()
    ensures AllWellFormed(ApplicationItems) && Encode(ApplicationItems) == ApplicationBytes
  {
  }

  lemma PhysicalEncoded()
    ensures AllWellFormed(PhysicalItems) && Encode(PhysicalItems) == PhysicalBytes
  {
  }

  lemma UsageEncoded()
    ensures AllWellFormed(UsageItems) && Encode(UsageItems) == UsageBytes
  {
  }

  lemma LayoutEncoded()
    ensures AllWellFormed(LayoutItems) && Encode(LayoutItems) == LayoutBytes
  {
  }

  lemma InputEncoded()
    ensures AllWellFormed(InputItems) && Encode(InputItems) == InputBytes
  {
  }

  /** The descriptor bytes parse into exactly these well-formed short items. */
  lemma DescriptorParses()
    ensures |ReportDescriptor| == 28
    ensures AllWellFormed(ReportItems)
    ensures Parse(ReportDescriptor) == Ok(ReportItems)
  {
    ApplicationEncoded();
    PhysicalEncoded();
    UsageEncoded();
    LayoutEncoded();
    InputEncoded();
    EncodeAppend(ApplicationItems, PhysicalItems);
    EncodeAppend(ApplicationItems + PhysicalItems, UsageItems);
    EncodeAppend(ApplicationItems + PhysicalItems + UsageItems, LayoutItems);
    EncodeAppend(ApplicationItems + PhysicalItems + UsageItems + LayoutItems, InputItems);
    ParseEncode(ReportItems);
  }

  /** The state of the scan after the whole descriptor. */
  const FinalScan := ScanState(0, Globals(9, 0, 1, 1, 1, 16), [], NoLocals, [ButtonsField])

  // The scan is followed item by item, with the state written out before
  // every third item, three items per lemma.

  lemma ScannedFrom12()
    ensures ScanFrom(ReportItems, 12, ScanState(2, Globals(9, 0, 1, 1, 1, 16), [], Locals([], 1, 16), [])) == Ok(FinalScan)
  {
    assert ScanFrom(ReportItems, 15, FinalScan) == Ok(FinalScan);
    assert Unsigned(ReportItems[12].data) == 2 by {
      assert ReportItems[12].data[1..] == [];
    }
    assert Field(ScanState(2, Globals(9, 0, 1, 1, 1, 16), [], Locals([], 1, 16), []), ReportItems[12]) == ButtonsField;
    assert [] + [ButtonsField] == [ButtonsField];
    assert ScanFrom(ReportItems, 14, ScanState(1, Globals(9, 0, 1, 1, 1, 16), [], NoLocals, [ButtonsField])) == Ok(FinalScan);
    assert ScanFrom(ReportItems, 13, ScanState(2, Globals(9, 0, 1, 1, 1, 16), [], NoLocals, [ButtonsField])) == Ok(FinalScan);
  }

  lemma ScannedFrom9()
    ensures ScanFrom(ReportItems, 9, ScanState(2, Globals(9, 0, 0, 0, 1, 0), [], Locals([], 1, 16), [])) == Ok(FinalScan)
  {
    ScannedFrom12();
    assert ScanFrom(ReportItems, 11, ScanState(2, Globals(9, 0, 1, 0, 1, 16), [], Locals([], 1, 16), [])) == Ok(FinalScan);
    assert ScanFrom(ReportItems, 10, ScanState(2, Globals(9, 0, 1, 0, 1, 0), [], Locals([], 1, 16), [])) == Ok(FinalScan);
  }

  lemma ScannedFrom6()
    ensures ScanFrom(ReportItems, 6, ScanState(2, Globals(9, 0, 0, 0, 1, 0), [], NoLocals, [])) == Ok(FinalScan)
  {
    ScannedFrom9();
    assert ScanFrom(ReportItems, 8, ScanState(2, Globals(9, 0, 0, 0, 1, 0), [], Locals([], 1, 16), [])) == Ok(FinalScan);
    assert ScanFrom(ReportItems, 7, ScanState(2, Globals(9, 0, 0, 0, 1, 0), [], Locals([], 1, 0), [])) == Ok(FinalScan);
  }

  lemma ScannedFrom3()
    ensures ScanFrom(ReportItems, 3, ScanState(1, Globals(1, 0, 0, 0, 0, 0), [], NoLocals, [])) == Ok(FinalScan)
  {
    ScannedFrom6();
    assert ScanFrom(ReportItems, 5, ScanState(2, Globals(1, 0, 0, 0, 1, 0), [], NoLocals, [])) == Ok(FinalScan);
    assert ScanFrom(ReportItems, 4, ScanState(2, Globals(1, 0, 0, 0, 0, 0), [], NoLocals, [])) == Ok(FinalScan);
  }

  lemma ScannedFrom0()
    ensures ScanFrom(ReportItems, 0, Start) == Ok(FinalScan)
  {
    ScannedFrom3();
    assert ScanFrom(ReportItems, 2, ScanState(0, Globals(1, 0, 0, 0, 0, 0), [], Locals([5], 0, 0), [])) == Ok(FinalScan);
    assert ScanFrom(ReportItems, 1, ScanState(0, Globals(1, 0, 0, 0, 0, 0), [], NoLocals, [])) == Ok(FinalScan);
  }

  /**
   * The descriptor passes the check: its collections are balanced and it
   * declares a single Input field, with report ID 1, whose 1-bit size times
   * count of 16 fills exactly the 2-byte payload the device sends.
   */
  lemma DescriptorChecks()
    ensures Check(ReportDescriptor) == Ok([ButtonsField])
    ensures Balanced(ReportItems)
    ensures ButtonsField.reportId == GamePadReportId as nat
    ensures IsData(ButtonsField.flags) && IsVariable(ButtonsField.flags) && IsAbsolute(ButtonsField.flags)
    ensures ButtonsField.logicalMin == 0 && ButtonsField.logicalMax == 1
    ensures ButtonsField.usageMax - ButtonsField.usageMin + 1 == ButtonsField.reportCount
    ensures ButtonsField.reportSize * ButtonsField.reportCount == ButtonReport.ButtonCount
    ensures ReportBits([ButtonsField], GamePadReportId as nat) == 8 * ButtonReport.PayloadSize
  {
    DescriptorParses();
    ScannedFrom0();
    CheckItemsBalanced(ReportItems);
  }
}
