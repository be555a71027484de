# Sega Activator gamepad: USB HID reporter

A model of the firmware's USB side, `GamePad_` in
`src/sega_activator_to_usb/usb_gamepad.h`. The device is a 16-button USB HID
gamepad. It has two parts:

- **The report descriptor.** `_hidReportDescriptor` is a constant byte table.
  It describes one Application collection that holds one Physical collection.
  That collection declares Report ID 1 and sixteen one-bit Button fields.
- **The reporter.** `GamePad_` keeps one 16-bit register `_buttons`, which
  starts at 0. `set_buttons(b)` stores `b` and sends a report, but only when
  `b` differs from the stored value. `begin()` always sends the stored value.
  `end()` does nothing. Each report is `SendReport(1, &_buttons, 2)`: report
  ID 1 and a 2-byte payload.

The Dafny project has seven files:

- `wrappers.dfy`: `Result`.
- `button_report.dfy` (module `ButtonReport`): the 2-byte payload. The raw
  `uint16_t` memory is read as little-endian, the AVR layout.
- `hid_items.dfy` (module `HidItems`): the short-item syntax of section
  6.2.2.2 of the USB Device Class Definition for HID 1.11. It has a parser,
  an encoder and round-trip lemmas in both directions.
- `hid_descriptor.dfy` (module `HidDescriptor`): a checker that walks the
  items. It keeps the Global item state (section 6.2.2.7) and the Local item
  state (section 6.2.2.8), tracks collection nesting (section 6.2.2.6) and
  lists the Input fields (section 6.2.2.5). `Balanced` is a separate
  definition of nesting that only counts items. It is proved to agree with
  the checker.
- `gamepad_descriptor.dfy` (module `GamePadDescriptor`): the constant table.
  It is written as five consecutive parts that follow the lines of the table
  (the Application collection, the Physical collection with its report ID,
  the button usages, the value range and layout, and the Input item with
  both End Collections), each next to the items it encodes. The lemmas show it parses into 15 well-formed items and passes the check.
  The check finds a single Input field with report ID 1, size 1 and count 16.
  That is 16 bits, the size of the 2-byte payload.
- `gamepad_model.dfy` (module `GamePadModel`): the send-on-change policy as a
  function `Apply` over a state (the register plus the log of sent reports).
  It also has `Run` for a sequence of calls, and lemmas about any call
  sequence.
- `gamepad_device.dfy` (module `GamePadDevice`): class `GamePad`. It has the
  register as a `bv16` field and two ghost logs for the transport: the
  descriptors registered and the reports sent. Each method is proved to do
  what `GamePadModel.Apply` does and to keep the invariant.

Two facts about the code are worth stating on their own:

- The table is 28 bytes: thirteen 2-byte items and two 1-byte End
  Collection items (`DescriptorParses`).
- Two different values `v1`, `v2` set in a row give two reports only when
  `v1` differs from the stored value (`TwoChanges`). Otherwise only `v2` is
  sent (`FirstValueStored`).

## Model

| member | source | states |
|---|---|---|
| `ButtonReport.Encode` | src/sega_activator_to_usb/usb_gamepad.h:37 | the payload is `sizeof(uint16_t)` = 2 bytes: the low byte of the register, then the high byte |
| `ButtonReport.Decode` | src/sega_activator_to_usb/usb_gamepad.h:37 | the register read back from 2 payload bytes has those bytes as its low and high halves |
| `ButtonReport.DecodeEncode` | src/sega_activator_to_usb/usb_gamepad.h:37 | decoding a sent payload gives back exactly the stored 16-bit value |
| `ButtonReport.EncodeDecode` | src/sega_activator_to_usb/usb_gamepad.h:42 | every 2-byte payload encodes the value it decodes to |
| `ButtonReport.EncodeInjective` | src/sega_activator_to_usb/usb_gamepad.h:35-37 | two register values have the same payload exactly when they are equal |
| `ButtonReport.ButtonBitLayout` | src/sega_activator_to_usb/usb_gamepad.h:13-19 | button `i+1` (register bit `i`) is bit `i % 8` of payload byte `i / 8` |
| `HidItems.ParseHead` | src/sega_activator_to_usb/usb_gamepad.h:6-22 | reading one short item gives a well-formed item whose encoding is exactly the bytes it used; a failure points at the first byte |
| `HidItems.Parse` | src/sega_activator_to_usb/usb_gamepad.h:6-22 | on success every item is well formed (4-bit tag; 0, 1, 2 or 4 data bytes); on failure the error offset is inside the input |
| `HidItems.ParseEncode` | src/sega_activator_to_usb/usb_gamepad.h:6-22 | parsing the encoding of any well-formed items gives those items back |
| `HidItems.EncodeParse` | src/sega_activator_to_usb/usb_gamepad.h:6-22 | a successful parse uses every byte: encoding its items gives the input back |
| `HidItems.EncodeAppend` | src/sega_activator_to_usb/usb_gamepad.h:6-22 | the items of a descriptor are encoded one after the other: encoding a concatenation is concatenating the encodings |
| `HidDescriptor.Unsigned` | src/sega_activator_to_usb/usb_gamepad.h:11-18 | little-endian item data of `n` bytes is a number below 256^n |
| `HidDescriptor.Signed` | src/sega_activator_to_usb/usb_gamepad.h:15-16 | two's-complement item data is negative exactly when its top byte is at least 0x80, and `n` bytes of it lie in -128·256^(n-1) .. 128·256^(n-1) - 1 |
| `HidDescriptor.Step` | src/sega_activator_to_usb/usb_gamepad.h:9-21 | an item changes the nesting depth by +1 for Collection and by -1 for End Collection; it is a nesting error exactly when End Collection comes at depth 0 |
| `HidDescriptor.ScanNesting` | src/sega_activator_to_usb/usb_gamepad.h:9-10 | from any point of the scan: success implies balanced nesting, and balanced nesting rules out a nesting error |
| `HidDescriptor.CheckItemsBalanced` | src/sega_activator_to_usb/usb_gamepad.h:20-21 | the check accepts only items whose collections are balanced, and reports no nesting error on balanced items |
| `GamePadDescriptor.DescriptorParses` | src/sega_activator_to_usb/usb_gamepad.h:6-22 | the table is 28 bytes and parses into exactly the 15 listed well-formed short items |
| `GamePadDescriptor.DescriptorChecks` | src/sega_activator_to_usb/usb_gamepad.h:6-22 | the table passes the check with balanced collections and one Input field: report ID 1 (the ID passed to `SendReport`), Button page usages 1..16, logical range 0..1, Data/Variable/Absolute, size 1 times count 16 = 16 bits, the bit size of the 2-byte payload |
| `GamePadModel.ButtonsReport` | src/sega_activator_to_usb/usb_gamepad.h:37 | a report has ID 1 and a 2-byte payload that decodes to the register |
| `GamePadModel.InitState` | src/sega_activator_to_usb/usb_gamepad.h:29 | after construction the register is 0 and no report has been sent |
| `GamePadModel.SetSameValue` | src/sega_activator_to_usb/usb_gamepad.h:34-35 | setting the stored value sends nothing and changes nothing |
| `GamePadModel.SetNewValue` | src/sega_activator_to_usb/usb_gamepad.h:35-37 | setting a new value stores it and appends exactly one report, ID 1, with its payload |
| `GamePadModel.SetIdempotent` | src/sega_activator_to_usb/usb_gamepad.h:34-39 | after `set_buttons(b)` the register is `b`; a second `set_buttons(b)` changes nothing, so the pair sends at most one report |
| `GamePadModel.BeginAndEnd` | src/sega_activator_to_usb/usb_gamepad.h:41-44 | `begin` appends one report of the current register and keeps the register; `end` changes nothing |
| `GamePadModel.ApplyKeepsInvariant` | src/sega_activator_to_usb/usb_gamepad.h:34-43 | every call keeps the invariant: all reports have ID 1 and 2 bytes, and the last one carries the current register |
| `GamePadModel.RunKeepsInvariant` | src/sega_activator_to_usb/usb_gamepad.h:34-43 | any sequence of calls keeps that invariant |
| `GamePadModel.ReachableLastReportIsCurrent` | src/sega_activator_to_usb/usb_gamepad.h:29-43 | after construction and any calls, once a report was sent, the last one carries the current register |
| `GamePadModel.RunAppend` | src/sega_activator_to_usb/usb_gamepad.h:34-44 | running two call sequences one after the other is running their concatenation |
| `GamePadModel.RunExtendsLog` | src/sega_activator_to_usb/usb_gamepad.h:37-42 | calls only append to the report log; reports already sent are never changed |
| `GamePadModel.ReportsOfAt` | src/sega_activator_to_usb/usb_gamepad.h:37 | the `k`-th report of a list of values carries the `k`-th value |
| `GamePadModel.RunSetAllButtons` | src/sega_activator_to_usb/usb_gamepad.h:34-39 | after a run of `set_buttons` calls, the register holds the last value set |
| `GamePadModel.RunSetAllSent` | src/sega_activator_to_usb/usb_gamepad.h:34-39 | a run of `set_buttons` calls sends exactly one report for each value that differs from the one before it, in order |
| `GamePadModel.TwoChanges` | src/sega_activator_to_usb/usb_gamepad.h:34-39 | `v1` different from the register, then a different `v2`: exactly two reports, `v1` then `v2` |
| `GamePadModel.FirstValueStored` | src/sega_activator_to_usb/usb_gamepad.h:34-39 | `v1` equal to the register, then a different `v2`: only the report of `v2` |
| `GamePadModel.Scenario` | src/sega_activator_to_usb/usb_gamepad.h:34-43 | construct, `begin`, set 0x0001, set 0x0001, set 0x8001 sends exactly 0x0000, 0x0001, 0x8001 |
| `GamePadDevice.GamePad.constructor` | src/sega_activator_to_usb/usb_gamepad.h:29-32 | register 0, nothing sent, the report descriptor registered once; the invariant holds |
| `GamePadDevice.GamePad.SetButtons` | src/sega_activator_to_usb/usb_gamepad.h:34-39 | the register becomes `b`; no report if `b` equals the old value, otherwise exactly one report (ID 1, payload of `b`); the new state is `Apply(old, SetButtons(b))` and the invariant is kept |
| `GamePadDevice.GamePad.Begin` | src/sega_activator_to_usb/usb_gamepad.h:41-43 | the register is unchanged and exactly one report of it is appended; the invariant is kept |
| `GamePadDevice.GamePad.End` | src/sega_activator_to_usb/usb_gamepad.h:44 | nothing changes and the invariant still holds |

## Left out

- `HID()`, `HIDSubDescriptor` and `AppendDescriptor` belong to the Arduino HID library and are not part of this model. Registration appears only as the ghost log `registered`, which the constructor sets to the one descriptor. The global descriptor list and its `static` node are not modelled, so neither is what a second `GamePad_` object would do to that list.
- `SendReport` returns a status that the source ignores. The model appends to a ghost log and never fails. The append is written inside `SetButtons` and `Begin`, so only those methods change the log.
- `PROGMEM` placement and the `Arduino.h` and `HID.h` includes are storage and platform details with no behaviour.
- USB enumeration, endpoint transfers, interrupts and the host's reading of the descriptor are I/O done by the external USB stack.
- The byte order of the payload is fixed to little-endian, the AVR layout of `&_buttons`. Other layouts are not modelled.
- Calls from interrupt context and re-entrant calls are not modelled. The source assumes a single caller.
- The report ID byte that the transport puts in front of the payload on the wire is not modelled. A report is the (ID, payload) pair given to `SendReport`.
- `HidDescriptor.Step`: Physical Minimum/Maximum, Unit, Unit Exponent, Designator, String and Delimiter items are read as items but do not change the state. A 4-byte Usage is not split into usage page and usage ID. The table uses none of these.
- `HidItems.Parse`: long items (prefix 0xFE, section 6.2.2.3) are reported as errors instead of being skipped. The table has none.
