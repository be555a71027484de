/**
 * Class `GamePad_`: the 16-bit button register, updated in place, in front of
 * the HID transport.  The transport is modelled by two ghost logs that its
 * calls append to and that never fail (`SendReport` is the append in
 * `SetButtons` and `Begin`): the report descriptors registered
 * with it (`AppendDescriptor`) and the reports sent (`SendReport`).
 */
module GamePadDevice {
  import opened ButtonReport
  import opened GamePadDescriptor
  import opened GamePadModel

  class GamePad {
    /** `_buttons`: bit `i` set while button `i + 1` is pressed. */
    var buttons: bv16
    /** Every `SendReport(id, payload)` made by this object, oldest first. */
    ghost var sent: seq<Report>
    /** Every report descriptor this object registered with the transport. */
    ghost var registered: seq<seq<bv8>>

    /** The object's state as a value of the model. */
    ghost function State(): GamePadModel.State
      reads this
    {
      GamePadModel.State(buttons, sent)
    }

    ghost predicate Valid()
      reads this
    {
      Invariant(State()) && registered == [ReportDescriptor]
    }

    /** Register 0, the descriptor registered once, nothing sent. */
    constructor ()
      ensures Valid()
      ensures State() == Init()
      ensures buttons == 0 && sent == [] && registered == [ReportDescriptor]
    {
      buttons := 0;
      sent := [];
      registered := [ReportDescriptor];
    }

    /** Stores `b` and sends it, but only when it differs from the stored value. */
    method SetButtons(b: bv16)
      requires Valid()
      modifies this
      ensures Valid()
      ensures buttons == b
      ensures b == old(buttons) ==> sent == old(sent)
      ensures b != old(buttons) ==> sent == old(sent) + [Report(GamePadReportId, Encode(b))]
      ensures registered == old(registered)
      ensures State() == Apply(old(State()), Call.SetButtons(b))
    {
      if b != buttons {
        buttons := b;
        sent := sent + [Report(GamePadReportId, Encode(buttons))];
      }
    }

    /** Sends the stored value, whether or not it changed. */
    method Begin()
      requires Valid()
      modifies this
      ensures Valid()
      ensures buttons == old(buttons)
      ensures sent == old(sent) + [Report(GamePadReportId, Encode(buttons))]
      ensures registered == old(registered)
      ensures State() == Apply(old(State()), Call.Begin)
    {
      sent := sent + [Report(GamePadReportId, Encode(buttons))];
    }

    /** Does nothing. */
    method End()
      requires Valid()
      ensures Valid()
      ensures State() == old(State())
    {
    }
  }
}
