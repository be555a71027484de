/**
 * The send-on-change policy of the gamepad as a state machine over values:
 * the button register and the log of reports handed to the HID transport.
 * Class `GamePadDevice.GamePad` is proved to follow it call by call.
 */
module GamePadModel {
  import opened ButtonReport
  import opened GamePadDescriptor

  /** One call of `SendReport`: the report ID and the payload bytes. */
  datatype Report = Report(id: bv8, payload: seq<bv8>)

  /** The report that carries button state `b`. */
  function ButtonsReport(b: bv16): (r: Report)
    ensures r.id == GamePadReportId && |r.payload| == PayloadSize
    ensures Decode(r.payload) == b
  {
    DecodeEncode(b);
    Report(GamePadReportId, Encode(b))
  }

  /** The button register and every report sent so far, oldest first. */
  datatype State = State(buttons: bv16, sent: seq<Report>)

  /** The public operations after construction. */
  datatype Call = SetButtons(b: bv16) | Begin | End

  /** Right after construction: nothing pressed, nothing sent. */
  function Init(): State {
    State(0, [])
  }

  /** The effect of one call. */
  function Apply(s: State, c: Call): State {
    match c
    case SetButtons(b) =>
      if b != s.buttons then State(b, s.sent + [ButtonsReport(b)]) else s
    case Begin => State(s.buttons, s.sent + [ButtonsReport(s.buttons)])
    case End => s
  }

  /** The effect of a sequence of calls, first call first. */
  function Run(s: State, calls: seq<Call>): State
    decreases |calls|
  {
    if calls == [] then s else Run(Apply(s, calls[0]), calls[1..])
  }

  /** Every report carries report ID 1 and a 2-byte payload. */
  ghost predicate ReportsWellFormed(s: State) {
    forall k :: 0 <= k < |s.sent| ==> s.sent[k].id == GamePadReportId && |s.sent[k].payload| == PayloadSize
  }

  /** Once anything was sent, the last report carries the current register. */
  ghost predicate LastReportIsCurrent(s: State) {
    s.sent != [] ==> s.sent[|s.sent| - 1] == ButtonsReport(s.buttons)
  }

  ghost predicate Invariant(s: State) {
    ReportsWellFormed(s) && LastReportIsCurrent(s)
  }

  /** The register starts at 0 and no report has been sent. */
  lemma InitState()
    ensures Init().buttons == 0 && Init().sent == []
    ensures Invariant(Init())
  {
  }

  /** Setting the value already stored sends nothing and changes nothing. */
  lemma SetSameValue(s: State, b: bv16)
    requires b == s.buttons
    ensures Apply(s, SetButtons(b)) == s
  {
  }

  /** Setting a new value stores it and sends exactly one report, ID 1, carrying it. */
  lemma SetNewValue(s: State, b: bv16)
    requires b != s.buttons
    ensures Apply(s, SetButtons(b)).buttons == b
    ensures Apply(s, SetButtons(b)).sent == s.sent + [Report(GamePadReportId, Encode(b))]
  {
  }

  /** After any `SetButtons(b)` the register holds `b`, and a repeat of it sends nothing. */
  lemma SetIdempotent(s: State, b: bv16)
    ensures Apply(s, SetButtons(b)).buttons == b
    ensures Apply(Apply(s, SetButtons(b)), SetButtons(b)) == Apply(s, SetButtons(b))
    ensures |Run(s, [SetButtons(b), SetButtons(b)]).sent| <= |s.sent| + 1
  {
    var once := Apply(s, SetButtons(b));
    assert [SetButtons(b), SetButtons(b)][1..] == [SetButtons(b)];
    assert Run(s, [SetButtons(b), SetButtons(b)]) == Run(once, [SetButtons(b)]);
    assert Run(once, [SetButtons(b)]) == Run(Apply(once, SetButtons(b)), []);
  }

  /** `Begin` always sends the current register and leaves it as it is; `End` does nothing. */
  lemma BeginAndEnd(s: State)
    ensures Apply(s, Begin) == State(s.buttons, s.sent + [Report(GamePadReportId, Encode(s.buttons))])
    ensures Apply(s, End) == s
  {
  }

  /** Every call keeps the invariant. */
  lemma ApplyKeepsInvariant(s: State, c: Call)
    requires Invariant(s)
    ensures Invariant(Apply(s, c))
  {
  }

  /** Any sequence of calls keeps the invariant. */
  lemma {:induction false} RunKeepsInvariant(s: State, calls: seq<Call>)
    requires Invariant(s)
    ensures Invariant(Run(s, calls))
    decreases |calls|
  {
    if calls != [] {
      ApplyKeepsInvariant(s, calls[0]);
      RunKeepsInvariant(Apply(s, calls[0]), calls[1..]);
    }
  }

  /** From construction on, the last report sent carries the current register. */
  lemma ReachableLastReportIsCurrent(calls: seq<Call>)
    ensures ReportsWellFormed(Run(Init(), calls))
    ensures LastReportIsCurrent(Run(Init(), calls))
  {
    RunKeepsInvariant(Init(), calls);
  }

  /** Running calls one after another composes. */
  lemma {:induction false} RunAppend(s: State, a: seq<Call>, b: seq<Call>)
    ensures Run(s, a + b) == Run(Run(s, a), b)
    decreases |a|
  {
    if a == [] {
      assert a + b == b;
    } else {
      assert (a + b)[1..] == a[1..] + b;
      RunAppend(Apply(s, a[0]), a[1..], b);
    }
  }

  /** A run never removes or rewrites a report already sent. */
  lemma {:induction false} RunExtendsLog(s: State, calls: seq<Call>)
    ensures |s.sent| <= |Run(s, calls).sent|
    ensures Run(s, calls).sent[..|s.sent|] == s.sent
    decreases |calls|
  {
    if calls != [] {
      var t := Apply(s, calls[0]);
      assert t.sent[..|s.sent|] == s.sent;
      RunExtendsLog(t, calls[1..]);
      assert Run(s, calls).sent[..|s.sent|] == Run(s, calls).sent[..|t.sent|][..|s.sent|];
    }
  }

  // Only SetButtons calls: the reports are exactly the changes.

  function SetAll(values: seq<bv16>): (calls: seq<Call>)
    ensures |calls| == |values|
    ensures forall k :: 0 <= k < |values| ==> calls[k] == SetButtons(values[k])
  {
    if values == [] then [] else [SetButtons(values[0])] + SetAll(values[1..])
  }

  /** The values of `values` that differ from the value before them, `prev` before the first. */
  function Changes(prev: bv16, values: seq<bv16>): seq<bv16>
    decreases |values|
  {
    if values == [] then []
    else if values[0] == prev then Changes(prev, values[1..])
    else [values[0]] + Changes(values[0], values[1..])
  }

  function ReportsOf(values: seq<bv16>): (r: seq<Report>)
    ensures |r| == |values|
  {
    if values == [] then [] else [ButtonsReport(values[0])] + ReportsOf(values[1..])
  }

  /** One `SetButtons` call followed by a run of them. */
  lemma RunSetAllCons(s: State, values: seq<bv16>)
    requires values != []
    ensures Run(s, SetAll(values)) == Run(Apply(s, SetButtons(values[0])), SetAll(values[1..]))
  {
    assert SetAll(values)[1..] == SetAll(values[1..]);
  }

  /** Report `k` of `ReportsOf(values)` carries value `k`. */
  lemma {:induction false} ReportsOfAt(values: seq<bv16>, k: nat)
    requires k < |values|
    ensures ReportsOf(values)[k] == ButtonsReport(values[k])
    decreases k
  {
    if k > 0 {
      ReportsOfAt(values[1..], k - 1);
    }
  }

  /** The reports of the changes: the first value's report if it changed, then the rest. */
  lemma ReportsOfChanges(prev: bv16, values: seq<bv16>)
    requires values != []
    ensures ReportsOf(Changes(prev, values))
         == (if values[0] == prev then [] else [ButtonsReport(values[0])])
            + ReportsOf(Changes(values[0], values[1..]))
  {
    if values[0] != prev {
      var rest := Changes(values[0], values[1..]);
      assert ([values[0]] + rest)[1..] == rest;
    } else {
      assert [] + ReportsOf(Changes(values[0], values[1..])) == ReportsOf(Changes(values[0], values[1..]));
    }
  }

  /** A run of `SetButtons` calls leaves the last value in the register. */
  lemma {:induction false} RunSetAllButtons(s: State, values: seq<bv16>)
    ensures Run(s, SetAll(values)).buttons == if values == [] then s.buttons else values[|values| - 1]
    decreases |values|
  {
    if values != [] {
      RunSetAllCons(s, values);
      RunSetAllButtons(Apply(s, SetButtons(values[0])), values[1..]);
      if |values| > 1 {
        assert values[1..][|values[1..]| - 1] == values[|values| - 1];
      }
    }
  }

  /** A run of `SetButtons` calls sends one report per change of value, in order. */
  lemma {:induction false} RunSetAllSent(s: State, values: seq<bv16>)
    ensures Run(s, SetAll(values)).sent == s.sent + ReportsOf(Changes(s.buttons, values))
    decreases |values|
  {
    if values == [] {
      assert s.sent + [] == s.sent;
    } else {
      var t := Apply(s, SetButtons(values[0]));
      RunSetAllCons(s, values);
      RunSetAllSent(t, values[1..]);
      ReportsOfChanges(s.buttons, values);
      var d := if values[0] == s.buttons then [] else [ButtonsReport(values[0])];
      var r := ReportsOf(Changes(values[0], values[1..]));
      assert t.buttons == values[0] && t.sent == s.sent + d;
      assert (s.sent + d) + r == s.sent + (d + r);
    }
  }

  /**
   * Two different values set one after the other, the first different from
   * the register, give exactly two reports: the first value, then the second.
   */
  lemma TwoChanges(s: State, v1: bv16, v2: bv16)
    requires v1 != s.buttons && v1 != v2
    ensures Run(s, [SetButtons(v1), SetButtons(v2)]).sent
         == s.sent + [Report(GamePadReportId, Encode(v1)), Report(GamePadReportId, Encode(v2))]
  {
    var first := Apply(s, SetButtons(v1));
    assert [SetButtons(v1), SetButtons(v2)][1..] == [SetButtons(v2)];
    assert Run(s, [SetButtons(v1), SetButtons(v2)]) == Run(first, [SetButtons(v2)]);
    assert Run(first, [SetButtons(v2)]) == Run(Apply(first, SetButtons(v2)), []);
  }

  /** When the first value is already stored, the same two calls send only the second. */
  lemma FirstValueStored(s: State, v1: bv16, v2: bv16)
    requires v1 == s.buttons && v1 != v2
    ensures Run(s, [SetButtons(v1), SetButtons(v2)]).sent == s.sent + [Report(GamePadReportId, Encode(v2))]
  {
    assert [SetButtons(v1), SetButtons(v2)][1..] == [SetButtons(v2)];
    assert Run(s, [SetButtons(v1), SetButtons(v2)]) == Run(s, [SetButtons(v2)]);
    assert Run(s, [SetButtons(v2)]) == Run(Apply(s, SetButtons(v2)), []);
  }

  /**
   * Construct, begin, press button 1, press it again, add button 16: three
   * reports, carrying 0x0000, 0x0001 and 0x8001.
   */
  lemma Scenario()
    ensures Run(Init(), [Begin, SetButtons(0x0001), SetButtons(0x0001), SetButtons(0x8001)]).sent
         == [ButtonsReport(0x0000), ButtonsReport(0x0001), ButtonsReport(0x8001)]
  {
    var calls := [Begin, SetButtons(0x0001), SetButtons(0x0001), SetButtons(0x8001)];
    assert calls == [Begin] + SetAll([0x0001, 0x0001, 0x8001]);
    RunAppend(Init(), [Begin], SetAll([0x0001, 0x0001, 0x8001]));
    var s1 := Run(Init(), [Begin]);
    assert s1 == State(0, [ButtonsReport(0)]);
    RunSetAllSent(s1, [0x0001, 0x0001, 0x8001]);
    assert Changes(0, [0x0001, 0x0001, 0x8001]) == [0x0001, 0x8001];
  }
}
