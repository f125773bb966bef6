/** The two-step paste: write the clipboard, then send the keystroke, reporting of each step only what is known. */
module Paste {
  import opened Common
  import opened ActionRecords
  import Contract = ActionContract
  import Agreement = CodecAgreement
  import Codec = MessageCodec
  import Desktop = ActionsModule
  import Json = JsonText
  import Utf8

  /** What a child process came back with; `output` is its standard output. */
  datatype ProcessResult = ProcessResult(code: Code, output: seq<byte>)

  /** An await ends with a value, with the deadline of the whole paste, or with the cancellation of the session. */
  datatype Await<T> = Returns(value: T) | Deadline | Cancelled

  datatype PasteResult = PasteResult(code: Code, reason: Field, written: Option<bool>, sent: Option<bool>)

  /** The result, if the paste was not cancelled, and which of the two programs was started. */
  datatype Pasted = Pasted(result: Option<PasteResult>, writing: bool, pasting: bool)

  /** How the awaits of one paste turn out, each used only if it is reached. */
  datatype Awaits = Awaits(write: Await<ProcessResult>, settle: Await<()>, paste: Await<ProcessResult>, rest: Await<()>)

  // ---------------------------------------------------------------- the status line

  predicate Space(b: byte) { b == 0x20 || 0x09 <= b <= 0x0D }

  function StrippedLeft(t: seq<byte>): seq<byte> {
    if t != [] && Space(t[0]) then StrippedLeft(t[1..]) else t
  }

  function Stripped(t: seq<byte>): seq<byte>
    decreases |t|
  {
    var left := StrippedLeft(t);
    StrippedRight(left)
  }

  function StrippedRight(t: seq<byte>): seq<byte> {
    if t != [] && Space(t[|t| - 1]) then StrippedRight(t[..|t| - 1]) else t
  }

  /** `ERROR:`, an optional minus sign and at least one digit. */
  predicate NumericError(status: seq<byte>) {
    var prefix := Json.Literal("ERROR:");
    && |status| > 6 && status[..6] == prefix
    && var digits := if status[6] == '-' as int then status[7..] else status[6..];
       digits != [] && forall i :: 0 <= i < |digits| ==> Json.Digit(digits[i])
  }

  predicate Succeeded(r: ProcessResult) { r.code == OK && Stripped(r.output) == Json.Literal("OK") }

  predicate TimedOut(r: ProcessResult) {
    r.code == TIMEOUT || (r.code == OK && Stripped(r.output) == Json.Literal("ERROR:-1712"))
  }

  predicate Denied(r: ProcessResult) {
    r.code == OK && (Stripped(r.output) == Json.Literal("ERROR:-1743") || Stripped(r.output) == Json.Literal("ERROR:-25211"))
  }

  /** The program itself said that the step failed. */
  predicate FailureConfirmed(r: ProcessResult) {
    !TimedOut(r) && r.code == OK && (Stripped(r.output) == Json.Literal("FAILED") || NumericError(Stripped(r.output)))
  }

  // ---------------------------------------------------------------- one paste

  function Named(reason: string): Field { Str(Ascii(reason)) }

  /** `_failure`: the classification of a step that did not succeed. */
  function Failure(r: ProcessResult, writing: bool, written: Option<bool>): PasteResult {
    if TimedOut(r) then PasteResult(TIMEOUT, Named("UNCONFIRMED"), written, if writing then Some(false) else None)
    else
      var confirmed := r.code == OK && (Stripped(r.output) == Json.Literal("FAILED") || NumericError(Stripped(r.output)));
      var reason := if !confirmed then Named("UNCONFIRMED") else if Denied(r) then Named("PERMISSION_DENIED")
                    else if writing then Named("WRITE_FAILED") else Named("PASTE_FAILED");
      PasteResult(ERROR, reason, if writing && confirmed then Some(false) else written, if writing || confirmed then Some(false) else None)
  }

  predicate Pasteable(text: Text) {
    text != [] && 0 !in text && (forall i :: 0 <= i < |text| ==> Utf8.Scalar(text[i])) && |Utf8.EncodeAll(text)| <= 8192
  }

  /** `paste`, stage by stage; `written` and `sent` are what is known so far. */
  method Paste(available: bool, text: Text, awaits: Awaits) returns (r: Pasted)
    ensures r.writing <==> available && Pasteable(text)
    ensures r.pasting <==> r.writing && WriteConfirmed(awaits)
    ensures r.result.None? <==> CancelledIn(r, awaits)
    ensures r.result.Some? ==> Truthful(r, awaits) && Coded(r, awaits) && Explained(r, awaits, available)
  {
    ReasonsDiffer();
    if !available {
      return Pasted(Some(PasteResult(ERROR, Named("UNAVAILABLE"), Some(false), Some(false))), false, false);
    }
    if !Pasteable(text) {
      return Pasted(Some(PasteResult(ERROR, Named("WRITE_FAILED"), Some(false), Some(false))), false, false);
    }
    var written: Option<bool>, sent: Option<bool> := None, Some(false);
    if awaits.write.Deadline? {
      return Pasted(Some(PasteResult(TIMEOUT, Named("UNCONFIRMED"), written, sent)), true, false);
    } else if awaits.write.Cancelled? {
      return Pasted(None, true, false);
    }
    if !Succeeded(awaits.write.value) {
      StatusesDiffer(awaits.write.value);
      return Pasted(Some(Failure(awaits.write.value, true, None)), true, false);
    }
    written := Some(true);
    if awaits.settle.Deadline? {
      return Pasted(Some(PasteResult(TIMEOUT, Named("UNCONFIRMED"), written, sent)), true, false);
    } else if awaits.settle.Cancelled? {
      return Pasted(None, true, false);
    }
    sent := None;
    if awaits.paste.Deadline? {
      return Pasted(Some(PasteResult(TIMEOUT, Named("UNCONFIRMED"), written, sent)), true, true);
    } else if awaits.paste.Cancelled? {
      return Pasted(None, true, true);
    }
    if !Succeeded(awaits.paste.value) {
      StatusesDiffer(awaits.paste.value);
      return Pasted(Some(Failure(awaits.paste.value, false, Some(true))), true, true);
    }
    sent := Some(true);
    if awaits.rest.Deadline? {
      return Pasted(Some(PasteResult(TIMEOUT, Named("UNCONFIRMED"), written, sent)), true, true);
    } else if awaits.rest.Cancelled? {
      return Pasted(None, true, true);
    }
    return Pasted(Some(PasteResult(OK, Null, Some(true), Some(true))), true, true);
  }

  /** The write succeeded and there was time left: the only way to the keystroke. */
  predicate WriteConfirmed(awaits: Awaits) {
    awaits.write.Returns? && Succeeded(awaits.write.value) && awaits.settle.Returns?
  }

  predicate PasteConfirmed(awaits: Awaits) { awaits.paste.Returns? && Succeeded(awaits.paste.value) }

  predicate CancelledIn(r: Pasted, awaits: Awaits) {
    r.writing && (awaits.write.Cancelled?
                  || (awaits.write.Returns? && Succeeded(awaits.write.value) && awaits.settle.Cancelled?)
                  || (r.pasting && (awaits.paste.Cancelled? || (PasteConfirmed(awaits) && awaits.rest.Cancelled?))))
  }

  /** Each step is reported done, not done or unknown exactly as its program, and whether it was started, tell. */
  predicate Truthful(r: Pasted, awaits: Awaits)
    requires r.result.Some?
  {
    var p := r.result.value;
    && p.written == (if !r.writing then Some(false) else if !awaits.write.Returns? then None
                     else if Succeeded(awaits.write.value) then Some(true)
                     else if FailureConfirmed(awaits.write.value) then Some(false) else None)
    && p.sent == (if !r.pasting then Some(false) else if !awaits.paste.Returns? then None
                  else if Succeeded(awaits.paste.value) then Some(true)
                  else if FailureConfirmed(awaits.paste.value) then Some(false) else None)
  }

  predicate Coded(r: Pasted, awaits: Awaits)
    requires r.result.Some?
  {
    var p := r.result.value;
    && (p.code == OK <==> r.pasting && PasteConfirmed(awaits) && awaits.rest.Returns?)
    && (p.code == OK <==> p.reason == Null)
    && (p.code == TIMEOUT ==> p.reason == Named("UNCONFIRMED"))
    && p.code in {OK, ERROR, TIMEOUT} && (p.reason == Null || (p.reason.Str? && p.reason.s in FailureReasons()))
  }

  /** The program came back without success. */
  predicate Unsuccessful(end: Await<ProcessResult>) { end.Returns? && !Succeeded(end.value) }

  /** The program that ended the paste said itself that it failed, for want of permission or not. */
  predicate Confessed(end: Await<ProcessResult>, denied: bool) {
    Unsuccessful(end) && FailureConfirmed(end.value) && (Denied(end.value) <==> denied)
  }

  /** Time ran out, for a program or for the paste as a whole. */
  predicate RanOut(r: Pasted, awaits: Awaits) {
    r.writing && (awaits.write.Deadline? || (Unsuccessful(awaits.write) && TimedOut(awaits.write.value))
                  || (awaits.write.Returns? && Succeeded(awaits.write.value) && awaits.settle.Deadline?)
                  || (r.pasting && (awaits.paste.Deadline? || (Unsuccessful(awaits.paste) && TimedOut(awaits.paste.value))
                                    || (PasteConfirmed(awaits) && awaits.rest.Deadline?))))
  }

  /** Each reason has its cause, and a timeout is one. */
  predicate Explained(r: Pasted, awaits: Awaits, available: bool)
    requires r.result.Some?
  {
    var p := r.result.value;
    && (p.reason == Named("UNAVAILABLE") <==> !available)
    && (p.reason == Named("PERMISSION_DENIED") <==> r.writing && (Confessed(awaits.write, true) || (r.pasting && Confessed(awaits.paste, true))))
    && (p.reason == Named("WRITE_FAILED") <==> available && (!r.writing || Confessed(awaits.write, false)))
    && (p.reason == Named("PASTE_FAILED") <==> r.pasting && Confessed(awaits.paste, false))
    && (p.code == TIMEOUT <==> RanOut(r, awaits))
  }

  lemma ReasonsDiffer()
    ensures Named("UNAVAILABLE") != Named("PERMISSION_DENIED") && Named("UNAVAILABLE") != Named("WRITE_FAILED")
    ensures Named("UNAVAILABLE") != Named("PASTE_FAILED") && Named("UNAVAILABLE") != Named("UNCONFIRMED")
    ensures Named("PERMISSION_DENIED") != Named("WRITE_FAILED") && Named("PERMISSION_DENIED") != Named("PASTE_FAILED")
    ensures Named("PERMISSION_DENIED") != Named("UNCONFIRMED") && Named("WRITE_FAILED") != Named("PASTE_FAILED")
    ensures Named("WRITE_FAILED") != Named("UNCONFIRMED") && Named("PASTE_FAILED") != Named("UNCONFIRMED")
  {
    assert |Ascii("UNAVAILABLE")| == 11 && |Ascii("PERMISSION_DENIED")| == 17 && |Ascii("UNCONFIRMED")| == 11;
    assert |Ascii("WRITE_FAILED")| == 12 && |Ascii("PASTE_FAILED")| == 12;
    assert Ascii("WRITE_FAILED")[0] == 'W' as int && Ascii("PASTE_FAILED")[0] == 'P' as int;
    assert Ascii("UNAVAILABLE")[2] == 'A' as int && Ascii("UNCONFIRMED")[2] == 'C' as int;
  }

  lemma StatusesDiffer(r: ProcessResult)
    ensures |Json.Literal("OK")| == 2 && |Json.Literal("FAILED")| == 6
    ensures NumericError(Stripped(r.output)) ==> |Stripped(r.output)| > 6
  {}

  // ---------------------------------------------------------------- what really happened

  /** What the adapter promises of one program: never started, it did nothing; and it does not lie. */
  predicate Keeps(started: bool, end: Await<ProcessResult>, happened: bool) {
    && (!started ==> !happened)
    && (started && end.Returns? && Succeeded(end.value) ==> happened)
    && (started && end.Returns? && FailureConfirmed(end.value) ==> !happened)
  }

  /** Whatever the programs really did, a definite report is true; and the keystroke never went out over an unwritten clipboard. */
  lemma ReportsAreTrue(r: Pasted, awaits: Awaits, wrote: bool, pasted: bool)
    requires r.result.Some? && Truthful(r, awaits) && (r.pasting ==> r.writing && WriteConfirmed(awaits))
    requires Keeps(r.writing, awaits.write, wrote) && Keeps(r.pasting, awaits.paste, pasted)
    ensures r.result.value.written.Some? ==> r.result.value.written.value == wrote
    ensures r.result.value.sent.Some? ==> r.result.value.sent.value == pasted
    ensures pasted ==> wrote
  {}

  // ---------------------------------------------------------------- the record sent back

  function OutcomeOf(p: PasteResult): Desktop.Outcome { Desktop.PasteDone(p.code, p.reason, p.written, p.sent) }

  /** Every paste result makes a record both ends accept, so it is sent as it is and the firmware decodes it. */
  lemma PasteRecordValid(configured: seq<Desktop.Action>, a: Desktop.Action, r: Pasted, awaits: Awaits, blank: Codec.Message)
    requires Desktop.ValidConfig(configured) && Desktop.Runnable(a) && a in configured && a.kind == Some(Clipboard)
    requires r.result.Some? && Truthful(r, awaits) && Coded(r, awaits) && (r.pasting ==> r.writing && WriteConfirmed(awaits))
    requires blank.code == r.result.value.code
    ensures var p := r.result.value;
            && Contract.ValidExecution(p.code, Desktop.Reported(a, OutcomeOf(p)))
            && Codec.DecodedExecution(Desktop.Reported(a, OutcomeOf(p)), blank).Some?
  {
    var p := r.result.value;
    Agreement.ExecutionsAgree(Desktop.Reported(a, OutcomeOf(p)), blank);
    Contract.TypeNamesDiffer();
    Desktop.IdentityValid(configured, a, Null, Desktop.Nullable(p.written), Desktop.Nullable(p.sent), p.reason);
  }

  /** A script's exit status, from the process runner: success means zero, and the status is a 32-bit number. */
  predicate ScriptResult(code: Code, exitCode: Option<int>) {
    && code in {OK, ERROR, TIMEOUT} && (code == OK ==> exitCode == Some(0))
    && (exitCode.Some? ==> -0x8000_0000 <= exitCode.value < 0x8000_0000)
  }

  /** A script's report is sent as it is exactly when it is such a result; otherwise the unconfirmed record replaces it. */
  lemma ScriptRecordValid(configured: seq<Desktop.Action>, a: Desktop.Action, code: Code, exitCode: Option<int>)
    requires Desktop.ValidConfig(configured) && Desktop.Runnable(a) && a in configured && a.kind == Some(Script)
    requires code in {OK, ERROR, TIMEOUT}
    ensures Contract.ValidExecution(code, Desktop.Reported(a, Desktop.ScriptDone(code, exitCode))) <==> ScriptResult(code, exitCode)
  {
    Contract.TypeNamesDiffer();
    var exit := if exitCode.Some? then Int(exitCode.value) else Null;
    Desktop.IdentityValid(configured, a, exit, Null, Null, Desktop.ScriptReason(code));
    ReasonKnown(code);
  }

  lemma ReasonKnown(code: Code)
    requires code in {OK, ERROR, TIMEOUT}
    ensures Contract.ValidReason(code, Desktop.ScriptReason(code))
  {}
}
