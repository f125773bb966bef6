/** An execution from the desktop's adapter to the firmware's slot: what really came of it is what the slot shows. */
module ExecutionService {
  import opened Common
  import opened ActionRecords
  import Contract = ActionContract
  import Desktop = ActionsModule
  import Codec = MessageCodec
  import Agreement = CodecAgreement
  import Control = ActionsController
  import Runs = ExecutionRuns
  import Laws = ExecutionLaws

  predicate Fits32(n: Option<int>) { n.Some? ==> -0x8000_0000 <= n.value < 0x8000_0000 }

  /** The adapter confirmed the whole of the action. */
  predicate Confirmed(o: Desktop.Outcome) {
    match o
    case ScriptDone(code, exitCode) => code == OK && exitCode == Some(0)
    case PasteDone(code, reason, written, sent) => code == OK && reason == Null && written == Some(true) && sent == Some(true)
    case Raised => false
  }

  /** The adapter reported a failure, definitely and in a form that can be sent. */
  predicate Refused(o: Desktop.Outcome) {
    match o
    case ScriptDone(code, exitCode) => code == ERROR && Fits32(exitCode)
    case PasteDone(code, reason, written, sent) =>
      && (code == ERROR || code == BUSY) && (sent == Some(true) ==> written == Some(true))
      && (reason == Null || (reason.Str? && reason.s in FailureReasons() && reason.s != Ascii("UNCONFIRMED")))
    case Raised => false
  }

  function Expected(o: Desktop.Outcome): Control.ExecutionStatus {
    if Confirmed(o) then Control.Succeeded else if Refused(o) then Control.Failed else Control.Unconfirmed
  }

  /** The slot waits for this action: by its identity and type, or by its key. */
  predicate Awaits(e: Control.Execution, a: Desktop.Action) {
    && e.id != "" && a.kind.Some?
    && (e.target == [] || (e.target == Codec.Bytes(a.actionId) && e.kind == a.kind.value))
  }

  lemma ReasonsDiffer()
    ensures Ascii("UNCONFIRMED") in FailureReasons() && Ascii("EXECUTION_FAILED") in FailureReasons()
    ensures Ascii("UNCONFIRMED") != Ascii("EXECUTION_FAILED")
  {
    assert Ascii("UNCONFIRMED")[0] == 'U' as int && Ascii("EXECUTION_FAILED")[0] == 'E' as int;
  }

  /** The record says of each step what the adapter said, and nothing that it did not. */
  lemma ReportMeans(a: Desktop.Action, o: Desktop.Outcome)
    requires a.kind.Some?
    ensures var data := Desktop.Reported(a, o);
            && data.Execution? && data.kind == Str(TypeName(a.kind.value)) && data.actionId == Str(a.actionId) && data.name == Str(a.name)
            && match o
               case ScriptDone(code, exitCode) =>
                 && data.exitCode == (if exitCode.Some? then Int(exitCode.value) else Null) && data.written == data.sent == Null
                 && data.reason == (if code == OK then Null else Str(Ascii(if code == TIMEOUT then "UNCONFIRMED" else "EXECUTION_FAILED")))
               case PasteDone(_, reason, written, sent) =>
                 && data.exitCode == Null && data.reason == reason
                 && data.written == (if written.Some? then Bool(written.value) else Null)
                 && data.sent == (if sent.Some? then Bool(sent.value) else Null)
               case Raised => data.exitCode == data.written == data.sent == Null && data.reason == Str(Ascii("UNCONFIRMED"))
  {}

  /** Which reports validate, and with that what is sent. */
  lemma SentRecord(configured: seq<Desktop.Action>, a: Desktop.Action, o: Desktop.Outcome)
    requires Desktop.ValidConfig(configured) && Desktop.Runnable(a) && a in configured && Desktop.Fits(a, o)
    ensures var r := Desktop.Finished(a, o);
            && r.Executed? && Contract.ValidExecution(r.code, r.data) && r.data.Execution?
            && r.data.kind == Str(TypeName(a.kind.value)) && r.data.actionId == Str(a.actionId) && r.data.name == Str(a.name)
            && (r.code == OK <==> Confirmed(o))
            && (r.code != OK && r.code != TIMEOUT && r.data.reason != Str(Ascii("UNCONFIRMED")) <==> Refused(o))
  {
    ReasonsDiffer();
    Contract.TypeNamesDiffer();
    Desktop.UnconfirmedIsValid(configured, a);
    var data := Desktop.Reported(a, o);
    Desktop.IdentityValid(configured, a, data.exitCode, data.written, data.sent, if data.reason == Absent then Null else data.reason);
  }

  lemma ReasonBytes(s: Text)
    ensures Codec.Bytes(s) == Ascii("UNCONFIRMED") <==> s == Ascii("UNCONFIRMED")
  {
    Agreement.LiteralAgrees(s, Ascii("UNCONFIRMED"));
  }

  /** The record decodes to an answer that agrees with the slot and shows what it has to. */
  lemma RecordAnswers(code: Code, data: ExecutionData, a: Desktop.Action, blank: Codec.Message, e: Control.Execution, types: seq<ActionType>)
    returns (m: Codec.Message)
    requires Contract.ValidExecution(code, data) && data.Execution? && blank.code == code && Awaits(e, a) && a.kind.value in types
    requires data.kind == Str(TypeName(a.kind.value)) && data.actionId == Str(a.actionId) && data.name == Str(a.name)
    ensures Codec.DecodedExecution(data, blank) == Some(m) && m.code == code && m.request == blank.request && m.execId == blank.execId
    ensures Laws.Agrees(m, e) && (m.code == OK ==> Runs.Shown(m, types))
    ensures Runs.Inconclusive(m) <==> code != OK && (code == TIMEOUT || data.reason == Str(Ascii("UNCONFIRMED")))
  {
    Agreement.ExecutionContents(data, blank);
    Contract.TypeNamesDiffer();
    m := Codec.DecodedExecution(data, blank).value;
    if data.reason.Str? { ReasonBytes(data.reason.s); }
    assert |Ascii("UNCONFIRMED")| == 11;
    NameNotEmpty(data.name);
    IdNotEmpty(data.actionId, a.kind.value);
  }

  lemma NameNotEmpty(f: Field)
    requires Contract.ValidName(f)
    ensures Codec.Bytes(f.s) != []
  {
    Agreement.NameFieldsAgree(f);
  }

  lemma IdNotEmpty(f: Field, t: ActionType)
    requires Contract.ValidActionId(f, t)
    ensures Codec.Bytes(f.s) != []
  {
    Agreement.IdsAgree(f, t);
  }

  /**
   For every configured action, whatever its adapter came back with, in every run of the firmware: the record the desktop sends
   for it decodes, and arriving in time it ends the execution that waits for it, as succeeded exactly if the adapter confirmed
   every step, as failed exactly if it reported a failure, and as unconfirmed otherwise.
   */
  lemma ExecutionSettles(configured: seq<Desktop.Action>, a: Desktop.Action, o: Desktop.Outcome, last: u64, inputs: seq<Runs.Input>,
                         blank: Codec.Message, now: u32)
    requires Desktop.ValidConfig(configured) && Desktop.Runnable(a) && a in configured && Desktop.Fits(a, o)
    requires var c := Runs.Run(Runs.Start(last), inputs);
             && c.session.ready && a.kind.value in c.session.types && Awaits(c.execution, a)
             && Elapsed(now, c.execution.started) < Control.EXECUTION_TIMEOUT_MS
             && blank.request == Some(c.execution.request) && blank.execId == c.execution.id && blank.code == Desktop.Finished(a, o).code
    ensures Desktop.Finished(a, o).Executed? && Codec.DecodedExecution(Desktop.Finished(a, o).data, blank).Some?
    ensures var c, m := Runs.Run(Runs.Start(last), inputs), Codec.DecodedExecution(Desktop.Finished(a, o).data, blank).value;
            Laws.Over(c, Runs.Step(c, Runs.Arrive(true, m, now)), Expected(o), Control.Answer(m, Elapsed(now, c.execution.started)), now)
  {
    var c, r := Runs.Run(Runs.Start(last), inputs), Desktop.Finished(a, o);
    SentRecord(configured, a, o);
    var m := RecordAnswers(r.code, r.data, a, blank, c.execution, c.session.types);
    Laws.AnswerDecides(last, inputs, m, now);
    assert Laws.Verdict(m) == Expected(o);
  }
}
