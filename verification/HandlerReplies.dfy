/** What the desktop's modules reply. All of it leaves room for the identities, except what Codex reports of its usage. */
module HandlerReplies {
  import opened Common
  import opened JsonText
  import opened ResponseLine
  import Records = ActionRecords
  import Contract = ActionContract
  import Desktop = ActionsModule
  import Service = DirectoryService
  import Utf8

  predicate Named(r: Response) { |r.actionId| <= MAX_IDENTITY && |r.execId| <= MAX_IDENTITY }

  /** Room for both identities at their longest, and for quoting a code and a message of these lengths. */
  lemma Room(r: Response, data: nat)
    requires Named(r) && |r.code| <= 20 && |Utf8.EncodeAll(r.data)| <= data && 6 * |r.msg| + data <= 2354
    requires Desktop.Encodable(r.code) && Desktop.Encodable(r.msg) && Desktop.Encodable(r.data)
    ensures Benign(r)
  {
    QuotedLength(r.code);
    QuotedLength(r.msg);
  }

  // ---------------------------------------------------------------- without data

  /** An error or busy reply; the longest fixed text has 38 characters. */
  predicate IsPlainReply(r: Response) {
    r.data == Records.Ascii("null") && |r.code| <= 20 && Desktop.Encodable(r.code) && |r.msg| <= 64 && Desktop.Encodable(r.msg)
  }

  lemma PlainReplyBenign(r: Response)
    requires Named(r) && IsPlainReply(r)
    ensures Benign(r)
  {
    PlainLength(r.data);
    Room(r, 4);
  }

  // ---------------------------------------------------------------- the time

  function TimeText(epochMs: nat, offset: int): seq<byte> {
    Object([Member("epochMilliseconds", Decimal(epochMs)), Member("utcOffsetMinutes", Desktop.Value(Records.Int(offset)))])
  }

  predicate TimeSample(epochMs: nat, offset: int) { epochMs < 0x8000_0000_0000_0000 && -720 <= offset <= 840 }

  predicate IsTimeReply(r: Response, epochMs: nat, offset: int) {
    && TimeSample(epochMs, offset) && r.code == Records.Ascii("OK") && r.msg == Records.Ascii("time loaded")
    && Desktop.Encodable(r.data) && Utf8.EncodeAll(r.data) == TimeText(epochMs, offset)
  }

  lemma SmallNumber(n: int, k: nat)
    requires 0 < k && -n < Pow10(k) && n < Pow10(k)
    ensures |Desktop.Value(Records.Int(n))| <= k + 1
  {
    DecimalLength(if n >= 0 then n else -n, k);
  }

  lemma {:induction false} JoinedAtMost(parts: seq<seq<byte>>, each: nat)
    requires forall i :: 0 <= i < |parts| ==> |parts[i]| <= each
    ensures |Joined(parts)| <= (each + 1) * |parts|
  {
    if |parts| > 1 {
      JoinedAtMost(parts[1..], each);
      assert (each + 1) * |parts| == (each + 1) * |parts[1..]| + each + 1;
    }
  }

  lemma TimeTextLength(epochMs: nat, offset: int)
    requires TimeSample(epochMs, offset)
    ensures |TimeText(epochMs, offset)| <= 100
  {
    CountLength(epochMs);
    assert Pow10(4) == 10 * Pow10(3) && Pow10(3) == 10 * Pow10(2) && Pow10(2) == 100;
    SmallNumber(offset, 4);
    var parts := [Member("epochMilliseconds", Decimal(epochMs)), Member("utcOffsetMinutes", Desktop.Value(Records.Int(offset)))];
    assert |parts[0]| <= 40 && |parts[1]| <= 40;
    JoinedAtMost(parts, 40);
  }

  lemma TimeReplyBenign(r: Response, epochMs: nat, offset: int)
    requires Named(r) && IsTimeReply(r, epochMs, offset)
    ensures Benign(r)
  {
    TimeTextLength(epochMs, offset);
    assert |r.code| == 2 && |r.msg| == 11;
    Room(r, 100);
  }

  // ---------------------------------------------------------------- executions

  function CodeName(code: Records.Code): Text
    requires !code.OtherCode?
  {
    match code
    case OK => Records.Ascii("OK")
    case ERROR => Records.Ascii("ERROR")
    case BUSY => Records.Ascii("BUSY")
    case TIMEOUT => Records.Ascii("TIMEOUT")
  }

  function ExecutionMembers(data: Records.ExecutionData): seq<seq<byte>>
    requires data.Execution?
  {
    [Member("type", Desktop.Value(data.kind)), Member("actionId", Desktop.Value(data.actionId)), Member("name", Desktop.Value(data.name)),
     Member("exitCode", Desktop.Value(data.exitCode)), Member("clipboardWritten", Desktop.Value(data.written)),
     Member("pasteSent", Desktop.Value(data.sent)), Member("reason", Desktop.Value(data.reason))]
  }

  /** A record that validates, under one of the fixed texts, which have at most sixteen characters. */
  ghost predicate IsExecutionReply(r: Response, code: Records.Code, data: Records.ExecutionData) {
    && data.Execution? && Contract.ValidExecution(code, data)
    && r.code == CodeName(code) && |r.msg| <= 16 && Desktop.Encodable(r.msg)
    && Desktop.Encodable(r.data) && Utf8.EncodeAll(r.data) == Object(ExecutionMembers(data))
  }

  predicate AtMost(f: Records.Field, bound: nat) { |Desktop.Value(f)| <= bound }

  lemma IdentityAtMost(data: Records.ExecutionData)
    requires Contract.ValidIdentity(data)
    ensures AtMost(data.kind, 20) && AtMost(data.actionId, 130) && AtMost(data.name, 130)
  {
    var t := if Contract.Names(data.kind, Records.Script) then Records.Script else Records.Clipboard;
    Service.TypeShort(t);
    Service.IdShort(data.actionId, t);
    Service.NameShort(data.name);
  }

  lemma ReasonAtMost(code: Records.Code, reason: Records.Field)
    requires Contract.ValidReason(code, reason)
    ensures AtMost(reason, 104)
  {
    if reason.Str? {
      assert |reason.s| <= 17;
      QuotedLength(reason.s);
    }
  }

  lemma OutcomeAtMost(code: Records.Code, data: Records.ExecutionData)
    requires data.Execution? && Contract.ValidExecution(code, data)
    ensures AtMost(data.exitCode, 11) && AtMost(data.written, 5) && AtMost(data.sent, 5)
  {
    assert Pow10(5) == 100000;
    assert Pow10(10) == 100000 * Pow10(5);
    if data.exitCode.Int? { SmallNumber(data.exitCode.n, 10); }
  }

  lemma ExecutionTextLength(code: Records.Code, data: Records.ExecutionData)
    requires data.Execution? && Contract.ValidExecution(code, data)
    ensures |Object(ExecutionMembers(data))| <= 1004
  {
    IdentityAtMost(data);
    ReasonAtMost(code, data.reason);
    OutcomeAtMost(code, data);
    MembersAtMost(data);
    JoinedAtMost(ExecutionMembers(data), 142);
  }

  lemma MembersAtMost(data: Records.ExecutionData)
    requires data.Execution? && AtMost(data.kind, 20) && AtMost(data.actionId, 130) && AtMost(data.name, 130)
    requires AtMost(data.exitCode, 11) && AtMost(data.written, 5) && AtMost(data.sent, 5) && AtMost(data.reason, 104)
    ensures forall i :: 0 <= i < |ExecutionMembers(data)| ==> |ExecutionMembers(data)[i]| <= 142
  {}

  lemma ExecutionReplyBenign(r: Response, code: Records.Code, data: Records.ExecutionData)
    requires Named(r) && IsExecutionReply(r, code, data)
    ensures Benign(r)
  {
    ExecutionTextLength(code, data);
    assert |r.code| <= 7;
    Room(r, 1004);
  }

  // ---------------------------------------------------------------- every module but Codex

  ghost predicate OfPage(r: Response, page: Records.PageData, t: Records.ActionType) {
    && Service.Served(page, t) && IsPageReply(r, r.execId, r.data)
    && Desktop.Encodable(r.data) && Utf8.EncodeAll(r.data) == Desktop.DataText(page)
  }

  /** A reply the time or the actions module builds, or an error of any module. */
  ghost predicate OfModule(r: Response) {
    || IsPlainReply(r)
    || (exists epochMs: nat, offset: int :: IsTimeReply(r, epochMs, offset))
    || (exists page, t :: OfPage(r, page, t))
    || (exists code, data :: IsExecutionReply(r, code, data))
  }

  lemma OfModuleBenign(r: Response)
    requires Named(r) && OfModule(r)
    ensures Benign(r)
  {
    if IsPlainReply(r) {
      PlainReplyBenign(r);
    } else if epochMs: nat, offset: int :| IsTimeReply(r, epochMs, offset) {
      TimeReplyBenign(r, epochMs, offset);
    } else if page, t :| OfPage(r, page, t) {
      PageReplyBenign(r, page, t, r.execId, r.data);
    } else {
      var code, data :| IsExecutionReply(r, code, data);
      ExecutionReplyBenign(r, code, data);
    }
  }
}
