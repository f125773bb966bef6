/** The desktop's response line: which responses the encoder accepts, and what the router answers of its own accord. */
module ResponseLine {
  import opened Common
  import opened JsonText
  import Records = ActionRecords
  import Desktop = ActionsModule
  import Service = DirectoryService
  import Agreement = CodecAgreement
  import Utf8

  type Text = Records.Text

  datatype Request = Request(actionId: Text, execId: Text)

  /** `data` is the JSON text of the result's data; control characters in it are escaped, lone surrogates are not. */
  datatype Response = Response(actionId: Text, execId: Text, code: Text, msg: Text, data: Text)

  const MAX_IDENTITY: nat := 128

  /** The decoder asks no more of an identity; a lone surrogate, which JSON can spell as an escape, passes. */
  predicate Identity(s: Text) {
    |s| <= MAX_IDENTITY && exists i :: 0 <= i < |s| && !Utf8.PythonSpace(s[i])
  }

  predicate Acceptable(request: Request) { Identity(request.actionId) && Identity(request.execId) }

  function ResultText(r: Response): seq<byte> {
    Object([Member("code", Desktop.Quoted(r.code)), Member("msg", Desktop.Quoted(r.msg)), Member("data", Utf8.EncodeAll(r.data))])
  }

  function LineText(r: Response): seq<byte> {
    Object([Member("event", Word("response")), Member("actionId", Desktop.Quoted(r.actionId)),
            Member("execId", Desktop.Quoted(r.execId)), Member("result", ResultText(r))])
  }

  predicate Expressible(r: Response) {
    && Desktop.Encodable(r.actionId) && Desktop.Encodable(r.execId)
    && Desktop.Encodable(r.code) && Desktop.Encodable(r.msg) && Desktop.Encodable(r.data)
  }

  /** UTF-8 fails on a lone surrogate, and the line has a limit; either way the encoder raises. */
  function Encode(r: Response): Desktop.Encoding {
    if !Expressible(r) then Desktop.Unencodable
    else if |LineText(r)| > Desktop.MAX_JSON_BYTES then Desktop.TooLong
    else Desktop.Encoded(LineText(r))
  }

  /** What is handed to the transport; nothing if the encoder raises. */
  function Line(r: Response): (line: seq<byte>)
    ensures line != [] <==> Encode(r).Encoded?
  {
    match Encode(r)
    case Encoded(line) => line + [LF]
    case _ => []
  }

  // ---------------------------------------------------------------- sizes

  lemma Joined2(a: seq<byte>, b: seq<byte>)
    ensures Joined([a, b]) == a + [COMMA] + b
  {
    assert [a, b][1..] == [b];
  }

  lemma Joined3(a: seq<byte>, b: seq<byte>, c: seq<byte>)
    ensures Joined([a, b, c]) == a + [COMMA] + (b + [COMMA] + c)
  {
    assert [a, b, c][1..] == [b, c];
    Joined2(b, c);
  }

  lemma Joined4(a: seq<byte>, b: seq<byte>, c: seq<byte>, d: seq<byte>)
    ensures Joined([a, b, c, d]) == a + [COMMA] + (b + [COMMA] + (c + [COMMA] + d))
  {
    assert [a, b, c, d][1..] == [b, c, d];
    Joined3(b, c, d);
  }

  lemma ResultLength(r: Response)
    ensures |ResultText(r)| == 24 + |Desktop.Quoted(r.code)| + |Desktop.Quoted(r.msg)| + |Utf8.EncodeAll(r.data)|
  {
    Joined3(Member("code", Desktop.Quoted(r.code)), Member("msg", Desktop.Quoted(r.msg)), Member("data", Utf8.EncodeAll(r.data)));
  }

  lemma ResponseObjectLength(event: seq<byte>, action: seq<byte>, exec: seq<byte>, result: seq<byte>)
    ensures |Object([Member("event", event), Member("actionId", action), Member("execId", exec), Member("result", result)])|
            == 42 + |event| + |action| + |exec| + |result|
  {
    Joined4(Member("event", event), Member("actionId", action), Member("execId", exec), Member("result", result));
  }

  /** The fixed part takes 76 bytes. */
  lemma LineLength(r: Response)
    ensures |LineText(r)| == 76 + |Desktop.Quoted(r.actionId)| + |Desktop.Quoted(r.execId)| + |Desktop.Quoted(r.code)|
                             + |Desktop.Quoted(r.msg)| + |Utf8.EncodeAll(r.data)|
  {
    var event := Word("response");
    assert |event| == 10;
    ResponseObjectLength(event, Desktop.Quoted(r.actionId), Desktop.Quoted(r.execId), ResultText(r));
    ResultLength(r);
  }

  lemma QuotedLength(s: Text)
    ensures |Desktop.Quoted(s)| <= 6 * |s| + 2
  {
    EscapedCharacters(s);
  }

  /** Room is left for the identities in their longest escaped form, and nothing besides them can hold a lone surrogate. */
  predicate Benign(r: Response) {
    && 80 + 6 * |r.actionId| + 6 * |r.execId| + |Desktop.Quoted(r.code)| + |Desktop.Quoted(r.msg)| + |Utf8.EncodeAll(r.data)|
       <= Desktop.MAX_JSON_BYTES
    && Desktop.Encodable(r.code) && Desktop.Encodable(r.data) && (Desktop.Encodable(r.actionId) ==> Desktop.Encodable(r.msg))
  }

  /** Such a response is encoded exactly when its identities hold no lone surrogate. */
  lemma IdentitiesDecide(r: Response)
    requires Benign(r)
    ensures Encode(r).Encoded? <==> Desktop.Encodable(r.actionId) && Desktop.Encodable(r.execId)
    ensures !Encode(r).TooLong?
  {
    QuotedLength(r.actionId);
    QuotedLength(r.execId);
    LineLength(r);
    Within(r, |LineText(r)|);
  }

  lemma Within(r: Response, length: nat)
    requires length == |LineText(r)| <= Desktop.MAX_JSON_BYTES
    ensures Encode(r) == if Expressible(r) then Desktop.Encoded(LineText(r)) else Desktop.Unencodable
  {}

  // ---------------------------------------------------------------- the router's own answers

  datatype Refusal = AlreadyActive | UnknownAction | HandlerFailed | Mismatched

  function RefusalMessage(request: Request, why: Refusal): Text {
    match why
    case AlreadyActive => Records.Ascii("request already active")
    case UnknownAction => Records.Ascii("unknown action: ") + request.actionId
    case HandlerFailed => Records.Ascii("action handler failed")
    case Mismatched => Records.Ascii("handler returned mismatched response")
  }

  function Refused(request: Request, why: Refusal): Response {
    Response(request.actionId, request.execId, if why.AlreadyActive? then Records.Ascii("BUSY") else Records.Ascii("ERROR"),
             RefusalMessage(request, why), Records.Ascii("null"))
  }

  lemma PlainLength(t: Text)
    requires forall i :: 0 <= i < |t| ==> t[i] < 0x80
    ensures |Utf8.EncodeAll(t)| == |t|
  {
    Agreement.AsciiIsItself(t);
  }

  lemma JoinEncodable(a: Text, b: Text)
    requires Desktop.Encodable(a)
    ensures Desktop.Encodable(a + b) <==> Desktop.Encodable(b)
  {
    assert forall i :: 0 <= i < |b| ==> (a + b)[|a| + i] == b[i];
  }

  lemma RefusalMessageEncodable(request: Request, why: Refusal)
    requires Desktop.Encodable(request.actionId)
    ensures Desktop.Encodable(RefusalMessage(request, why))
  {
    if why.UnknownAction? { JoinEncodable(Records.Ascii("unknown action: "), request.actionId); }
  }

  lemma RefusalMessageLength(request: Request, why: Refusal)
    requires |request.actionId| <= MAX_IDENTITY
    ensures |RefusalMessage(request, why)| <= 144
  {}

  /** The router's own answers always leave room for their identities, which decide alone whether they can be sent. */
  lemma RefusedBenign(request: Request, why: Refusal)
    requires |request.actionId| <= MAX_IDENTITY && |request.execId| <= MAX_IDENTITY
    ensures Benign(Refused(request, why))
  {
    var r := Refused(request, why);
    assert |r.code| <= 5 && |r.data| == 4;
    RefusalMessageLength(request, why);
    QuotedLength(r.msg);
    QuotedLength(r.code);
    PlainLength(r.data);
    if Desktop.Encodable(request.actionId) { RefusalMessageEncodable(request, why); }
  }

  // ---------------------------------------------------------------- directory pages

  lemma {:induction false} PlainEscaped(t: seq<byte>)
    requires forall i :: 0 <= i < |t| ==> ' ' as int <= t[i] && t[i] != QUOTE && t[i] != BACKSLASH
    ensures Escaped(t) == t
  {
    if t != [] {
      PlainEscaped(t[1..]);
      assert t == [t[0]] + t[1..];
    }
  }

  lemma WordQuoted(s: string, t: Text)
    requires t == Records.Ascii(s) && forall i :: 0 <= i < |s| ==> ' ' <= s[i] <= '~' && s[i] != '"' && s[i] != '\\'
    ensures Desktop.Quoted(t) == Word(s)
  {
    Agreement.AsciiIsItself(t);
    assert t == Literal(s);
    PlainEscaped(Literal(s));
  }

  function PageReply(execId: Text, data: Text): Response {
    Response(Records.Ascii("actions.list"), execId, Records.Ascii("OK"), Desktop.PAGE_MESSAGE, data)
  }

  predicate IsPageReply(r: Response, execId: Text, data: Text) {
    && r.actionId == Records.Ascii("actions.list") && r.execId == execId && r.code == Records.Ascii("OK")
    && r.msg == Desktop.PAGE_MESSAGE && r.data == data
  }

  lemma PageLine(r: Response, text: seq<byte>)
    requires Desktop.Quoted(r.actionId) == Word("actions.list") && Desktop.Quoted(r.code) == Word("OK")
    requires r.msg == Desktop.PAGE_MESSAGE && Utf8.EncodeAll(r.data) == text
    ensures LineText(r) == Desktop.ResponseText(r.execId, text)
  {
    assert ResultText(r) == Desktop.ResultText(text);
  }

  lemma PageWords(r: Response, execId: Text, data: Text)
    requires IsPageReply(r, execId, data)
    ensures Desktop.Quoted(r.actionId) == Word("actions.list") && Desktop.Quoted(r.code) == Word("OK")
    ensures |r.actionId| == 12 && |Desktop.Quoted(r.code)| <= 14 && |Desktop.Quoted(r.msg)| <= 26
    ensures Desktop.Encodable(r.actionId) && Desktop.Encodable(r.code) && Desktop.Encodable(r.msg)
  {
    WordQuoted("actions.list", r.actionId);
    WordQuoted("OK", r.code);
    QuotedLength(r.code);
    QuotedLength(r.msg);
  }

  lemma PageRoom(r: Response, page: Records.PageData, t: Records.ActionType)
    requires Service.Served(page, t) && |r.execId| <= MAX_IDENTITY && Utf8.EncodeAll(r.data) == Desktop.DataText(page)
    requires |r.actionId| == 12 && |Desktop.Quoted(r.code)| <= 14 && |Desktop.Quoted(r.msg)| <= 26
    requires Desktop.Encodable(r.code) && Desktop.Encodable(r.msg) && Desktop.Encodable(r.data)
    ensures Benign(r)
  {
    Service.DataShort(page, t);
  }

  /** A served page leaves room too, and the check of its size beforehand measures the line that is sent. */
  lemma PageReplyBenign(r: Response, page: Records.PageData, t: Records.ActionType, execId: Text, data: Text)
    requires IsPageReply(r, execId, data) && Service.Served(page, t) && |execId| <= MAX_IDENTITY
    requires Desktop.Encodable(data) && Utf8.EncodeAll(data) == Desktop.DataText(page)
    ensures Benign(r)
    ensures Encode(r) == Desktop.EncodeMessage(execId, page)
  {
    PageWords(r, execId, data);
    PageRoom(r, page, t);
    var text := Desktop.DataText(page);
    PageLine(r, text);
    SameVerdict(r, page, t, Desktop.ResponseText(execId, text));
  }

  lemma SameVerdict(r: Response, page: Records.PageData, t: Records.ActionType, line: seq<byte>)
    requires Service.Served(page, t) && |r.execId| <= MAX_IDENTITY && (Expressible(r) <==> Desktop.Encodable(r.execId))
    requires line == Desktop.ResponseText(r.execId, Desktop.DataText(page)) && LineText(r) == line
    ensures Encode(r) == Desktop.EncodeMessage(r.execId, page)
  {
    Service.LineFits(page, t, r.execId);
    Service.NamesEncodable(page);
    Service.EncodingOf(page, r.execId, line);
    Within(r, |line|);
  }
}
