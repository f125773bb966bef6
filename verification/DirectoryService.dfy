/** A directory page from the desktop's configuration to the controller's display. */
module DirectoryService {
  import opened Common
  import opened ActionRecords
  import opened JsonText
  import Contract = ActionContract
  import Desktop = ActionsModule
  import Codec = MessageCodec
  import Agreement = CodecAgreement
  import Control = ActionsController
  import Executions = ExecutionRuns
  import Runs = DirectoryRuns
  import Framing
  import Utf8

  // ---------------------------------------------------------------- the size of a page

  predicate Short(f: Field, bound: nat) { |Desktop.Value(f)| <= bound && Unbroken(Desktop.Value(f)) }

  lemma QuotedText(s: Text, bound: nat)
    requires |Escaped(Utf8.EncodeAll(s))| <= bound
    ensures |Desktop.Quoted(s)| <= bound + 2 && Unbroken(Desktop.Quoted(s))
  {
    var body := Escaped(Utf8.EncodeAll(s));
    EscapedUnbroken(Utf8.EncodeAll(s));
    UnbrokenIsEvery([QUOTE]);
    JoinUnbroken([QUOTE], body);
    JoinUnbroken([QUOTE] + body, [QUOTE]);
  }

  /** No identity holds a control byte. */
  lemma IdShort(f: Field, t: ActionType)
    requires Contract.ValidActionId(f, t)
    ensures Short(f, 130)
  {
    Agreement.IdsAgree(f, t);
    UnbrokenIsEvery(Utf8.EncodeAll(f.s));
    EscapedDoubles(Utf8.EncodeAll(f.s));
    QuotedText(f.s, 128);
  }

  lemma {:induction false} PlainUnbroken(s: Text)
    requires forall i :: 0 <= i < |s| ==> s[i] >= 32
    ensures Unbroken(Utf8.EncodeAll(s))
  {
    if s != [] {
      PlainUnbroken(s[1..]);
      UnbrokenIsEvery(Utf8.Encode(s[0]));
      JoinUnbroken(Utf8.Encode(s[0]), Utf8.EncodeAll(s[1..]));
    }
  }

  lemma NameShort(f: Field)
    requires Contract.ValidName(f)
    ensures Short(f, 130)
  {
    PlainUnbroken(f.s);
    EscapedDoubles(Utf8.EncodeAll(f.s));
    QuotedText(f.s, 128);
  }

  lemma NullShort()
    ensures Short(Null, 4)
  {
    UnbrokenIsEvery(Literal("null"));
  }

  lemma AsciiShort(s: Text)
    requires forall i :: 0 <= i < |s| ==> 32 <= s[i] < 0x80
    ensures |Desktop.Quoted(s)| <= 2 * |s| + 2 && Unbroken(Desktop.Quoted(s))
  {
    Agreement.AsciiIsItself(s);
    PlainUnbroken(s);
    EscapedDoubles(Utf8.EncodeAll(s));
    QuotedText(s, 2 * |s|);
  }

  lemma KeyShort(f: Field)
    requires Contract.ValidKey(f)
    ensures Short(f, 4)
  {
    if f == Null { NullShort(); } else { AsciiShort(f.s); }
  }

  lemma TypeShort(t: ActionType)
    ensures Short(Str(TypeName(t)), 20)
  {
    AsciiShort(TypeName(t));
  }

  lemma CountShort(n: u64)
    ensures Short(Int(n), 20)
  {
    CountLength(n);
    DecimalDigits(n);
    UnbrokenIsEvery(Decimal(n));
  }

  lemma FieldShort(key: string, f: Field, bound: nat)
    requires Short(f, bound) && forall i :: 0 <= i < |key| ==> ' ' <= key[i] <= '~'
    ensures |Member(key, Desktop.Value(f))| <= |key| + 3 + bound && Unbroken(Member(key, Desktop.Value(f)))
  {
    MemberUnbroken(key, Desktop.Value(f));
  }

  lemma NamingMembersShort(item: Item)
    requires item.Item? && Short(item.kind, 20) && Short(item.actionId, 130) && Short(item.name, 130)
    ensures |Member("type", Desktop.Value(item.kind))| <= 27 && Unbroken(Member("type", Desktop.Value(item.kind)))
    ensures |Member("actionId", Desktop.Value(item.actionId))| <= 141 && Unbroken(Member("actionId", Desktop.Value(item.actionId)))
    ensures |Member("name", Desktop.Value(item.name))| <= 137 && Unbroken(Member("name", Desktop.Value(item.name)))
  {
    FieldShort("type", item.kind, 20);
    FieldShort("actionId", item.actionId, 130);
    FieldShort("name", item.name, 130);
  }

  lemma KeyMembersShort(item: Item)
    requires item.Item? && Short(item.key, 4) && Short(item.effectiveKey, 4)
    ensures |Member("key", Desktop.Value(item.key))| <= 10 && Unbroken(Member("key", Desktop.Value(item.key)))
    ensures |Member("effectiveKey", Desktop.Value(item.effectiveKey))| <= 19 && Unbroken(Member("effectiveKey", Desktop.Value(item.effectiveKey)))
  {
    FieldShort("key", item.key, 4);
    FieldShort("effectiveKey", item.effectiveKey, 4);
  }

  lemma FiveMembers(a: seq<byte>, b: seq<byte>, c: seq<byte>, d: seq<byte>, e: seq<byte>)
    requires Unbroken(a) && Unbroken(b) && Unbroken(c) && Unbroken(d) && Unbroken(e)
    ensures Unbroken(Object([a, b, c, d, e])) && |Object([a, b, c, d, e])| <= |a| + |b| + |c| + |d| + |e| + 7
  {
    Parts5(a, b, c, d, e);
    ObjectUnbroken([a, b, c, d, e]);
  }

  lemma ItemShort(item: Item, t: ActionType)
    requires Contract.ValidItem(item, Str(TypeName(t)))
    ensures |Desktop.ItemText(item)| <= 350 && Unbroken(Desktop.ItemText(item))
  {
    ItemValuesShort(item, t);
    NamingMembersShort(item);
    KeyMembersShort(item);
    FiveMembers(Member("type", Desktop.Value(item.kind)), Member("actionId", Desktop.Value(item.actionId)),
                Member("name", Desktop.Value(item.name)), Member("key", Desktop.Value(item.key)),
                Member("effectiveKey", Desktop.Value(item.effectiveKey)));
  }

  lemma ItemValuesShort(item: Item, t: ActionType)
    requires Contract.ValidItem(item, Str(TypeName(t)))
    ensures Short(item.kind, 20) && Short(item.actionId, 130) && Short(item.name, 130) && Short(item.key, 4) && Short(item.effectiveKey, 4)
  {
    Contract.TypeNamesDiffer();
    TypeShort(t);
    IdShort(item.actionId, t);
    NameShort(item.name);
    KeyShort(item.key);
    KeyShort(item.effectiveKey);
  }

  lemma {:induction false} ItemTextsShort(items: seq<Item>, t: ActionType)
    requires forall i :: 0 <= i < |items| ==> items[i].Item? && Contract.ValidItem(items[i], Str(TypeName(t)))
    ensures Sum(Desktop.ItemTexts(items)) <= 350 * |items| && AllUnbroken(Desktop.ItemTexts(items))
  {
    if items != [] {
      ItemShort(items[0], t);
      ItemTextsShort(items[1..], t);
      ItemTextsCons(items);
      PartsCons(Desktop.ItemText(items[0]), Desktop.ItemTexts(items[1..]));
    }
  }

  lemma ItemTextsCons(items: seq<Item>)
    requires items != [] && forall i :: 0 <= i < |items| ==> items[i].Item?
    ensures Desktop.ItemTexts(items) == [Desktop.ItemText(items[0])] + Desktop.ItemTexts(items[1..])
  {}

  ghost predicate Served(page: PageData, t: ActionType) { Contract.ValidPage(page) && page.kind == Str(TypeName(t)) }

  lemma DataShort(page: PageData, t: ActionType)
    requires Served(page, t)
    ensures |Desktop.DataText(page)| <= 2950 && Unbroken(Desktop.DataText(page))
  {
    DataValuesShort(page, t);
    DataMembersShort(page);
    ListShort(page, t);
    FiveMembers(Member("type", Desktop.Value(page.kind)), Member("offset", Desktop.Value(page.offset)),
                Member("total", Desktop.Value(page.total)), Member("nextOffset", Desktop.Value(page.nextOffset)),
                Member("actions", List(Desktop.ItemTexts(page.actions.value))));
  }

  lemma DataMembersShort(page: PageData)
    requires page.Page? && Short(page.kind, 20) && Short(page.offset, 20) && Short(page.total, 20) && Short(page.nextOffset, 20)
    ensures |Member("type", Desktop.Value(page.kind))| <= 27 && Unbroken(Member("type", Desktop.Value(page.kind)))
    ensures |Member("offset", Desktop.Value(page.offset))| <= 29 && Unbroken(Member("offset", Desktop.Value(page.offset)))
    ensures |Member("total", Desktop.Value(page.total))| <= 28 && Unbroken(Member("total", Desktop.Value(page.total)))
    ensures |Member("nextOffset", Desktop.Value(page.nextOffset))| <= 33 && Unbroken(Member("nextOffset", Desktop.Value(page.nextOffset)))
  {
    FieldShort("type", page.kind, 20);
    FieldShort("offset", page.offset, 20);
    FieldShort("total", page.total, 20);
    FieldShort("nextOffset", page.nextOffset, 20);
  }

  lemma DataValuesShort(page: PageData, t: ActionType)
    requires Served(page, t)
    ensures Short(page.kind, 20) && Short(page.offset, 20) && Short(page.total, 20) && Short(page.nextOffset, 20)
  {
    TypeShort(t);
    CountShort(page.offset.n);
    CountShort(page.total.n);
    if page.nextOffset.Int? { CountShort(page.nextOffset.n); } else { NullShort(); }
  }

  lemma ListShort(page: PageData, t: ActionType)
    requires Served(page, t)
    ensures var list := Member("actions", List(Desktop.ItemTexts(page.actions.value))); |list| <= 2820 && Unbroken(list)
  {
    ItemTextsShort(page.actions.value, t);
    assert |page.actions.value| <= PAGE_SIZE;
    ObjectUnbroken(Desktop.ItemTexts(page.actions.value));
    MemberUnbroken("actions", List(Desktop.ItemTexts(page.actions.value)));
  }

  lemma MessageShort()
    ensures |Desktop.Quoted(Desktop.PAGE_MESSAGE)| <= 26 && Unbroken(Desktop.Quoted(Desktop.PAGE_MESSAGE))
  {
    var s := Desktop.PAGE_MESSAGE;
    EscapedCharacters(s);
    QuotedText(s, 24);
  }

  lemma OkShort(ok: seq<byte>)
    requires ok == Word("OK")
    ensures |ok| <= 6 && Unbroken(ok)
  {
    WordUnbroken("OK", ok);
  }

  lemma ResultMembersShort(ok: seq<byte>, msg: seq<byte>)
    requires |ok| <= 6 && Unbroken(ok) && |msg| <= 26 && Unbroken(msg)
    ensures |Member("code", ok)| <= 13 && Unbroken(Member("code", ok)) && |Member("msg", msg)| <= 32 && Unbroken(Member("msg", msg))
  {
    MemberUnbroken("code", ok);
    MemberUnbroken("msg", msg);
  }

  lemma ThreeMembers(a: seq<byte>, b: seq<byte>, c: seq<byte>)
    requires Unbroken(a) && Unbroken(b) && Unbroken(c)
    ensures Unbroken(Object([a, b, c])) && |Object([a, b, c])| <= |a| + |b| + |c| + 5
  {
    Parts3(a, b, c);
    ObjectUnbroken([a, b, c]);
  }

  lemma FourMembers(a: seq<byte>, b: seq<byte>, c: seq<byte>, d: seq<byte>)
    requires Unbroken(a) && Unbroken(b) && Unbroken(c) && Unbroken(d)
    ensures Unbroken(Object([a, b, c, d])) && |Object([a, b, c, d])| <= |a| + |b| + |c| + |d| + 6
  {
    Parts4(a, b, c, d);
    ObjectUnbroken([a, b, c, d]);
  }

  lemma ResultShort(data: seq<byte>)
    requires Unbroken(data)
    ensures |Desktop.ResultText(data)| <= |data| + 60 && Unbroken(Desktop.ResultText(data))
  {
    var ok, msg := Word("OK"), Desktop.Quoted(Desktop.PAGE_MESSAGE);
    OkShort(ok);
    MessageShort();
    ResultMembersShort(ok, msg);
    MemberUnbroken("data", data);
    ThreeMembers(Member("code", ok), Member("msg", msg), Member("data", data));
  }

  lemma ResponseTextShort(event: seq<byte>)
    requires event == Word("response")
    ensures |event| <= 18 && Unbroken(event)
  {
    WordUnbroken("response", event);
  }

  lemma EventMember(value: seq<byte>)
    requires |value| <= 18 && Unbroken(value)
    ensures |Member("event", value)| <= 26 && Unbroken(Member("event", value))
  {
    MemberUnbroken("event", value);
  }

  lemma ListActionShort(action: seq<byte>)
    requires action == Word("actions.list")
    ensures |action| <= 26 && Unbroken(action)
  {
    WordUnbroken("actions.list", action);
  }

  lemma ActionMember(value: seq<byte>)
    requires |value| <= 26 && Unbroken(value)
    ensures |Member("actionId", value)| <= 37 && Unbroken(Member("actionId", value))
  {
    MemberUnbroken("actionId", value);
  }

  lemma ExecIdShort(execId: Text)
    requires |execId| <= 128
    ensures |Member("execId", Desktop.Quoted(execId))| <= 779 && Unbroken(Member("execId", Desktop.Quoted(execId)))
  {
    EscapedCharacters(execId);
    QuotedText(execId, 768);
    MemberUnbroken("execId", Desktop.Quoted(execId));
  }

  lemma EnvelopeShort(event: seq<byte>, action: seq<byte>, execId: Text, result: seq<byte>)
    requires |event| <= 18 && Unbroken(event) && |action| <= 26 && Unbroken(action)
    requires |execId| <= 128 && Unbroken(result)
    ensures var t := Object([Member("event", event), Member("actionId", action), Member("execId", Desktop.Quoted(execId)), result]);
            |t| <= |result| + 848 && Unbroken(t)
  {
    EventMember(event);
    ActionMember(action);
    ExecIdShort(execId);
    FourMembers(Member("event", event), Member("actionId", action), Member("execId", Desktop.Quoted(execId)), result);
  }

  lemma ResponseShort(execId: Text, data: seq<byte>)
    requires |execId| <= 128 && Unbroken(data)
    ensures |Desktop.ResponseText(execId, data)| <= |data| + 920 && Unbroken(Desktop.ResponseText(execId, data))
  {
    ResultShort(data);
    MemberUnbroken("result", Desktop.ResultText(data));
    var event, action := Word("response"), Word("actions.list");
    ResponseTextShort(event);
    ListActionShort(action);
    EnvelopeShort(event, action, execId, Member("result", Desktop.ResultText(data)));
  }

  lemma LineFits(page: PageData, t: ActionType, execId: Text)
    requires Served(page, t) && |execId| <= 128
    ensures var line := Desktop.ResponseText(execId, Desktop.DataText(page));
            line != [] && |line| <= Desktop.MAX_JSON_BYTES && Unbroken(line)
  {
    DataShort(page, t);
    ResponseShort(execId, Desktop.DataText(page));
  }

  lemma NamesEncodable(page: PageData)
    requires Contract.ValidPage(page)
    ensures !exists i :: 0 <= i < |page.actions.value| && page.actions.value[i].name.Str? && !Desktop.Encodable(page.actions.value[i].name.s)
  {
    forall i | 0 <= i < |page.actions.value| ensures page.actions.value[i].name.Str? && Desktop.Encodable(page.actions.value[i].name.s) {
      assert Contract.ValidItem(page.actions.value[i], page.kind);
    }
  }

  /** A served page always fits: with an identity UTF-8 can express, the encoder neither refuses nor raises. */
  lemma PageFits(page: PageData, t: ActionType, execId: Text)
    requires Served(page, t) && |execId| <= 128
    ensures var encoding := Desktop.EncodeMessage(execId, page);
            if Desktop.Encodable(execId)
            then encoding.Encoded? && encoding.line != [] && |encoding.line| <= Desktop.MAX_JSON_BYTES && Unbroken(encoding.line)
            else encoding.Unencodable?
  {
    LineFits(page, t, execId);
    NamesEncodable(page);
    EncodingOf(page, execId, Desktop.ResponseText(execId, Desktop.DataText(page)));
  }

  lemma EncodingOf(page: PageData, execId: Text, line: seq<byte>)
    requires page.Page? && page.actions.Some? && forall i :: 0 <= i < |page.actions.value| ==> page.actions.value[i].Item?
    requires !exists i :: 0 <= i < |page.actions.value| && page.actions.value[i].name.Str? && !Desktop.Encodable(page.actions.value[i].name.s)
    requires line == Desktop.ResponseText(execId, Desktop.DataText(page)) && |line| <= Desktop.MAX_JSON_BYTES
    ensures Desktop.EncodeMessage(execId, page) == if Desktop.Encodable(execId) then Desktop.Encoded(line) else Desktop.Unencodable
  {}

  /**
   What every directory request gets, for every validated configuration: the size branch is never taken. The page is missing
   exactly when the request is malformed, its type is unavailable, its offset lies outside the list, or its identity holds a
   lone surrogate, in which case the encoder raises.
   */
  lemma DirectoryAnswer(configured: seq<Desktop.Action>, items: seq<Item>, supported: set<ActionType>, execId: Text, payload: map<string, Field>)
    requires Desktop.ValidConfig(configured) && Desktop.ItemsOf(items, Desktop.Offered(configured)) && |execId| <= 128
    ensures Desktop.Directory(items, supported, execId, payload) ==
            if !Contract.ValidRequest(Request.ListActions, payload) then Some(Desktop.Plain(ERROR))
            else
              var t, offset := Desktop.Requested(payload["type"]), payload["offset"].n;
              var list := Desktop.OfType(items, t);
              if t !in supported || !InRange(offset, |list|) then Some(Desktop.Plain(ERROR))
              else if !Desktop.Encodable(execId) then None
              else Some(Desktop.Listed(Desktop.ServedPage(list, t, offset)))
  {
    if Contract.ValidRequest(Request.ListActions, payload) {
      var t, offset := Desktop.Requested(payload["type"]), payload["offset"].n;
      var list := Desktop.OfType(items, t);
      if InRange(offset, |list|) {
        Desktop.ServedPageValid(configured, items, t, offset);
        PageFits(Desktop.ServedPage(list, t, offset), t, execId);
      }
    }
  }

  /** The page of the configuration's own actions of the type, eight from the offset on, if they are on offer and it can be encoded. */
  ghost predicate PageOfAll(r: Option<Desktop.Result>, at: seq<nat>, configured: seq<Desktop.Action>, t: ActionType,
                            supported: set<ActionType>, execId: Text, offset: nat) {
    if t !in supported || (if at == [] then offset != 0 else offset >= |at|) then r == Some(Desktop.Plain(ERROR))
    else if !Desktop.Encodable(execId) then r == None
    else r.Some? && r.value.Listed? && PageShows(r.value.page, at, configured, t, offset)
  }

  ghost predicate PageShows(page: PageData, at: seq<nat>, configured: seq<Desktop.Action>, t: ActionType, offset: nat) {
    && offset <= |at| && page.Page? && page.kind == Str(TypeName(t)) && page.offset == Int(offset) && page.total == Int(|at|)
    && page.nextOffset == (if offset + PAGE_SIZE < |at| then Int(offset + PAGE_SIZE) else Null)
    && page.actions.Some? && |page.actions.value| == Min(PAGE_SIZE, |at| - offset)
    && forall k :: 0 <= k < |page.actions.value| ==> Desktop.Shows(page.actions.value[k], configured, at[offset + k], t)
  }

  lemma PageOfList(at: seq<nat>, list: seq<Item>, configured: seq<Desktop.Action>, t: ActionType, offset: nat)
    requires Desktop.ListsAll(at, list, configured, t) && InRange(offset, |list|)
    ensures PageShows(Desktop.ServedPage(list, t, offset), at, configured, t, offset)
  {
    var page := Desktop.ServedPage(list, t, offset);
    assert forall k :: 0 <= k < |page.actions.value| ==> page.actions.value[k] == list[offset + k];
  }

  /**
   What a well-formed directory request gets, in terms of the configuration alone: `at` is where it has the enabled actions of the
   type asked for, all of them in order, and the page shows those from the offset on.
   */
  lemma DirectoryServesAll(configured: seq<Desktop.Action>, items: seq<Item>, supported: set<ActionType>, execId: Text,
                           payload: map<string, Field>, t: ActionType) returns (at: seq<nat>)
    requires Desktop.ValidConfig(configured) && Desktop.ItemsOf(items, Desktop.Offered(configured)) && |execId| <= 128
    requires Contract.ValidRequest(Request.ListActions, payload) && payload["type"] == Str(TypeName(t))
    ensures (forall j, k :: 0 <= j < k < |at| ==> at[j] < at[k])
            && forall i: nat :: i in at <==> i < |configured| && Desktop.Lists(configured[i], t)
    ensures PageOfAll(Desktop.Directory(items, supported, execId, payload), at, configured, t, supported, execId, payload["offset"].n)
  {
    at := Desktop.CatalogListsAll(configured, items, t);
    Contract.TypeNamesDiffer();
    assert Desktop.Requested(payload["type"]) == t;
    DirectoryAnswer(configured, items, supported, execId, payload);
    var list, offset := Desktop.OfType(items, t), payload["offset"].n;
    if InRange(offset, |list|) { PageOfList(at, list, configured, t, offset); }
  }

  lemma NoLineEnd(line: seq<byte>)
    requires Unbroken(line)
    ensures forall k :: 0 <= k < |line| ==> !Framing.IS_LF(line[k])
  {
    UnbrokenIsEvery(line);
  }

  lemma SplitOneLine(line: seq<byte>)
    requires Unbroken(line)
    ensures Framing.Split(line + [LF], Framing.IS_LF) == Framing.Cut([line], [])
  {
    NoLineEnd(line);
    Framing.SplitPlain(line, Framing.IS_LF);
    assert (line + [LF])[..|line + [LF]| - 1] == line;
  }

  lemma OneLineKept(line: seq<byte>)
    requires line != []
    ensures Framing.NonEmpty([line]) == [line]
  {
    assert [line][1..] == [];
  }

  lemma IdealLine(line: seq<byte>)
    requires line != [] && Unbroken(line)
    ensures Framing.Split(line + [LF], Framing.IS_LF) == Framing.Cut([line], [])
    ensures Framing.Ideal(line + [LF]) == Framing.Received(true, [line], [])
  {
    SplitOneLine(line);
    OneLineKept(line);
  }

  /** And it crosses the link as one line, however the link cuts it up. */
  lemma PageReachesFirmware(line: seq<byte>, chunks: seq<seq<byte>>)
    requires line != [] && |line| <= Desktop.MAX_JSON_BYTES && Unbroken(line) && Framing.Flat(chunks) == line + [LF]
    ensures Framing.FirmwareReceives(chunks, Desktop.MAX_JSON_BYTES) == Framing.Received(true, [line], [])
  {
    IdealLine(line);
    Framing.FirmwareReassembles(chunks, Desktop.MAX_JSON_BYTES);
  }

  // ---------------------------------------------------------------- the page on the firmware's side

  ghost predicate Decodable(list: seq<Item>, t: ActionType) {
    forall i :: 0 <= i < |list| ==> Codec.DecodedItem(list[i], t).Some?
  }

  /** The list as the firmware knows it. */
  ghost function EntriesOf(list: seq<Item>, t: ActionType): (r: seq<Codec.Entry>)
    requires Decodable(list, t)
    ensures |r| == |list|
  {
    seq(|list|, i requires 0 <= i < |list| => Codec.DecodedItem(list[i], t).value)
  }

  lemma ListDecodes(configured: seq<Desktop.Action>, items: seq<Item>, t: ActionType)
    requires Desktop.ValidConfig(configured) && Desktop.ItemsOf(items, Desktop.Offered(configured))
    ensures Decodable(Desktop.OfType(items, t), t)
  {
    Desktop.ItemsAreGood(configured, items);
    Desktop.OfTypeGood(items, t);
    var list := Desktop.OfType(items, t);
    forall i | 0 <= i < |list| ensures Codec.DecodedItem(list[i], t).Some? {
      Agreement.ItemsAgree(list[i], t);
    }
  }

  /** The page of the firmware's own list at this offset, as the controller asking for it takes it. */
  ghost predicate Awaitable(m: Codec.Message, t: ActionType, offset: nat, cat: seq<Codec.Entry>) {
    && Runs.IsPage(m, cat) && m.hasActionType && m.actionType == t && m.offset == offset
    && forall d: Control.Directory :: d.targetOffset == offset && (d.hasTotal ==> d.total == |cat|) ==> Control.ValidPage(d, t, m)
  }

  /** A served page decodes, to the page of the firmware's own list at that offset, and the controller asking for it takes it. */
  lemma ServedPageDecodes(configured: seq<Desktop.Action>, items: seq<Item>, t: ActionType, offset: u64, blank: Codec.Message)
    requires Desktop.ValidConfig(configured) && Desktop.ItemsOf(items, Desktop.Offered(configured))
    requires var list := Desktop.OfType(items, t); offset % PAGE_SIZE == 0 && InRange(offset, |list|)
    ensures var list := Desktop.OfType(items, t);
            var m := Codec.DecodedPage(Desktop.ServedPage(list, t, offset), blank);
            && Decodable(list, t) && m.Some? && Awaitable(m.value, t, offset, EntriesOf(list, t))
            && m.value.code == blank.code && m.value.request == blank.request && m.value.execId == blank.execId
  {
    var list := Desktop.OfType(items, t);
    ListDecodes(configured, items, t);
    Desktop.ServedPageValid(configured, items, t, offset);
    GoodPageDecodes(list, t, offset, blank);
  }

  lemma GoodPageDecodes(list: seq<Item>, t: ActionType, offset: u64, blank: Codec.Message)
    requires Decodable(list, t) && InRange(offset, |list|) && Contract.ValidPage(Desktop.ServedPage(list, t, offset))
    ensures var m := Codec.DecodedPage(Desktop.ServedPage(list, t, offset), blank);
            && m.Some? && Awaitable(m.value, t, offset, EntriesOf(list, t))
            && m.value.code == blank.code && m.value.request == blank.request && m.value.execId == blank.execId
  {
    var page := Desktop.ServedPage(list, t, offset);
    Agreement.PageContents(page, blank);
    var m := Codec.DecodedPage(page, blank).value;
    Contract.TypeNamesDiffer();
    assert m.actionType == t;
    SliceDecodes(list, t, offset, m.actions);
    EntriesTaken(m, t, offset, EntriesOf(list, t));
  }

  lemma EntriesTaken(m: Codec.Message, t: ActionType, offset: nat, cat: seq<Codec.Entry>)
    requires m.hasActionType && m.actionType == t && m.offset == offset && m.total == |cat| && offset % PAGE_SIZE == 0
    requires InRange(offset, |cat|) && m.actions == Runs.PageAt(cat, offset)
    requires m.hasNextOffset <==> offset + Held(offset, |cat|) < |cat|
    requires m.hasNextOffset ==> m.nextOffset == offset + Held(offset, |cat|)
    ensures Awaitable(m, t, offset, cat)
  {}

  lemma SliceIs<T>(part: seq<T>, all: seq<T>, from: nat)
    requires from + |part| <= |all| && forall i :: 0 <= i < |part| ==> part[i] == all[from + i]
    ensures part == all[from..from + |part|]
  {}

  lemma SliceDecodes(list: seq<Item>, t: ActionType, offset: nat, actions: seq<Codec.Entry>)
    requires Decodable(list, t) && InRange(offset, |list|)
    requires var page := list[offset..offset + Held(offset, |list|)];
             |actions| == |page| && forall i :: 0 <= i < |page| ==> Codec.DecodedItem(page[i], t) == Some(actions[i])
    ensures InRange(offset, |EntriesOf(list, t)|) && actions == Runs.PageAt(EntriesOf(list, t), offset)
  {
    var all := EntriesOf(list, t);
    EntriesDecode(list, t);
    SameSlice(list, t, offset, |actions|, actions, all);
    SliceIs(actions, all, offset);
  }

  lemma EntriesDecode(list: seq<Item>, t: ActionType)
    requires Decodable(list, t)
    ensures forall i :: 0 <= i < |list| ==> Codec.DecodedItem(list[i], t) == Some(EntriesOf(list, t)[i])
  {}

  lemma SameSlice(list: seq<Item>, t: ActionType, offset: nat, count: nat, actions: seq<Codec.Entry>, all: seq<Codec.Entry>)
    requires offset + count <= |list| == |all| && count == |actions|
    requires forall i :: 0 <= i < |list| ==> Codec.DecodedItem(list[i], t) == Some(all[i])
    requires forall i :: 0 <= i < count ==> Codec.DecodedItem(list[offset..offset + count][i], t) == Some(actions[i])
    ensures forall i :: 0 <= i < count ==> actions[i] == all[offset + i]
  {
    forall i | 0 <= i < count ensures actions[i] == all[offset + i] {
      assert list[offset..offset + count][i] == list[offset + i];
    }
  }

  /**
   From a request in flight to the display, in every run: the page served for it, if it arrives in time, decodes and shows the
   entry the accepted keys lead to.
   */
  lemma ServedPageLands(configured: seq<Desktop.Action>, items: seq<Item>, last: u64, inputs: seq<Executions.Input>, t: ActionType,
                        blank: Codec.Message, now: u32, cats: Runs.Catalogs)
    requires Desktop.ValidConfig(configured) && Desktop.ItemsOf(items, Desktop.Offered(configured))
    requires Decodable(Desktop.OfType(items, t), t) && Runs.Catalog(cats, t) == EntriesOf(Desktop.OfType(items, t), t)
    requires Runs.HonestSince(Executions.Start(last), inputs, cats)
    requires var c := Executions.Run(Executions.Start(last), inputs);
             && Control.Awaited(c, t, blank) && blank.code == OK
             && Elapsed(now, Control.Dir(c, t).started) < Control.DIRECTORY_TIMEOUT_MS
    ensures var c, cat := Executions.Run(Executions.Start(last), inputs), Runs.Catalog(cats, t);
            var list, offset := Desktop.OfType(items, t), Control.Dir(c, t).targetOffset;
            && InRange(offset, |list|)
            && var m := Codec.DecodedPage(Desktop.ServedPage(list, t, offset), blank);
               && m.Some?
               && var c' := Executions.Step(c, Executions.Arrive(true, m.value, now));
                  && Control.Dir(c', t).status == Control.Ready
                  && Runs.Shows(Control.Dir(c', t), cat, Runs.Walk(Runs.Keys(Executions.Start(last), inputs, t), |cat|))
  {
    var c := Executions.Run(Executions.Start(last), inputs);
    Runs.CursorFollowsKeys(last, inputs, t, cats);
    var m := ServedFor(configured, items, c, t, blank, cats);
    Runs.AnswerLands(last, inputs, m, now, t, cats);
  }

  lemma ServedFor(configured: seq<Desktop.Action>, items: seq<Item>, c: Control.Controller, t: ActionType, blank: Codec.Message,
                  cats: Runs.Catalogs) returns (m: Codec.Message)
    requires Desktop.ValidConfig(configured) && Desktop.ItemsOf(items, Desktop.Offered(configured))
    requires Decodable(Desktop.OfType(items, t), t) && Runs.Catalog(cats, t) == EntriesOf(Desktop.OfType(items, t), t)
    requires Runs.DirOk(c, t, Runs.Catalog(cats, t)) && Control.Awaited(c, t, blank) && blank.code == OK
    ensures var list, offset := Desktop.OfType(items, t), Control.Dir(c, t).targetOffset;
            InRange(offset, |list|) && Codec.DecodedPage(Desktop.ServedPage(list, t, offset), blank) == Some(m)
    ensures Control.Awaited(c, t, m) && m.code == OK
    ensures Control.ValidPage(Control.Dir(c, t), t, m) && Runs.IsPage(m, Runs.Catalog(cats, t))
  {
    var offset := Control.Dir(c, t).targetOffset;
    ServedPageDecodes(configured, items, t, offset, blank);
    m := Codec.DecodedPage(Desktop.ServedPage(Desktop.OfType(items, t), t, offset), blank).value;
  }
}
