/** The firmware's decoding of action messages, on UTF-8 bytes. */
module MessageCodec {
  import opened Common
  import opened ActionRecords
  import Utf8

  /** `key` and `effectiveKey` are empty where the record had null. */
  datatype Entry = Entry(kind: ActionType, actionId: seq<byte>, name: seq<byte>, key: seq<byte>, effectiveKey: seq<byte>)

  /** What the codec fills in of a response; None in `written` and `sent` is unknown. */
  datatype Message = Message(
    request: Option<Request>, execId: string, code: Code, msg: seq<byte>,
    hasActionType: bool, actionType: ActionType,
    offset: u64, total: u64, hasNextOffset: bool, nextOffset: u64, actions: seq<Entry>,
    executedActionId: seq<byte>, executedName: seq<byte>, hasExitCode: bool, exitCode: int,
    written: Option<bool>, sent: Option<bool>, reason: seq<byte>)

  /** An empty message for a response to this request. */
  function Envelope(request: Option<Request>, execId: string, code: Code, msg: seq<byte>): Message {
    Message(request, execId, code, msg, false, Script, 0, 0, false, 0, [], [], [], false, 0, None, None, [])
  }

  function Bytes(s: Text): seq<byte> { Utf8.EncodeAll(s) }

  function RequiredString(f: Field): Option<seq<byte>> {
    if f.Str? && Bytes(f.s) != [] then Some(Bytes(f.s)) else None
  }

  predicate ActionId(value: seq<byte>, t: ActionType) {
    var prefix := TypeName(t) + ['.' as int];
    && |prefix| < |value| <= 64 && value[..|prefix|] == prefix
    && forall i :: 0 <= i < |value| ==> IdCharacter(value[i])
  }

  function ReadType(f: Field): Option<ActionType> {
    if !f.Str? then None
    else if Bytes(f.s) == TypeName(Script) then Some(Script)
    else if Bytes(f.s) == TypeName(Clipboard) then Some(Clipboard)
    else None
  }

  function NullableKey(f: Field): Option<seq<byte>> {
    if f == Null then Some([])
    else
      var text := RequiredString(f);
      if text.Some? && |text.value| == 1 && Letter(text.value[0]) then text else None
  }

  function NullableBool(f: Field): Option<Option<bool>> {
    if f == Null then Some(None) else if f.Bool? then Some(Some(f.b)) else None
  }

  predicate IsUint64(f: Field) { f.Int? && 0 <= f.n < TWO_TO_THE_64 }

  // ---------------------------------------------------------------- requests

  predicate ValidActionRequest(action: Request, payload: map<string, Field>) {
    match action
    case ListActions =>
      && |payload| == 2 && "type" in payload && ReadType(payload["type"]).Some?
      && "offset" in payload && IsUint64(payload["offset"]) && payload["offset"].n % PAGE_SIZE == 0
    case Execute =>
      && |payload| == 1 && "actionId" in payload
      && var id := RequiredString(payload["actionId"]);
         id.Some? && (ActionId(id.value, Script) || ActionId(id.value, Clipboard))
    case Shortcut =>
      && |payload| == 1 && "key" in payload
      && var key := RequiredString(payload["key"]);
         key.Some? && |key.value| == 1 && Letter(key.value[0])
  }

  // ---------------------------------------------------------------- pages

  ghost function DecodedItem(item: Item, t: ActionType): Option<Entry> {
    if !item.Item? || item.hasPrivate || ReadType(item.kind) != Some(t) then None
    else
      var id, name := RequiredString(item.actionId), RequiredString(item.name);
      var key, effective := NullableKey(item.key), NullableKey(item.effectiveKey);
      if id.None? || !ActionId(id.value, t) || name.None? || !Utf8.ActionName(name.value) || key.None? || effective.None?
         || (effective.value != [] && effective.value != key.value) then None
      else Some(Entry(t, id.value, name.value, key.value, effective.value))
  }

  predicate Repeats(entries: seq<Entry>, entry: Entry) {
    exists i :: 0 <= i < |entries| && entries[i].actionId == entry.actionId
  }

  /** The items one by one. */
  ghost function EachDecoded(items: seq<Item>, t: ActionType): (r: seq<Option<Entry>>)
    ensures |r| == |items| && forall i :: 0 <= i < |r| ==> r[i] == DecodedItem(items[i], t)
  {
    seq(|items|, i requires 0 <= i < |items| => DecodedItem(items[i], t))
  }

  /** All of them, unless one is missing or repeats an identity. */
  function Collected(each: seq<Option<Entry>>): (r: Option<seq<Entry>>)
    ensures r.Some? ==> |r.value| == |each|
  {
    if each == [] then Some([])
    else
      var before, entry := Collected(each[..|each| - 1]), each[|each| - 1];
      if before.None? || entry.None? || Repeats(before.value, entry.value) then None else Some(before.value + [entry.value])
  }

  ghost function DecodedItems(items: seq<Item>, t: ActionType): (r: Option<seq<Entry>>)
    ensures r.Some? ==> |r.value| == |items|
  {
    Collected(EachDecoded(items, t))
  }

  predicate PageWindow(data: PageData) {
    && data.Page? && IsUint64(data.offset) && IsUint64(data.total) && data.actions.Some? && data.nextOffset != Absent
    && var offset, total := data.offset.n, data.total.n;
       && offset % PAGE_SIZE == 0 && InRange(offset, total)
       && var count := Held(offset, total);
          && |data.actions.value| == count
          && data.nextOffset == if total - offset > count then Int(offset + count) else Null
  }

  /** `decodePage`: the message filled in, or nothing. */
  ghost function DecodedPage(data: PageData, m: Message): Option<Message> {
    if !PageWindow(data) || ReadType(data.kind).None? then None
    else
      var kind, entries := ReadType(data.kind).value, DecodedItems(data.actions.value, ReadType(data.kind).value);
      if entries.None? then None
      else
        Some(m.(hasActionType := true, actionType := kind, offset := data.offset.n, total := data.total.n,
                hasNextOffset := data.nextOffset.Int?, nextOffset := if data.nextOffset.Int? then data.nextOffset.n else m.nextOffset,
                actions := entries.value))
  }

  method DecodeItem(item: Item, t: ActionType) returns (r: Option<Entry>)
    ensures r == DecodedItem(item, t)
  {
    if !item.Item? || item.hasPrivate || ReadType(item.kind) != Some(t) {
      return None;
    }
    var id, name := RequiredString(item.actionId), RequiredString(item.name);
    if id.None? || !ActionId(id.value, t) || name.None? {
      return None;
    }
    var named := Utf8.IsActionName(name.value);
    var key, effective := NullableKey(item.key), NullableKey(item.effectiveKey);
    if !named || key.None? || effective.None? || (effective.value != [] && effective.value != key.value) {
      return None;
    }
    return Some(Entry(t, id.value, name.value, key.value, effective.value));
  }

  lemma {:induction false} CollectedPrefix(each: seq<Option<Entry>>, n: nat)
    requires n <= |each| && Collected(each[..n]).None?
    ensures Collected(each).None?
    decreases |each|
  {
    if n == |each| {
      assert each[..n] == each;
    } else {
      assert each[..|each| - 1][..n] == each[..n];
      CollectedPrefix(each[..|each| - 1], n);
    }
  }

  lemma CollectedSnoc(each: seq<Option<Entry>>, n: nat, entries: seq<Entry>)
    requires n < |each| && Collected(each[..n]) == Some(entries)
    ensures Collected(each[..n + 1]) == if each[n].None? || Repeats(entries, each[n].value) then None else Some(entries + [each[n].value])
  {
    assert each[..n + 1][..n] == each[..n] && each[..n + 1][n] == each[n];
  }

  method DecodeAt(items: seq<Item>, n: nat, t: ActionType) returns (r: Option<Entry>)
    requires n < |items|
    ensures r == EachDecoded(items, t)[n]
  {
    r := DecodeItem(items[n], t);
  }

  /** The loop over the items, each compared with those already taken. */
  method DecodeItems(items: seq<Item>, t: ActionType) returns (r: Option<seq<Entry>>)
    ensures r == DecodedItems(items, t)
  {
    ghost var each := EachDecoded(items, t);
    var entries := [];
    var n := 0;
    while n < |items|
      invariant 0 <= n <= |items| && Collected(each[..n]) == Some(entries)
    {
      var entry := DecodeAt(items, n, t);
      CollectedSnoc(each, n, entries);
      if entry.None? || Repeats(entries, entry.value) {
        CollectedPrefix(each, n + 1);
        return None;
      }
      entries := entries + [entry.value];
      n := n + 1;
    }
    assert each[..n] == each;
    return Some(entries);
  }

  /** The checks of the page's window. */
  method ReadWindow(data: PageData) returns (ok: bool)
    ensures ok <==> PageWindow(data)
  {
    if !data.Page? || !IsUint64(data.offset) || !IsUint64(data.total) || data.actions.None? || data.nextOffset == Absent {
      return false;
    }
    var offset, total, items := data.offset.n, data.total.n, data.actions.value;
    if offset % PAGE_SIZE != 0 || (if total == 0 then offset != 0 else offset >= total) {
      return false;
    }
    var remaining := total - offset;
    var count := if remaining < PAGE_SIZE then remaining else PAGE_SIZE;
    if |items| != count {
      return false;
    }
    return if remaining > count then data.nextOffset == Int(offset + count) else data.nextOffset == Null;
  }

  method DecodePage(data: PageData, m: Message) returns (r: Option<Message>)
    ensures r == DecodedPage(data, m)
  {
    var good := ReadWindow(data);
    if !good {
      return None;
    }
    var kind := ReadType(data.kind);
    if kind.None? {
      return None;
    }
    var entries := DecodeItems(data.actions.value, kind.value);
    if entries.None? {
      return None;
    }
    var message := m.(hasActionType := true, actionType := kind.value, offset := data.offset.n, total := data.total.n,
                      hasNextOffset := data.nextOffset.Int?, actions := entries.value);
    if message.hasNextOffset {
      message := message.(nextOffset := data.nextOffset.n);
    }
    return Some(message);
  }

  // ---------------------------------------------------------------- execution results

  predicate KnownReason(reason: seq<byte>) { exists r :: r in FailureReasons() && reason == r }

  predicate ScriptProof(code: Code, data: ExecutionData)
    requires data.Execution?
  {
    && data.written == Null && data.sent == Null
    && (data.exitCode == Null || (data.exitCode.Int? && -0x8000_0000 <= data.exitCode.n < 0x8000_0000))
    && (code == OK ==> data.exitCode == Int(0))
  }

  predicate ClipboardProof(code: Code, data: ExecutionData, written: Option<bool>, sent: Option<bool>)
    requires data.Execution?
  {
    && data.exitCode == Null
    && (sent == Some(true) ==> written == Some(true))
    && (code == OK ==> written == Some(true) && sent == Some(true))
  }

  /** The bytes of a nullable reason; nothing if it is not one of the known ones or the result claims success. */
  function ReadReason(code: Code, f: Field): Option<seq<byte>> {
    if f == Null then Some([])
    else
      var text := RequiredString(f);
      if text.None? || !KnownReason(text.value) || code == OK then None else text
  }

  /** `decodeExecution`. */
  ghost function DecodedExecution(data: ExecutionData, m: Message): Option<Message> {
    if data == NullData && m.code != OK then Some(m)
    else if !data.Execution? || data.hasPrivate || data.exitCode == Absent then None
    else
      var kind, id, name := ReadType(data.kind), RequiredString(data.actionId), RequiredString(data.name);
      var written, sent := NullableBool(data.written), NullableBool(data.sent);
      if kind.None? || id.None? || !ActionId(id.value, kind.value) || name.None? || !Utf8.ActionName(name.value)
         || written.None? || sent.None? || ReadReason(m.code, data.reason).None? then None
      else if !(if kind.value == Clipboard then ClipboardProof(m.code, data, written.value, sent.value)
                else ScriptProof(m.code, data)) then None
      else
        Some(m.(hasActionType := true, actionType := kind.value, executedActionId := id.value, executedName := name.value,
                hasExitCode := data.exitCode.Int?, exitCode := if data.exitCode.Int? then data.exitCode.n else m.exitCode,
                written := written.value, sent := sent.value, reason := ReadReason(m.code, data.reason).value))
  }

  method DecodeExecution(data: ExecutionData, m: Message) returns (r: Option<Message>)
    requires !m.hasExitCode
    ensures r == DecodedExecution(data, m)
  {
    if data == NullData && m.code != OK {
      return Some(m);
    }
    if !data.Execution? || data.hasPrivate {
      return None;
    }
    var kind, id, name := ReadType(data.kind), RequiredString(data.actionId), RequiredString(data.name);
    if kind.None? || id.None? || !ActionId(id.value, kind.value) || name.None? {
      return None;
    }
    var named := Utf8.IsActionName(name.value);
    var written, sent := NullableBool(data.written), NullableBool(data.sent);
    if !named || data.exitCode == Absent || data.reason == Absent || written.None? || sent.None? {
      return None;
    }
    var message := m.(hasActionType := true, actionType := kind.value, executedActionId := id.value, executedName := name.value,
                      written := written.value, sent := sent.value, reason := []);
    if data.reason != Null {
      var reason := RequiredString(data.reason);
      if reason.None? || !KnownReason(reason.value) || m.code == OK {
        return None;
      }
      message := message.(reason := reason.value);
    }
    if kind.value == Clipboard {
      if data.exitCode != Null || (sent.value == Some(true) && written.value != Some(true)) {
        return None;
      }
      if m.code == OK && !(written.value == Some(true) && sent.value == Some(true)) {
        return None;
      }
      return Some(message);
    }
    if data.written != Null || data.sent != Null {
      return None;
    }
    if data.exitCode != Null {
      if !data.exitCode.Int? || !(-0x8000_0000 <= data.exitCode.n < 0x8000_0000) {
        return None;
      }
      message := message.(hasExitCode := true, exitCode := data.exitCode.n);
    }
    if m.code == OK && !(message.hasExitCode && message.exitCode == 0) {
      return None;
    }
    return Some(message);
  }
}
