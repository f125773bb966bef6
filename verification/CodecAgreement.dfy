/** The two ends accept exactly the same action records, and the firmware's message says what the record said. */
module CodecAgreement {
  import opened Common
  import opened ActionRecords
  import opened MessageCodec
  import Contract = ActionContract
  import Utf8

  // ---------------------------------------------------------------- ASCII text is its own encoding

  lemma EncodedFirst(s: Text)
    requires s != []
    ensures Bytes(s) != [] && (Bytes(s)[0] < 0x80 <==> s[0] < 0x80)
    ensures s[0] < 0x80 ==> Bytes(s) == [s[0]] + Bytes(s[1..])
    ensures s[0] >= 0x80 ==> |Bytes(s)| >= 2
  {}

  lemma {:induction false} AsciiIsItself(s: Text)
    requires forall i :: 0 <= i < |s| ==> s[i] < 0x80
    ensures Bytes(s) == s
  {
    if s != [] {
      EncodedFirst(s);
      AsciiIsItself(s[1..]);
      assert s == [s[0]] + s[1..];
    }
  }

  lemma {:induction false} AsciiBytes(s: Text)
    requires forall i :: 0 <= i < |Bytes(s)| ==> Bytes(s)[i] < 0x80
    ensures Bytes(s) == s
  {
    if s != [] {
      EncodedFirst(s);
      assert forall i :: 0 <= i < |Bytes(s[1..])| ==> Bytes(s[1..])[i] == Bytes(s)[i + 1];
      AsciiBytes(s[1..]);
      assert s == [s[0]] + s[1..];
    }
  }

  lemma LiteralAgrees(s: Text, literal: Text)
    requires forall i :: 0 <= i < |literal| ==> literal[i] < 0x80
    ensures Bytes(s) == literal <==> s == literal
  {
    if Bytes(s) == literal { AsciiBytes(s); }
    if s == literal { AsciiIsItself(s); }
  }

  lemma TypesAgree(f: Field)
    ensures ReadType(f) == Some(Script) <==> Contract.Names(f, Script)
    ensures ReadType(f) == Some(Clipboard) <==> Contract.Names(f, Clipboard)
  {
    Contract.TypeNamesDiffer();
    if f.Str? {
      LiteralAgrees(f.s, TypeName(Script));
      LiteralAgrees(f.s, TypeName(Clipboard));
    }
  }

  lemma IdToBytes(s: Text, t: ActionType)
    requires Contract.ValidActionId(Str(s), t)
    ensures Bytes(s) == s && ActionId(Bytes(s), t)
  {
    var prefix := TypeName(t) + ['.' as int];
    PrefixIsIds(t, prefix);
    var n := |TypeName(t)|;
    assert s[..n + 1] == s[..n] + [s[n]];
    assert forall i :: 0 <= i < n ==> s[i] == prefix[i];
    AsciiIsItself(s);
  }

  lemma IdsAgree(f: Field, t: ActionType)
    ensures RequiredString(f).Some? && ActionId(RequiredString(f).value, t) <==> Contract.ValidActionId(f, t)
    ensures Contract.ValidActionId(f, t) ==> RequiredString(f) == Some(f.s)
  {
    if Contract.ValidActionId(f, t) {
      IdToBytes(f.s, t);
    } else if RequiredString(f).Some? && ActionId(RequiredString(f).value, t) {
      AsciiBytes(f.s);
      IdOfBytes(f.s, t);
    }
  }

  lemma PrefixIsIds(t: ActionType, prefix: Text)
    requires prefix == TypeName(t) + ['.' as int]
    ensures forall i :: 0 <= i < |prefix| ==> IdCharacter(prefix[i])
  {}

  lemma IdOfBytes(s: Text, t: ActionType)
    requires Bytes(s) == s && ActionId(Bytes(s), t)
    ensures Contract.ValidActionId(Str(s), t)
  {
    var n := |TypeName(t)|;
    var prefix := TypeName(t) + ['.' as int];
    assert |prefix| == n + 1 && Bytes(s)[..n + 1] == prefix;
    forall i | 0 <= i <= n ensures s[i] == prefix[i] {
      assert Bytes(s)[..n + 1][i] == s[i];
    }
    assert s[..n] == TypeName(t);
  }

  lemma KeysAgree(f: Field)
    ensures NullableKey(f).Some? <==> Contract.ValidKey(f)
    ensures Contract.ValidKey(f) ==> NullableKey(f).value == if f == Null then [] else f.s
  {
    if f.Str? && |f.s| == 1 && Letter(f.s[0]) {
      AsciiIsItself(f.s);
    } else if NullableKey(f).Some? && f != Null {
      AsciiBytes(f.s);
    }
  }

  lemma NameFieldsAgree(f: Field)
    ensures RequiredString(f).Some? && Utf8.ActionName(RequiredString(f).value) <==> Contract.ValidName(f)
  {
    if f.Str? { Utf8.NamesAgree(f.s); }
  }

  // ---------------------------------------------------------------- requests

  lemma OneKey(payload: map<string, Field>, k: string)
    ensures |payload| == 1 && k in payload <==> payload.Keys == {k}
  {
    if |payload| == 1 && k in payload {
      assert |payload.Keys - {k}| == 0;
      assert payload.Keys == (payload.Keys - {k}) + {k};
    }
    if payload.Keys == {k} { assert |payload| == |payload.Keys|; }
  }

  lemma TwoKeys(payload: map<string, Field>, j: string, k: string)
    requires j != k
    ensures |payload| == 2 && j in payload && k in payload <==> payload.Keys == {j, k}
  {
    if |payload| == 2 && j in payload && k in payload {
      assert {j, k} <= payload.Keys;
      assert |payload.Keys - {j, k}| == |payload.Keys| - |{j, k}| == 0;
      assert payload.Keys == (payload.Keys - {j, k}) + {j, k};
    }
    if payload.Keys == {j, k} { assert |payload| == |payload.Keys| == 2; }
  }

  lemma RequestsAgree(action: Request, payload: map<string, Field>)
    ensures ValidActionRequest(action, payload) <==> Contract.ValidRequest(action, payload)
  {
    match action
    case ListActions =>
      assert |"type"| == 4 && |"offset"| == 6;
      TwoKeys(payload, "type", "offset");
      if payload.Keys == {"type", "offset"} { TypesAgree(payload["type"]); }
    case Execute =>
      OneKey(payload, "actionId");
      if "actionId" in payload {
        IdsAgree(payload["actionId"], Script);
        IdsAgree(payload["actionId"], Clipboard);
      }
    case Shortcut =>
      OneKey(payload, "key");
      if "key" in payload { KeysAgree(payload["key"]); }
  }

  // ---------------------------------------------------------------- pages

  function EntryOf(item: Item, t: ActionType): Entry
    requires item.Item? && item.actionId.Str? && item.name.Str?
    requires (item.key.Str? || item.key == Null) && (item.effectiveKey.Str? || item.effectiveKey == Null)
  {
    Entry(t, Bytes(item.actionId.s), Bytes(item.name.s),
          if item.key == Null then [] else Bytes(item.key.s), if item.effectiveKey == Null then [] else Bytes(item.effectiveKey.s))
  }

  lemma AcceptedItem(item: Item, t: ActionType)
    requires Contract.ValidItem(item, Str(TypeName(t)))
    ensures DecodedItem(item, t) == Some(EntryOf(item, t))
  {
    Contract.TypeNamesDiffer();
    TypesAgree(item.kind);
    IdsAgree(item.actionId, t);
    NameFieldsAgree(item.name);
    KeysAgree(item.key);
    KeysAgree(item.effectiveKey);
    assert EffectiveKey(item.key, item.effectiveKey);
  }

  predicate EffectiveKey(key: Field, effective: Field) {
    NullableKey(effective) == Some([]) || NullableKey(effective) == NullableKey(key)
  }

  lemma EffectiveKeysAgree(key: Field, effective: Field)
    requires NullableKey(key).Some? && NullableKey(effective).Some?
    ensures EffectiveKey(key, effective) <==> effective == Null || effective == key
  {
    KeysAgree(key);
    KeysAgree(effective);
  }

  lemma DecodedIsAccepted(item: Item, t: ActionType)
    requires DecodedItem(item, t).Some?
    ensures Contract.ValidItem(item, Str(TypeName(t)))
  {
    Contract.TypeNamesDiffer();
    TypesAgree(item.kind);
    IdsAgree(item.actionId, t);
    NameFieldsAgree(item.name);
    EffectiveKeysAgree(item.key, item.effectiveKey);
    KeysAgree(item.key);
    KeysAgree(item.effectiveKey);
  }

  lemma ItemsAgree(item: Item, t: ActionType)
    ensures DecodedItem(item, t).Some? <==> Contract.ValidItem(item, Str(TypeName(t)))
    ensures Contract.ValidItem(item, Str(TypeName(t))) ==> DecodedItem(item, t) == Some(EntryOf(item, t))
  {
    if Contract.ValidItem(item, Str(TypeName(t))) { AcceptedItem(item, t); }
    if DecodedItem(item, t).Some? { DecodedIsAccepted(item, t); }
  }

  lemma EntryId(item: Item, t: ActionType, entry: Entry)
    requires DecodedItem(item, t) == Some(entry)
    ensures item.Item? && item.actionId == Str(entry.actionId)
  {
    IdsAgree(item.actionId, t);
  }

  /** Collecting succeeds exactly when every item is there and no identity repeats; then it yields them in order. */
  lemma {:induction false} CollectedAll(each: seq<Option<Entry>>)
    ensures Collected(each).Some? <==>
              (forall i :: 0 <= i < |each| ==> each[i].Some?)
              && (forall i, j :: 0 <= i < j < |each| && each[i].Some? && each[j].Some? ==> each[i].value.actionId != each[j].value.actionId)
    ensures Collected(each).Some? ==> forall i :: 0 <= i < |each| ==> each[i] == Some(Collected(each).value[i])
  {
    if each != [] {
      var n := |each| - 1;
      CollectedAll(each[..n]);
      assert forall i :: 0 <= i < n ==> each[..n][i] == each[i];
      if Collected(each[..n]).Some? && each[n].Some? {
        var entries := Collected(each[..n]).value;
        assert forall i :: 0 <= i < n ==> entries[i].actionId == each[i].value.actionId;
      }
    }
  }

  lemma ItemIdsAgree(items: seq<Item>, t: ActionType, i: nat, j: nat)
    requires i < |items| && j < |items| && DecodedItem(items[i], t).Some? && DecodedItem(items[j], t).Some?
    ensures items[i].Item? && items[j].Item?
    ensures items[i].actionId == items[j].actionId <==> DecodedItem(items[i], t).value.actionId == DecodedItem(items[j], t).value.actionId
  {
    EntryId(items[i], t, DecodedItem(items[i], t).value);
    EntryId(items[j], t, DecodedItem(items[j], t).value);
  }

  lemma ItemListsAgree(items: seq<Item>, t: ActionType)
    ensures DecodedItems(items, t).Some? <==> Contract.ValidItems(items, Str(TypeName(t)))
  {
    var each := EachDecoded(items, t);
    CollectedAll(each);
    EachAgrees(items, t, each);
    if forall i :: 0 <= i < |each| ==> each[i].Some? {
      forall i, j | 0 <= i < j < |items|
        ensures items[i].Item? && items[j].Item? && (items[i].actionId == items[j].actionId <==> each[i].value.actionId == each[j].value.actionId)
      {
        SameIds(items, t, each, i, j);
      }
    }
  }

  lemma EachAgrees(items: seq<Item>, t: ActionType, each: seq<Option<Entry>>)
    requires each == EachDecoded(items, t)
    ensures forall i :: 0 <= i < |items| ==> (each[i].Some? <==> Contract.ValidItem(items[i], Str(TypeName(t))))
  {
    forall i | 0 <= i < |items| ensures each[i].Some? <==> Contract.ValidItem(items[i], Str(TypeName(t))) {
      ItemsAgree(items[i], t);
    }
  }

  lemma SameIds(items: seq<Item>, t: ActionType, each: seq<Option<Entry>>, i: nat, j: nat)
    requires each == EachDecoded(items, t) && i < |items| && j < |items| && each[i].Some? && each[j].Some?
    ensures items[i].Item? && items[j].Item?
    ensures items[i].actionId == items[j].actionId <==> each[i].value.actionId == each[j].value.actionId
  {
    ItemIdsAgree(items, t, i, j);
  }

  /** For every parsed record: the firmware decodes the page exactly when the desktop's validator accepts it. */
  lemma PagesAgree(data: PageData, m: Message)
    ensures DecodedPage(data, m).Some? <==> Contract.ValidPage(data)
  {
    if data.Page? {
      TypesAgree(data.kind);
      Contract.TypeNamesDiffer();
      if ReadType(data.kind).Some? && data.actions.Some? {
        var t := ReadType(data.kind).value;
        assert data.kind == Str(TypeName(t));
        ItemListsAgree(data.actions.value, t);
      }
    }
  }

  /** And a decoded page carries the record's window and its items in order. */
  lemma PageContents(data: PageData, m: Message)
    requires Contract.ValidPage(data)
    ensures DecodedPage(data, m).Some?
    ensures var p := DecodedPage(data, m).value;
            && p.hasActionType && data.kind == Str(TypeName(p.actionType))
            && Int(p.offset) == data.offset && Int(p.total) == data.total
            && (p.hasNextOffset <==> data.nextOffset.Int?) && (p.hasNextOffset ==> data.nextOffset == Int(p.nextOffset))
            && |p.actions| == |data.actions.value|
            && forall i :: 0 <= i < |p.actions| ==> DecodedItem(data.actions.value[i], p.actionType) == Some(p.actions[i])
  {
    PagesAgree(data, m);
    TypesAgree(data.kind);
    var p := DecodedPage(data, m).value;
    CollectedAll(EachDecoded(data.actions.value, p.actionType));
  }

  // ---------------------------------------------------------------- execution results

  lemma ReasonLetters(r: Text)
    requires r in FailureReasons()
    ensures r != [] && forall i :: 0 <= i < |r| ==> r[i] < 0x80
  {}

  lemma ReasonsAgree(code: Code, f: Field)
    ensures ReadReason(code, f).Some? <==> Contract.ValidReason(code, f)
  {
    if f.Str? {
      forall r: Text | r in FailureReasons() ensures Bytes(f.s) == r <==> f.s == r {
        ReasonLetters(r);
        LiteralAgrees(f.s, r);
      }
      KnownReasonHas(Bytes(f.s), f.s);
    }
  }

  lemma KnownReasonHas(b: seq<byte>, s: Text)
    requires forall r: Text :: r in FailureReasons() ==> (b == r <==> s == r)
    ensures KnownReason(b) <==> s in FailureReasons()
    ensures KnownReason(b) ==> b != []
  {
    if KnownReason(b) {
      var r: Text :| r in FailureReasons() && b == r;
      ReasonLetters(r);
    }
  }

  /** Who ran, on both sides. */
  lemma IdentitiesAgree(data: ExecutionData, t: ActionType)
    requires data.Execution? && Contract.Names(data.kind, t)
    ensures ReadType(data.kind) == Some(t)
    ensures (RequiredString(data.actionId).Some? && ActionId(RequiredString(data.actionId).value, t)
             && RequiredString(data.name).Some? && Utf8.ActionName(RequiredString(data.name).value)
             && !data.hasPrivate && data.exitCode != Absent && data.written != Absent && data.sent != Absent && data.reason != Absent)
            <==> Contract.ValidIdentity(data)
  {
    TypesAgree(data.kind);
    Contract.TypeNamesDiffer();
    NameFieldsAgree(data.name);
    IdsAgree(data.actionId, t);
  }

  lemma KnownKindsAgree(data: ExecutionData, m: Message, t: ActionType)
    requires data.Execution? && Contract.Names(data.kind, t) && !m.code.OtherCode?
    ensures DecodedExecution(data, m).Some? <==> Contract.ValidExecution(m.code, data)
  {
    Contract.TypeNamesDiffer();
    IdentitiesAgree(data, t);
    ReasonsAgree(m.code, data.reason);
  }

  /** For every parsed record and result code the firmware accepts: decoded exactly when the desktop's validator accepts. */
  lemma ExecutionsAgree(data: ExecutionData, m: Message)
    requires !m.code.OtherCode?
    ensures DecodedExecution(data, m).Some? <==> Contract.ValidExecution(m.code, data)
  {
    if data.Execution? {
      TypesAgree(data.kind);
      if Contract.Names(data.kind, Script) {
        KnownKindsAgree(data, m, Script);
      } else if Contract.Names(data.kind, Clipboard) {
        KnownKindsAgree(data, m, Clipboard);
      }
    }
  }

  function Reported(b: Option<bool>): Field { if b.Some? then Bool(b.value) else Null }

  /** The message says of the execution what the record said, and of everything else what it said before. */
  ghost predicate Carries(p: Message, data: ExecutionData, m: Message)
    requires data.Execution? && data.actionId.Str? && data.name.Str?
  {
    && p.hasActionType && data.kind == Str(TypeName(p.actionType))
    && p.executedActionId == Bytes(data.actionId.s) && p.executedName == Bytes(data.name.s)
    && (p.hasExitCode <==> data.exitCode.Int?) && p.exitCode == (if data.exitCode.Int? then data.exitCode.n else m.exitCode)
    && data.written == Reported(p.written) && data.sent == Reported(p.sent)
    && p.reason == (if data.reason.Str? then Bytes(data.reason.s) else [])
    && p.request == m.request && p.execId == m.execId && p.code == m.code && p.msg == m.msg && p.actions == m.actions
    && p.offset == m.offset && p.total == m.total && p.hasNextOffset == m.hasNextOffset && p.nextOffset == m.nextOffset
  }

  lemma ContentsOf(data: ExecutionData, m: Message, t: ActionType)
    requires data.Execution? && ReadType(data.kind) == Some(t) && data.kind == Str(TypeName(t)) && DecodedExecution(data, m).Some?
    requires data.actionId.Str? && data.name.Str?
    ensures Carries(DecodedExecution(data, m).value, data, m)
  {}

  /** A valid record decodes to what it says; no record leaves the message as it was. */
  lemma ExecutionContents(data: ExecutionData, m: Message)
    requires Contract.ValidExecution(m.code, data)
    ensures DecodedExecution(data, m).Some?
    ensures data == NullData ==> DecodedExecution(data, m).value == m
    ensures data != NullData ==> data.actionId.Str? && data.name.Str? && Carries(DecodedExecution(data, m).value, data, m)
  {
    ExecutionsAgree(data, m);
    if data != NullData {
      TypesAgree(data.kind);
      ContentsOf(data, m, if Contract.Names(data.kind, Script) then Script else Clipboard);
    }
  }

  // ---------------------------------------------------------------- whole results

  /** The desktop's parser: `page` or `execution` is the data, by the request answered; `OtherCode` is any further known code. */
  ghost predicate DesktopAccepts(request: Request, code: Code, msg: Text, page: PageData, execution: ExecutionData) {
    if request == ListActions then code == OK ==> Contract.ValidPage(page) else Contract.ValidExecution(code, execution)
  }

  ghost predicate FirmwareAccepts(request: Request, code: Code, msg: Text, page: PageData, execution: ExecutionData) {
    var blank := Envelope(Some(request), "", code, Bytes(msg));
    && RequiredString(Str(msg)).Some? && !code.OtherCode?
    && if request == ListActions then code == OK ==> DecodedPage(page, blank).Some? else DecodedExecution(execution, blank).Some?
  }

  /**
   The ends do not agree on whole results: the desktop takes an empty message text and, for a directory, codes the firmware
   does not know. These are the only differences.
   */
  lemma ResultsAgreeExactly(request: Request, code: Code, msg: Text, page: PageData, execution: ExecutionData)
    ensures FirmwareAccepts(request, code, msg, page, execution) <==>
              DesktopAccepts(request, code, msg, page, execution) && msg != [] && !code.OtherCode?
  {
    var blank := Envelope(Some(request), "", code, Bytes(msg));
    PagesAgree(page, blank);
    if !code.OtherCode? { ExecutionsAgree(execution, blank); }
    if msg != [] { EncodedFirst(msg); }
  }

  lemma EmptyMessageDiffers()
    ensures DesktopAccepts(ListActions, ERROR, [], PageData.NotAnObject, NullData)
    ensures !FirmwareAccepts(ListActions, ERROR, [], PageData.NotAnObject, NullData)
  {
    assert Bytes([]) == [];
  }

  // ---------------------------------------------------------------- envelope strings

  /** The desktop wants identities and codes that are not blank and have at most 128 characters. */
  ghost predicate DesktopString(f: Field) {
    f.Str? && (exists i :: 0 <= i < |f.s| && !Utf8.PythonSpace(f.s[i])) && |f.s| <= 128
  }

  /** The firmware only wants them nonempty: it takes what the desktop takes, and besides exactly the blank and the long ones. */
  lemma EnvelopeStringsAgree(f: Field)
    ensures RequiredString(f).Some? <==>
              DesktopString(f)
              || (f.Str? && f.s != [] && (|f.s| > 128 || forall i :: 0 <= i < |f.s| ==> Utf8.PythonSpace(f.s[i])))
  {
    if f.Str? && f.s != [] { EncodedFirst(f.s); }
  }
}
