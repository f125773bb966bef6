/** The desktop's checks of action messages. */
module ActionContract {
  import opened Common
  import opened ActionRecords
  import Utf8

  predicate Names(f: Field, t: ActionType) { f == Str(TypeName(t)) }

  predicate KnownType(f: Field) { Names(f, Script) || Names(f, Clipboard) }

  predicate ValidActionId(f: Field, t: ActionType) {
    && f.Str? && |f.s| <= 64
    && var n := |TypeName(t)|;
       && |f.s| > n + 1 && f.s[..n] == TypeName(t) && f.s[n] == '.' as int
       && forall i :: n < i < |f.s| ==> IdCharacter(f.s[i])
  }

  ghost predicate ValidName(f: Field) { f.Str? && Utf8.ValidName(f.s) }

  predicate ValidKey(f: Field) { f == Null || (f.Str? && |f.s| == 1 && Letter(f.s[0])) }

  predicate Unsigned(f: Field) { f.Int? && 0 <= f.n < TWO_TO_THE_64 }

  // ---------------------------------------------------------------- requests

  predicate ValidRequest(action: Request, payload: map<string, Field>) {
    match action
    case ListActions =>
      && payload.Keys == {"type", "offset"} && KnownType(payload["type"])
      && Unsigned(payload["offset"]) && payload["offset"].n % PAGE_SIZE == 0
    case Execute =>
      payload.Keys == {"actionId"} && (ValidActionId(payload["actionId"], Script) || ValidActionId(payload["actionId"], Clipboard))
    case Shortcut =>
      payload.Keys == {"key"} && payload["key"] != Null && ValidKey(payload["key"])
  }

  // ---------------------------------------------------------------- pages

  ghost predicate ValidPagination(data: PageData) {
    && data.Page? && KnownType(data.kind) && Unsigned(data.offset) && Unsigned(data.total)
    && var offset, total := data.offset.n, data.total.n;
       && offset % PAGE_SIZE == 0 && data.actions.Some? && InRange(offset, total)
       && var count := Held(offset, total);
          && |data.actions.value| == count
          && data.nextOffset == if offset + count < total then Int(offset + count) else Null
  }

  ghost predicate ValidItem(item: Item, kind: Field) {
    && item.Item? && item.kind == kind
    && (Names(kind, Script) ==> ValidActionId(item.actionId, Script))
    && (Names(kind, Clipboard) ==> ValidActionId(item.actionId, Clipboard))
    && ValidName(item.name) && ValidKey(item.key) && ValidKey(item.effectiveKey)
    && (item.effectiveKey != Null ==> item.effectiveKey == item.key)
    && !item.hasPrivate
  }

  ghost predicate ValidItems(items: seq<Item>, kind: Field) {
    && (forall i :: 0 <= i < |items| ==> ValidItem(items[i], kind))
    && (forall i, j :: 0 <= i < j < |items| ==> items[i].actionId != items[j].actionId)
  }

  /** A page is well-formed, its window is the one its offset and total call for, and no identity repeats in it. */
  ghost predicate ValidPage(data: PageData) {
    ValidPagination(data) && ValidItems(data.actions.value, data.kind)
  }

  /** One item; the names are checked on code points. */
  method CheckItem(item: Item, t: ActionType, seen: set<Text>) returns (ok: bool)
    ensures ok <==> ValidItem(item, Str(TypeName(t))) && item.actionId.s !in seen
  {
    TypeNamesDiffer();
    if !item.Item? || item.kind != Str(TypeName(t)) || !ValidActionId(item.actionId, t) || !item.name.Str? {
      return false;
    }
    var named := CheckName(item.name.s);
    if !named || !ValidKey(item.key) || !ValidKey(item.effectiveKey)
       || (item.effectiveKey != Null && item.effectiveKey != item.key) {
      return false;
    }
    return item.actionId.s !in seen && !item.hasPrivate;
  }

  /** `value.strip()` is non-empty, the UTF-8 form exists and fits, and no control character occurs. */
  method CheckName(s: Text) returns (ok: bool)
    ensures ok <==> Utf8.ValidName(s)
  {
    var kept := exists i :: 0 <= i < |s| && !Utf8.PythonSpace(s[i]);
    var plain := forall i :: 0 <= i < |s| ==> s[i] >= 32 && s[i] != 127;
    var encodable := forall i :: 0 <= i < |s| ==> Utf8.Scalar(s[i]);
    return kept && encodable && |Utf8.EncodeAll(s)| <= 64 && plain;
  }

  lemma TypeNamesDiffer()
    ensures TypeName(Script) != TypeName(Clipboard)
  {
    assert |TypeName(Script)| == 6 && |TypeName(Clipboard)| == 9;
  }

  /** `validate_page`. */
  method ValidatePage(data: PageData) returns (ok: bool)
    ensures ok <==> ValidPage(data)
  {
    TypeNamesDiffer();
    if !data.Page? || !KnownType(data.kind) {
      return false;
    }
    var t := if Names(data.kind, Script) then Script else Clipboard;
    if !Unsigned(data.offset) || !Unsigned(data.total) || data.offset.n % PAGE_SIZE != 0
       || data.nextOffset == Absent || data.actions.None?
       || (if data.total.n != 0 then data.offset.n >= data.total.n else data.offset.n != 0) {
      return false;
    }
    var offset, total, items := data.offset.n, data.total.n, data.actions.value;
    var count := Min(PAGE_SIZE, total - offset);
    var expectedNext := if offset + count < total then Int(offset + count) else Null;
    if |items| != count || data.nextOffset != expectedNext {
      return false;
    }
    var seen: set<Text> := {};
    var n := 0;
    while n < |items|
      invariant 0 <= n <= |items| && ValidItems(items[..n], data.kind)
      invariant forall s :: s in seen <==> exists i :: 0 <= i < n && items[i].actionId == Str(s)
    {
      var good := CheckItem(items[n], t, seen);
      ItemsGrow(items, n, data.kind);
      if !good {
        assert forall i :: 0 <= i < n ==> items[..n][i] == items[i];
        BadItem(items, n, data.kind, t, seen);
        return false;
      }
      SeenGrow(items, n, data.kind, t, seen);
      seen := seen + {items[n].actionId.s};
      n := n + 1;
    }
    assert items[..n] == items;
    return true;
  }

  lemma ItemsGrow(items: seq<Item>, n: nat, kind: Field)
    requires n < |items| && ValidItems(items[..n], kind)
    ensures ValidItems(items[..n + 1], kind) <==>
              ValidItem(items[n], kind) && forall i :: 0 <= i < n ==> items[i].actionId != items[n].actionId
  {
    var before, after := items[..n], items[..n + 1];
    assert forall i :: 0 <= i < n ==> before[i] == after[i] == items[i];
    assert after[n] == items[n];
    if ValidItems(after, kind) {
      assert forall i :: 0 <= i < n ==> after[i].actionId != after[n].actionId;
    }
  }

  lemma BadItem(items: seq<Item>, n: nat, kind: Field, t: ActionType, seen: set<Text>)
    requires n < |items| && kind == Str(TypeName(t)) && forall i :: 0 <= i < n ==> items[i].Item?
    requires forall s :: s in seen ==> exists i :: 0 <= i < n && items[i].actionId == Str(s)
    requires !(ValidItem(items[n], kind) && items[n].actionId.s !in seen)
    ensures !ValidItems(items, kind)
  {
    if ValidItem(items[n], kind) {
      var i :| 0 <= i < n && items[i].actionId == Str(items[n].actionId.s);
      assert items[i].actionId == items[n].actionId;
    }
  }

  lemma SeenGrow(items: seq<Item>, n: nat, kind: Field, t: ActionType, seen: set<Text>)
    requires n < |items| && kind == Str(TypeName(t)) && ValidItems(items[..n], kind)
    requires forall s :: s in seen <==> exists i :: 0 <= i < n && items[i].actionId == Str(s)
    requires ValidItem(items[n], kind) && items[n].actionId.s !in seen
    ensures ValidItems(items[..n + 1], kind)
    ensures forall s :: s in seen + {items[n].actionId.s} <==> exists i :: 0 <= i < n + 1 && items[i].actionId == Str(s)
  {
    ItemsGrow(items, n, kind);
    var x := items[n].actionId.s;
    forall s ensures s in seen + {x} <==> exists i :: 0 <= i < n + 1 && items[i].actionId == Str(s) {
      if s == x { assert items[n].actionId == Str(s); }
      if s in seen {
        var i :| 0 <= i < n && items[i].actionId == Str(s);
        assert 0 <= i < n + 1;
      }
    }
    forall i | 0 <= i < n ensures items[i].actionId != items[n].actionId {
      assert items[..n][i] == items[i];
      assert items[i].actionId == Str(x) ==> x in seen;
    }
  }

  // ---------------------------------------------------------------- execution results

  predicate NullableBool(f: Field) { f == Null || f.Bool? }

  predicate ValidScriptOutcome(code: Code, data: ExecutionData)
    requires data.Execution?
  {
    && data.written == Null && data.sent == Null
    && (data.exitCode != Null ==> data.exitCode.Int? && -0x8000_0000 <= data.exitCode.n < 0x8000_0000)
    && (code == OK ==> data.exitCode == Int(0))
  }

  predicate ValidClipboardOutcome(code: Code, data: ExecutionData)
    requires data.Execution?
  {
    && data.exitCode == Null && NullableBool(data.written) && NullableBool(data.sent)
    && (data.sent == Bool(true) ==> data.written == Bool(true))
    && (code == OK ==> data.written == Bool(true) && data.sent == Bool(true))
  }

  ghost predicate ValidIdentity(data: ExecutionData) {
    && data.Execution? && !data.hasPrivate && ValidName(data.name)
    && data.exitCode != Absent && data.written != Absent && data.sent != Absent && data.reason != Absent
    && if Names(data.kind, Script) then ValidActionId(data.actionId, Script)
       else Names(data.kind, Clipboard) && ValidActionId(data.actionId, Clipboard)
  }

  ghost predicate ValidReason(code: Code, reason: Field) {
    reason == Null || (code != OK && reason.Str? && reason.s in FailureReasons())
  }

  /** `validate_execution`: identity, reason and each type's own proof fields. */
  ghost predicate ValidExecution(code: Code, data: ExecutionData) {
    && !code.OtherCode?
    && if data == NullData then code != OK
       else && ValidIdentity(data) && ValidReason(code, data.reason)
            && if Names(data.kind, Script) then ValidScriptOutcome(code, data) else ValidClipboardOutcome(code, data)
  }
}
