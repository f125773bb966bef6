/** The desktop's action catalog: key ownership, the pages it serves and the one runner it keeps busy. */
module ActionsModule {
  import opened Common
  import opened ActionRecords
  import opened ActionContract
  import opened JsonText
  import Utf8

  /** A configured action; content and parameters stay on the computer. */
  datatype Action = Action(enabled: bool, kind: Option<ActionType>, actionId: Text, name: Text, key: Field)

  /** What the configuration parser lets through. */
  ghost predicate ValidConfig(configured: seq<Action>) {
    && (forall i :: 0 <= i < |configured| && configured[i].kind.Some? ==>
          var a := configured[i];
          ActionContract.ValidActionId(Str(a.actionId), a.kind.value) && Utf8.ValidName(a.name) && ValidKey(a.key))
    && (forall i, j :: 0 <= i < j < |configured| ==> configured[i].actionId != configured[j].actionId)
    && |configured| < TWO_TO_THE_64
  }

  predicate Runnable(a: Action) { a.enabled && a.kind.Some? }

  function Offered(configured: seq<Action>): (r: seq<Action>)
    ensures forall i :: 0 <= i < |r| ==> Runnable(r[i]) && r[i] in configured
    ensures |r| <= |configured|
  {
    if configured == [] then []
    else
      var n := |configured| - 1;
      Offered(configured[..n]) + if Runnable(configured[n]) then [configured[n]] else []
  }

  // ---------------------------------------------------------------- key ownership

  /** An earlier action holds this action's key. */
  predicate Taken(actions: seq<Action>, i: nat)
    requires i < |actions|
  {
    actions[i].key != Null && exists j :: 0 <= j < i && actions[j].key == actions[i].key
  }

  function ItemOf(actions: seq<Action>, i: nat): Item
    requires i < |actions| && Runnable(actions[i])
  {
    var a := actions[i];
    Item.Item(Str(TypeName(a.kind.value)), Str(a.actionId), Str(a.name), a.key, if Taken(actions, i) then Null else a.key, false)
  }

  ghost predicate ItemsOf(items: seq<Item>, actions: seq<Action>) {
    && |items| == |actions|
    && forall i :: 0 <= i < |items| ==> Runnable(actions[i]) && items[i] == ItemOf(actions, i)
  }

  method BuildItems(actions: seq<Action>) returns (items: seq<Item>)
    requires forall i :: 0 <= i < |actions| ==> Runnable(actions[i])
    ensures ItemsOf(items, actions)
  {
    items := [];
    var seen: set<Field> := {};
    var n := 0;
    while n < |actions|
      invariant 0 <= n <= |actions| && |items| == n
      invariant forall i :: 0 <= i < n ==> items[i] == ItemOf(actions, i)
      invariant forall k :: k in seen <==> k != Null && exists j :: 0 <= j < n && actions[j].key == k
    {
      var action := actions[n];
      var effectiveKey := if action.key !in seen then action.key else Null;
      items := items + [Item.Item(Str(TypeName(action.kind.value)), Str(action.actionId), Str(action.name), action.key, effectiveKey, false)];
      if action.key != Null {
        seen := seen + {action.key};
      }
      n := n + 1;
    }
  }

  /** The first action in configuration order with this key, if any: what a shortcut runs. */
  function FirstWithKey(actions: seq<Action>, key: Field): (i: nat)
    ensures i <= |actions| && (i < |actions| ==> actions[i].key == key)
    ensures forall j :: 0 <= j < i ==> actions[j].key != key
  {
    if actions == [] then 0 else if actions[0].key == key then 0 else 1 + FirstWithKey(actions[1..], key)
  }

  function FirstWithId(actions: seq<Action>, id: Text): (i: nat)
    ensures i <= |actions| && (i < |actions| ==> actions[i].actionId == id)
    ensures forall j :: 0 <= j < i ==> actions[j].actionId != id
  {
    if actions == [] then 0 else if actions[0].actionId == id then 0 else 1 + FirstWithId(actions[1..], id)
  }

  /** A shortcut runs exactly the action that shows its key as effective, and at most one does. */
  lemma ShownKeyRuns(actions: seq<Action>, items: seq<Item>, key: Field, i: nat)
    requires ItemsOf(items, actions) && key != Null && i < |actions|
    ensures items[i].effectiveKey == key <==> i == FirstWithKey(actions, key)
  {
    var first := FirstWithKey(actions, key);
    if actions[i].key == key && i != first {
      assert first < i && actions[first].key == actions[i].key;
      assert Taken(actions, i);
    }
  }

  // ---------------------------------------------------------------- pages

  function OfType(items: seq<Item>, t: ActionType): (r: seq<Item>)
    ensures |r| <= |items| && forall i :: 0 <= i < |r| ==> r[i].Item? && r[i].kind == Str(TypeName(t)) && r[i] in items
  {
    if items == [] then []
    else
      var n := |items| - 1;
      OfType(items[..n], t) + if items[n].Item? && items[n].kind == Str(TypeName(t)) then [items[n]] else []
  }

  /** The page at this offset of the list of one type. */
  function ServedPage(list: seq<Item>, t: ActionType, offset: nat): PageData
    requires InRange(offset, |list|)
  {
    var end := offset + Held(offset, |list|);
    Page(Str(TypeName(t)), Int(offset), Int(|list|), if end < |list| then Int(end) else Null, Some(list[offset..end]))
  }

  // ---------------------------------------------------------------- every action is listed, once and in order

  /** `r` is what `good` accepts of `all`: `at` gives the positions, all of them, in order. */
  ghost predicate Picks<T>(at: seq<nat>, all: seq<T>, r: seq<T>, good: T -> bool) {
    && |at| == |r| && (forall k :: 0 <= k < |at| ==> at[k] < |all| && r[k] == all[at[k]] && good(all[at[k]]))
    && (forall j, k :: 0 <= j < k < |at| ==> at[j] < at[k])
    && (forall i :: 0 <= i < |all| && good(all[i]) ==> i in at)
  }

  lemma PickOneMore<T>(at: seq<nat>, all: seq<T>, r: seq<T>, good: T -> bool)
    requires all != [] && Picks(at, all[..|all| - 1], r, good)
    ensures var n := |all| - 1;
            if good(all[n]) then Picks(at + [n], all, r + [all[n]], good) else Picks(at, all, r, good)
  {
    var n := |all| - 1;
    assert forall i :: 0 <= i < n ==> all[..n][i] == all[i];
    assert n in at + [n] && forall i :: i in at ==> i in at + [n];
  }

  const RUNNABLE: Action -> bool := a => Runnable(a)

  function IsOf(t: ActionType): Item -> bool { (item: Item) => item.Item? && item.kind == Str(TypeName(t)) }

  lemma {:induction false} OfferedPicks(configured: seq<Action>) returns (at: seq<nat>)
    ensures Picks(at, configured, Offered(configured), RUNNABLE)
  {
    at := [];
    if configured != [] {
      var n := |configured| - 1;
      at := OfferedPicks(configured[..n]);
      PickOneMore(at, configured, Offered(configured[..n]), RUNNABLE);
      if Runnable(configured[n]) { at := at + [n]; } else { assert Offered(configured) == Offered(configured[..n]); }
    }
  }

  lemma {:induction false} OfTypePicks(items: seq<Item>, t: ActionType) returns (at: seq<nat>)
    ensures Picks(at, items, OfType(items, t), IsOf(t))
  {
    at := [];
    if items != [] {
      var n := |items| - 1;
      at := OfTypePicks(items[..n], t);
      PickOneMore(at, items, OfType(items[..n], t), IsOf(t));
      if IsOf(t)(items[n]) { at := at + [n]; } else { assert OfType(items, t) == OfType(items[..n], t); }
    }
  }

  /** An action that can be listed: enabled and of this type. */
  predicate Lists(a: Action, t: ActionType) { a.enabled && a.kind == Some(t) }

  /** An earlier enabled action, of whichever type, has the key. */
  ghost predicate KeyGone(configured: seq<Action>, i: nat)
    requires i < |configured|
  {
    configured[i].key != Null && exists j :: 0 <= j < i && Runnable(configured[j]) && configured[j].key == configured[i].key
  }

  /** Configured action i as its directory shows it. */
  ghost predicate Shows(item: Item, configured: seq<Action>, i: nat, t: ActionType) {
    && i < |configured|
    && var a := configured[i];
       item == Item.Item(Str(TypeName(t)), Str(a.actionId), Str(a.name), a.key, if KeyGone(configured, i) then Null else a.key, false)
  }

  /** `at` is where the configuration has the actions of this type, in order; `list` shows them. */
  ghost predicate ListsAll(at: seq<nat>, list: seq<Item>, configured: seq<Action>, t: ActionType) {
    && |at| == |list| && (forall j, k :: 0 <= j < k < |at| ==> at[j] < at[k])
    && (forall i: nat :: i in at <==> i < |configured| && Lists(configured[i], t))
    && (forall k :: 0 <= k < |at| ==> Shows(list[k], configured, at[k], t))
  }

  lemma KeyGoneIsTaken(configured: seq<Action>, offered: seq<nat>, actions: seq<Action>, k: nat)
    requires Picks(offered, configured, actions, RUNNABLE) && k < |actions|
    ensures Taken(actions, k) <==> KeyGone(configured, offered[k])
  {
    var i := offered[k];
    if Taken(actions, k) {
      var a :| 0 <= a < k && actions[a].key == actions[k].key;
      assert Runnable(configured[offered[a]]) && configured[offered[a]].key == configured[i].key;
    }
    if KeyGone(configured, i) {
      var j :| 0 <= j < i && Runnable(configured[j]) && configured[j].key == configured[i].key;
      assert RUNNABLE(configured[j]);
      var a: nat :| a < |offered| && offered[a] == j;
      assert a < k && actions[a].key == actions[k].key;
    }
  }

  lemma ItemShows(configured: seq<Action>, offered: seq<nat>, actions: seq<Action>, item: Item, k: nat, t: ActionType)
    requires Picks(offered, configured, actions, RUNNABLE) && k < |actions| && Runnable(actions[k])
    requires item == ItemOf(actions, k) && IsOf(t)(item)
    ensures Shows(item, configured, offered[k], t) && Lists(configured[offered[k]], t)
  {
    TypeNamesDiffer();
    KeyGoneIsTaken(configured, offered, actions, k);
    assert actions[k] == configured[offered[k]];
  }

  /** For every configuration, the list of a type holds every enabled action of that type, once and in configuration order. */
  lemma CatalogListsAll(configured: seq<Action>, items: seq<Item>, t: ActionType) returns (at: seq<nat>)
    requires ItemsOf(items, Offered(configured))
    ensures ListsAll(at, OfType(items, t), configured, t)
  {
    var offered := OfferedPicks(configured);
    var chosen := OfTypePicks(items, t);
    at := PositionsComposed(configured, offered, Offered(configured), items, chosen, OfType(items, t), t);
  }

  lemma PositionsComposed(configured: seq<Action>, offered: seq<nat>, actions: seq<Action>, items: seq<Item>, chosen: seq<nat>,
                          list: seq<Item>, t: ActionType) returns (at: seq<nat>)
    requires Picks(offered, configured, actions, RUNNABLE) && ItemsOf(items, actions) && Picks(chosen, items, list, IsOf(t))
    ensures ListsAll(at, list, configured, t)
  {
    at := seq(|chosen|, k requires 0 <= k < |chosen| && chosen[k] < |offered| => offered[chosen[k]]);
    forall k | 0 <= k < |at| ensures Shows(list[k], configured, at[k], t) && Lists(configured[at[k]], t) {
      ItemShows(configured, offered, actions, items[chosen[k]], chosen[k], t);
    }
    forall i: nat | i < |configured| && Lists(configured[i], t) ensures i in at {
      var k := ListedSomewhere(configured, offered, actions, items, chosen, list, t, i);
      assert at[k] == i;
    }
  }

  lemma ListedSomewhere(configured: seq<Action>, offered: seq<nat>, actions: seq<Action>, items: seq<Item>, chosen: seq<nat>,
                        list: seq<Item>, t: ActionType, i: nat) returns (k: nat)
    requires Picks(offered, configured, actions, RUNNABLE) && ItemsOf(items, actions) && Picks(chosen, items, list, IsOf(t))
    requires i < |configured| && Lists(configured[i], t)
    ensures k < |chosen| && chosen[k] < |offered| && offered[chosen[k]] == i
  {
    assert RUNNABLE(configured[i]);
    var a: nat :| a < |offered| && offered[a] == i;
    assert items[a] == ItemOf(actions, a) && IsOf(t)(items[a]);
    k :| 0 <= k < |chosen| && chosen[k] == a;
  }

  ghost predicate DistinctIds(actions: seq<Action>) {
    forall i, j :: 0 <= i < j < |actions| ==> actions[i].actionId != actions[j].actionId
  }

  lemma {:induction false} OfferedDistinct(configured: seq<Action>)
    requires DistinctIds(configured)
    ensures forall i, j :: 0 <= i < j < |Offered(configured)| ==> Offered(configured)[i].actionId != Offered(configured)[j].actionId
  {
    if configured != [] {
      var n := |configured| - 1;
      assert DistinctIds(configured[..n]);
      OfferedDistinct(configured[..n]);
      var r := Offered(configured[..n]);
      forall i | 0 <= i < |r| ensures r[i].actionId != configured[n].actionId {
        var j :| 0 <= j < n && configured[..n][j] == r[i];
        assert configured[j] == r[i];
      }
    }
  }

  /** The items are well-formed and their identities distinct. */
  ghost predicate GoodItems(items: seq<Item>) {
    && (forall i :: 0 <= i < |items| ==> items[i].Item? && KnownType(items[i].kind) && ValidItem(items[i], items[i].kind))
    && (forall i, j :: 0 <= i < j < |items| ==> items[i].actionId != items[j].actionId)
  }

  lemma ItemsAreGood(configured: seq<Action>, items: seq<Item>)
    requires ValidConfig(configured) && ItemsOf(items, Offered(configured))
    ensures GoodItems(items) && |items| < TWO_TO_THE_64
  {
    var actions := Offered(configured);
    TypeNamesDiffer();
    forall i | 0 <= i < |items| ensures items[i].Item? && KnownType(items[i].kind) && ValidItem(items[i], items[i].kind) {
      var j :| 0 <= j < |configured| && configured[j] == actions[i];
      assert items[i] == ItemOf(actions, i);
    }
    OfferedDistinct(configured);
    forall i, j | 0 <= i < j < |items| ensures items[i].actionId != items[j].actionId {
      assert items[i] == ItemOf(actions, i) && items[j] == ItemOf(actions, j);
    }
  }

  lemma {:induction false} OfTypeGood(items: seq<Item>, t: ActionType)
    requires GoodItems(items)
    ensures ValidItems(OfType(items, t), Str(TypeName(t)))
  {
    if items != [] {
      var n := |items| - 1;
      OfTypeGood(items[..n], t);
      var before := OfType(items[..n], t);
      forall i | 0 <= i < |before| ensures before[i].actionId != items[n].actionId {
        var j :| 0 <= j < n && items[..n][j] == before[i];
        assert items[j] == before[i];
      }
      assert KnownType(items[n].kind) && ValidItem(items[n], items[n].kind);
      if items[n].kind == Str(TypeName(t)) { OneMoreGood(before, items[n], Str(TypeName(t))); }
    }
  }

  lemma OneMoreGood(before: seq<Item>, item: Item, kind: Field)
    requires ValidItems(before, kind) && ValidItem(item, kind) && forall i :: 0 <= i < |before| ==> before[i].actionId != item.actionId
    ensures ValidItems(before + [item], kind)
  {}

  lemma SliceGood(list: seq<Item>, kind: Field, from: nat, to: nat)
    requires ValidItems(list, kind) && from <= to <= |list|
    ensures ValidItems(list[from..to], kind)
  {
    var slice := list[from..to];
    assert forall i :: 0 <= i < |slice| ==> slice[i] == list[from + i];
  }

  lemma ServedWindow(list: seq<Item>, t: ActionType, offset: nat)
    requires offset % PAGE_SIZE == 0 && InRange(offset, |list|) && |list| < TWO_TO_THE_64
    ensures ValidPagination(ServedPage(list, t, offset))
  {}

  lemma ListGood(configured: seq<Action>, items: seq<Item>, t: ActionType)
    requires ValidConfig(configured) && ItemsOf(items, Offered(configured))
    ensures ValidItems(OfType(items, t), Str(TypeName(t))) && |OfType(items, t)| < TWO_TO_THE_64
  {
    ItemsAreGood(configured, items);
    OfTypeGood(items, t);
  }

  lemma PageOfGoodList(list: seq<Item>, t: ActionType, offset: nat)
    requires ValidItems(list, Str(TypeName(t))) && |list| < TWO_TO_THE_64
    requires offset % PAGE_SIZE == 0 && InRange(offset, |list|)
    ensures ValidPage(ServedPage(list, t, offset))
  {
    ServedWindow(list, t, offset);
    SliceGood(list, Str(TypeName(t)), offset, offset + Held(offset, |list|));
  }

  /** Whatever the configuration and the offset, a served page passes the validator of the wire. */
  lemma ServedPageValid(configured: seq<Action>, items: seq<Item>, t: ActionType, offset: nat)
    requires ValidConfig(configured) && ItemsOf(items, Offered(configured))
    requires offset % PAGE_SIZE == 0 && InRange(offset, |OfType(items, t)|)
    ensures ValidPage(ServedPage(OfType(items, t), t, offset))
  {
    ListGood(configured, items, t);
    PageOfGoodList(OfType(items, t), t, offset);
  }

  // ---------------------------------------------------------------- replies

  datatype Result = Plain(code: Code) | Listed(page: PageData) | Executed(code: Code, data: ExecutionData)

  datatype Encoding = Encoded(line: seq<byte>) | TooLong | Unencodable

  /** How a run ended, as the adapters report it. */
  datatype Outcome = ScriptDone(code: Code, exitCode: Option<int>)
    | PasteDone(code: Code, reason: Field, written: Option<bool>, sent: Option<bool>)
    | Raised

  datatype Begun = Answered(result: Result) | Occupied(action: Action)

  function Nullable(b: Option<bool>): Field {
    if b.Some? then Bool(b.value) else Null
  }

  /** The record of one resolved action. */
  function Record(a: Action, exitCode: Field, written: Field, sent: Field, reason: Field): ExecutionData
    requires a.kind.Some?
  {
    Execution(Str(TypeName(a.kind.value)), Str(a.actionId), Str(a.name), exitCode, written, sent, reason, false)
  }

  function Unresolved(a: Action): ExecutionData
    requires a.kind.Some?
  {
    var step := if a.kind.value == Clipboard then Bool(false) else Null;
    Record(a, Null, step, step, Str(Ascii("UNAVAILABLE")))
  }

  function ScriptReason(code: Code): Field {
    if code == OK then Null else if code == TIMEOUT then Str(Ascii("UNCONFIRMED")) else Str(Ascii("EXECUTION_FAILED"))
  }

  function Unconfirmed(a: Action): ExecutionData
    requires a.kind.Some?
  {
    Record(a, Null, Null, Null, Str(Ascii("UNCONFIRMED")))
  }

  /** The record built from what the adapter of the action's type reported. */
  function Reported(a: Action, o: Outcome): ExecutionData
    requires a.kind.Some?
  {
    match o
    case ScriptDone(code, exitCode) =>
      Record(a, if exitCode.Some? then Int(exitCode.value) else Null, Null, Null, ScriptReason(code))
    case PasteDone(code, reason, written, sent) => Record(a, Null, Nullable(written), Nullable(sent), reason)
    case Raised => Unconfirmed(a)
  }

  predicate Fits(a: Action, o: Outcome) {
    a.kind.Some? && (o.ScriptDone? ==> a.kind.value == Script && o.code in {OK, TIMEOUT, ERROR})
    && (o.PasteDone? ==> a.kind.value == Clipboard)
  }

  /** What is sent back in the end: the record of what was reported if it validates, the unconfirmed one otherwise. */
  ghost function Finished(a: Action, o: Outcome): Result
    requires a.kind.Some?
  {
    if !o.Raised? && ValidExecution(o.code, Reported(a, o)) then Executed(o.code, Reported(a, o)) else Executed(ERROR, Unconfirmed(a))
  }

  method ValidateExecution(code: Code, data: ExecutionData) returns (ok: bool)
    ensures ok <==> ValidExecution(code, data)
  {
    TypeNamesDiffer();
    if code.OtherCode? {
      return false;
    }
    if data == NullData && code != OK {
      return true;
    }
    if !data.Execution? || data.exitCode == Absent || data.written == Absent || data.sent == Absent || data.reason == Absent
       || !((Names(data.kind, Script) && ActionContract.ValidActionId(data.actionId, Script))
            || (Names(data.kind, Clipboard) && ActionContract.ValidActionId(data.actionId, Clipboard)))
       || !data.name.Str? || data.hasPrivate {
      return false;
    }
    var named := CheckName(data.name.s);
    if !named || (data.reason != Null && (!data.reason.Str? || data.reason.s !in FailureReasons()))
       || (code == OK && data.reason != Null) {
      return false;
    }
    if Names(data.kind, Script) {
      return ValidScriptOutcome(code, data);
    }
    return ValidClipboardOutcome(code, data);
  }

  /** The envelope strings of a directory page. */
  const PAGE_MESSAGE: Text := [0x52A8, 0x4F5C, 0x76EE, 0x5F55]
  const MAX_JSON_BYTES: nat := 4096

  function Requested(kind: Field): ActionType { if Names(kind, Script) then Script else Clipboard }

  /** What a directory request gets: the page it asks for, an error, or nothing when the encoder raises. */
  function Directory(items: seq<Item>, supported: set<ActionType>, execId: Text, payload: map<string, Field>): Option<Result> {
    if !ValidRequest(Request.ListActions, payload) then Some(Plain(ERROR))
    else
      var t, offset := Requested(payload["type"]), payload["offset"].n;
      var list := OfType(items, t);
      if t !in supported || !InRange(offset, |list|) then Some(Plain(ERROR))
      else
        match EncodeMessage(execId, ServedPage(list, t, offset))
        case Encoded(_) => Some(Listed(ServedPage(list, t, offset)))
        case TooLong => Some(Plain(ERROR))
        case Unencodable => None
  }

  /** The action a request names, in configuration order. */
  function Resolved(actions: seq<Action>, request: Request, payload: map<string, Field>): (i: nat)
    requires request != Request.ListActions && ValidRequest(request, payload)
    ensures i <= |actions|
  {
    if request == Execute then FirstWithId(actions, payload["actionId"].s) else FirstWithKey(actions, payload["key"])
  }

  /** `handle` up to its first await: malformed and unknown before busy, busy before unavailable. */
  function Begins(actions: seq<Action>, supported: set<ActionType>, busy: bool, request: Request, payload: map<string, Field>): Begun
    requires request != Request.ListActions && forall i :: 0 <= i < |actions| ==> Runnable(actions[i])
  {
    if !ValidRequest(request, payload) || Resolved(actions, request, payload) == |actions| then Answered(Plain(ERROR))
    else if busy then Answered(Plain(BUSY))
    else
      var action := actions[Resolved(actions, request, payload)];
      assert Runnable(action);
      if action.kind.value !in supported then Answered(Executed(ERROR, Unresolved(action))) else Occupied(action)
  }

  /** What occupies the runner is a configured, available action: the one with that identity, or the one showing that key. */
  lemma OccupiedIsNamed(actions: seq<Action>, items: seq<Item>, supported: set<ActionType>, busy: bool, request: Request,
                        payload: map<string, Field>, r: Begun)
    requires ItemsOf(items, actions) && request != Request.ListActions && forall i :: 0 <= i < |actions| ==> Runnable(actions[i])
    requires r == Begins(actions, supported, busy, request, payload) && r.Occupied?
    ensures !busy && r.action in actions && r.action.kind.Some? && r.action.kind.value in supported && ValidRequest(request, payload)
    ensures request == Execute ==> Str(r.action.actionId) == payload["actionId"]
    ensures request == Shortcut ==> exists i :: 0 <= i < |items| && actions[i] == r.action && items[i].effectiveKey == payload["key"]
  {
    var i := Resolved(actions, request, payload);
    if request == Shortcut { ShownKeyRuns(actions, items, payload["key"], i); }
  }

  lemma RefusalIsValid(configured: seq<Action>, supported: set<ActionType>, busy: bool, request: Request, payload: map<string, Field>, r: Begun)
    requires ValidConfig(configured) && request != Request.ListActions
    requires r == Begins(Offered(configured), supported, busy, request, payload) && r.Answered? && r.result.Executed?
    ensures ValidExecution(r.result.code, r.result.data)
  {
    UnresolvedIsValid(configured, Offered(configured)[Resolved(Offered(configured), request, payload)]);
  }

  /** Configured action i can be run and is what the request names. */
  ghost predicate NamedBy(a: Action, request: Request, payload: map<string, Field>)
    requires request != Request.ListActions && ValidRequest(request, payload)
  {
    Runnable(a) && if request == Execute then Str(a.actionId) == payload["actionId"] else a.key == payload["key"]
  }

  /** No step of an action of a type that is not available has been taken. */
  ghost predicate Untaken(data: ExecutionData, a: Action)
    requires a.kind.Some?
  {
    && data.Execution? && data.kind == Str(TypeName(a.kind.value)) && data.actionId == Str(a.actionId) && data.name == Str(a.name)
    && data.exitCode == Null && data.reason == Str(Ascii("UNAVAILABLE")) && !data.hasPrivate
    && data.written == data.sent == if a.kind == Some(Clipboard) then Bool(false) else Null
  }

  /**
   What a request to run something gets up to the first await, for every configuration: an error if it is malformed or names no
   enabled action, then busy, then the record of an unavailable type; otherwise the first action it names, number i, has the runner.
   */
  lemma BeginsExactly(configured: seq<Action>, supported: set<ActionType>, busy: bool, request: Request, payload: map<string, Field>)
    returns (i: nat)
    requires request != Request.ListActions
    ensures var r := Begins(Offered(configured), supported, busy, request, payload);
            if !ValidRequest(request, payload) || forall j :: 0 <= j < |configured| ==> !NamedBy(configured[j], request, payload)
            then r == Answered(Plain(ERROR))
            else if busy then r == Answered(Plain(BUSY))
            else i < |configured| && RunsFirst(configured, i, supported, request, payload, r)
  {
    i := 0;
    if ValidRequest(request, payload) {
      var at := OfferedPicks(configured);
      i := BeginsNamed(configured, at, Offered(configured), supported, busy, request, payload);
    }
  }

  lemma BeginsNamed(configured: seq<Action>, at: seq<nat>, actions: seq<Action>, supported: set<ActionType>, busy: bool, request: Request,
                    payload: map<string, Field>) returns (i: nat)
    requires Picks(at, configured, actions, RUNNABLE) && request != Request.ListActions && ValidRequest(request, payload)
    requires forall k :: 0 <= k < |actions| ==> Runnable(actions[k])
    ensures var r := Begins(actions, supported, busy, request, payload);
            if forall j :: 0 <= j < |configured| ==> !NamedBy(configured[j], request, payload) then r == Answered(Plain(ERROR))
            else if busy then r == Answered(Plain(BUSY))
            else i < |configured| && RunsFirst(configured, i, supported, request, payload, r)
  {
    i := 0;
    var first := Resolved(actions, request, payload);
    if first < |actions| {
      i := at[first];
      assert actions[first] == configured[i] && NamedBy(configured[i], request, payload);
      FirstNamed(configured, at, actions, first, request, payload);
    } else {
      NoneNamed(configured, at, actions, request, payload);
    }
  }

  ghost predicate RunsFirst(configured: seq<Action>, i: nat, supported: set<ActionType>, request: Request, payload: map<string, Field>, r: Begun)
    requires i < |configured| && request != Request.ListActions && ValidRequest(request, payload)
  {
    && NamedBy(configured[i], request, payload) && (forall j :: 0 <= j < i ==> !NamedBy(configured[j], request, payload))
    && if configured[i].kind.value in supported then r == Occupied(configured[i])
       else r.Answered? && r.result.Executed? && r.result.code == ERROR && Untaken(r.result.data, configured[i])
  }

  lemma OfferedAt(configured: seq<Action>, at: seq<nat>, actions: seq<Action>, i: nat) returns (k: nat)
    requires Picks(at, configured, actions, RUNNABLE) && i < |configured| && Runnable(configured[i])
    ensures k < |actions| && at[k] == i && actions[k] == configured[i] && forall f :: 0 <= f < |at| && i < at[f] ==> k < f
  {
    assert RUNNABLE(configured[i]);
    k :| 0 <= k < |at| && at[k] == i;
  }

  lemma NoneNamed(configured: seq<Action>, at: seq<nat>, actions: seq<Action>, request: Request, payload: map<string, Field>)
    requires Picks(at, configured, actions, RUNNABLE) && request != Request.ListActions && ValidRequest(request, payload)
    requires Resolved(actions, request, payload) == |actions|
    ensures forall i :: 0 <= i < |configured| ==> !NamedBy(configured[i], request, payload)
  {
    forall i | 0 <= i < |configured| ensures !NamedBy(configured[i], request, payload) {
      if Runnable(configured[i]) { var _ := OfferedAt(configured, at, actions, i); }
    }
  }

  lemma FirstNamed(configured: seq<Action>, at: seq<nat>, actions: seq<Action>, first: nat, request: Request, payload: map<string, Field>)
    requires Picks(at, configured, actions, RUNNABLE) && request != Request.ListActions && ValidRequest(request, payload)
    requires first == Resolved(actions, request, payload) < |actions|
    ensures forall j :: 0 <= j < at[first] ==> !NamedBy(configured[j], request, payload)
  {
    forall j | 0 <= j < at[first] ensures !NamedBy(configured[j], request, payload) {
      if Runnable(configured[j]) { var _ := OfferedAt(configured, at, actions, j); }
    }
  }

  class ActionsModule {
    const configured: seq<Action>
    const actions: seq<Action>
    const items: seq<Item>
    var supported: set<ActionType>
    var busy: bool

    ghost predicate Valid()
      reads this
    {
      ValidConfig(configured) && actions == Offered(configured) && ItemsOf(items, actions)
    }

    constructor (configured: seq<Action>, supported: set<ActionType>)
      requires ValidConfig(configured)
      ensures Valid() && this.configured == configured && this.supported == supported && !busy
    {
      this.configured := configured;
      this.supported := supported;
      busy := false;
      var offered := Offered(configured);
      actions := offered;
      var built := BuildItems(offered);
      items := built;
    }

    /** `list_actions`: the page, or why there is none; None when the encoder itself raises. */
    method ListActions(execId: Text, payload: map<string, Field>) returns (r: Option<Result>)
      requires Valid()
      ensures r == Directory(items, supported, execId, payload)
    {
      if !ValidRequest(Request.ListActions, payload) {
        return Some(Plain(ERROR));
      }
      var t, offset := Requested(payload["type"]), payload["offset"].n;
      if t !in supported {
        return Some(Plain(ERROR));
      }
      var page := PageOf(OfType(items, t), t, offset);
      if page.None? {
        return Some(Plain(ERROR));
      }
      match EncodeMessage(execId, page.value)
      case Encoded(_) => return Some(Listed(page.value));
      case TooLong => return Some(Plain(ERROR));
      case Unencodable => return None;
    }

    /** The window of the list, if the offset lies in it. */
    method PageOf(list: seq<Item>, t: ActionType, offset: nat) returns (page: Option<PageData>)
      ensures page == if InRange(offset, |list|) then Some(ServedPage(list, t, offset)) else None
    {
      var total := |list|;
      if if total != 0 then offset >= total else offset != 0 {
        return None;
      }
      var end := Min(offset + PAGE_SIZE, total);
      return Some(Page(Str(TypeName(t)), Int(offset), Int(total), if end < total then Int(end) else Null, Some(list[offset..end])));
    }

    /** `handle` up to its first await. */
    method Begin(request: Request, payload: map<string, Field>) returns (r: Begun)
      requires Valid() && request != Request.ListActions
      modifies this`busy
      ensures Valid()
      ensures r == Begins(actions, supported, old(busy), request, payload)
      ensures busy <==> old(busy) || r.Occupied?
    {
      if !ValidRequest(request, payload) {
        return Answered(Plain(ERROR));
      }
      var i := if request == Execute then FirstWithId(actions, payload["actionId"].s) else FirstWithKey(actions, payload["key"]);
      if i == |actions| {
        return Answered(Plain(ERROR));
      }
      if busy {
        return Answered(Plain(BUSY));
      }
      var action := actions[i];
      if action.kind.value !in supported {
        return Answered(Executed(ERROR, Unresolved(action)));
      }
      busy := true;
      return Occupied(action);
    }

    /** The rest of `handle` when the run returned or raised: a record that validates, or the unconfirmed one. */
    method Finish(action: Action, o: Outcome) returns (r: Result)
      requires Valid() && busy && Runnable(action) && action in configured && Fits(action, o)
      modifies this`busy
      ensures Valid() && !busy
      ensures r == Finished(action, o)
      ensures ValidExecution(r.code, r.data)
    {
      UnconfirmedIsValid(configured, action);
      busy := false;
      if o.Raised? {
        return Executed(ERROR, Unconfirmed(action));
      }
      var valid := ValidateExecution(o.code, Reported(action, o));
      if !valid {
        return Executed(ERROR, Unconfirmed(action));
      }
      return Executed(o.code, Reported(action, o));
    }

    /** The rest of `handle` when the run was cancelled: no reply, but the slot is free again. */
    method Cancel()
      requires Valid() && busy
      modifies this`busy
      ensures Valid() && !busy
    {
      busy := false;
    }
  }

  lemma IdentityValid(configured: seq<Action>, a: Action, exitCode: Field, written: Field, sent: Field, reason: Field)
    requires ValidConfig(configured) && Runnable(a) && a in configured
    requires exitCode != Absent && written != Absent && sent != Absent && reason != Absent
    ensures ValidIdentity(Record(a, exitCode, written, sent, reason))
  {
    TypeNamesDiffer();
    var i :| 0 <= i < |configured| && configured[i] == a;
  }

  lemma UnresolvedIsValid(configured: seq<Action>, a: Action)
    requires ValidConfig(configured) && Runnable(a) && a in configured
    ensures ValidExecution(ERROR, Unresolved(a))
  {
    TypeNamesDiffer();
    var step := if a.kind.value == Clipboard then Bool(false) else Null;
    IdentityValid(configured, a, Null, step, step, Str(Ascii("UNAVAILABLE")));
  }

  lemma UnconfirmedIsValid(configured: seq<Action>, a: Action)
    requires ValidConfig(configured) && Runnable(a) && a in configured
    ensures ValidExecution(ERROR, Unconfirmed(a))
  {
    TypeNamesDiffer();
    IdentityValid(configured, a, Null, Null, Null, Str(Ascii("UNCONFIRMED")));
  }

  // ---------------------------------------------------------------- the encoded page

  function Quoted(s: Text): seq<byte> { [QUOTE] + Escaped(Utf8.EncodeAll(s)) + [QUOTE] }

  function Value(f: Field): seq<byte> {
    match f
    case Str(s) => Quoted(s)
    case Int(n) => if n >= 0 then Decimal(n) else Literal("-") + Decimal(-n)
    case Bool(b) => if b then Literal("true") else Literal("false")
    case _ => Literal("null")
  }

  function ItemText(item: Item): seq<byte>
    requires item.Item?
  {
    Object([Member("type", Value(item.kind)), Member("actionId", Value(item.actionId)), Member("name", Value(item.name)),
            Member("key", Value(item.key)), Member("effectiveKey", Value(item.effectiveKey))])
  }

  function ItemTexts(items: seq<Item>): (r: seq<seq<byte>>)
    requires forall i :: 0 <= i < |items| ==> items[i].Item?
    ensures |r| == |items|
  {
    seq(|items|, i requires 0 <= i < |items| => ItemText(items[i]))
  }

  function DataText(page: PageData): seq<byte>
    requires page.Page? && page.actions.Some? && forall i :: 0 <= i < |page.actions.value| ==> page.actions.value[i].Item?
  {
    Object([Member("type", Value(page.kind)), Member("offset", Value(page.offset)), Member("total", Value(page.total)),
            Member("nextOffset", Value(page.nextOffset)), Member("actions", List(ItemTexts(page.actions.value)))])
  }

  function ResultText(data: seq<byte>): seq<byte> {
    Object([Member("code", Word("OK")), Member("msg", Quoted(PAGE_MESSAGE)), Member("data", data)])
  }

  /** The response object, in the order its fields are built. */
  function ResponseText(execId: Text, data: seq<byte>): seq<byte> {
    Object([Member("event", Word("response")), Member("actionId", Word("actions.list")),
            Member("execId", Quoted(execId)), Member("result", ResultText(data))])
  }

  predicate Encodable(s: Text) { forall i :: 0 <= i < |s| ==> Utf8.Scalar(s[i]) }

  /** `encode_message` of a directory page: UTF-8 fails on a lone surrogate, and the line has a limit. */
  function EncodeMessage(execId: Text, page: PageData): Encoding
    requires page.Page? && page.actions.Some? && forall i :: 0 <= i < |page.actions.value| ==> page.actions.value[i].Item?
  {
    if !Encodable(execId) || exists i :: 0 <= i < |page.actions.value| && page.actions.value[i].name.Str? && !Encodable(page.actions.value[i].name.s)
    then Unencodable
    else
      var line := ResponseText(execId, DataText(page));
      if |line| > MAX_JSON_BYTES then TooLong else Encoded(line)
  }
}
