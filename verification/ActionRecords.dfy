/** Action messages as both ends see them once the JSON text has been parsed. */
module ActionRecords {
  import opened Common
  import Utf8

  /** A parsed string: code points, lone surrogates among them. */
  type Text = s: seq<nat> | forall i :: 0 <= i < |s| ==> Utf8.CodePoint(s[i])

  /** A field of a parsed object. `Other` is any number that is no integer, an array or an object. */
  datatype Field = Absent | Null | Bool(b: bool) | Int(n: int) | Str(s: Text) | Other

  datatype ActionType = Script | Clipboard

  datatype Item = NotAnObject
    | Item(kind: Field, actionId: Field, name: Field, key: Field, effectiveKey: Field, hasPrivate: bool)

  /** `actions` is absent when the field is no array. */
  datatype PageData = NotAnObject
    | Page(kind: Field, offset: Field, total: Field, nextOffset: Field, actions: Option<seq<Item>>)

  datatype ExecutionData = NullData | NotAnObject
    | Execution(kind: Field, actionId: Field, name: Field, exitCode: Field,
                written: Field, sent: Field, reason: Field, hasPrivate: bool)

  datatype Code = OK | ERROR | BUSY | TIMEOUT | OtherCode

  /** The three requests and their parsed payload objects. */
  datatype Request = ListActions | Execute | Shortcut

  const PAGE_SIZE: nat := 8

  /** A page may start here; an empty list still has its empty first page. */
  predicate InRange(offset: nat, total: nat) { if total == 0 then offset == 0 else offset < total }

  /** How many items the page at this offset holds. */
  function Held(offset: nat, total: nat): nat
    requires InRange(offset, total)
  {
    if total - offset < PAGE_SIZE then total - offset else PAGE_SIZE
  }

  /** The code points of a literal. */
  function Ascii(s: string): (t: Text)
    ensures |t| == |s|
  {
    seq(|s|, i requires 0 <= i < |s| => s[i] as int)
  }

  function TypeName(t: ActionType): Text {
    if t == Script then Ascii("script") else Ascii("clipboard")
  }

  predicate IdCharacter(c: nat) {
    'A' as int <= c <= 'Z' as int || 'a' as int <= c <= 'z' as int || '0' as int <= c <= '9' as int
    || c == '_' as int || c == '.' as int || c == '-' as int
  }

  predicate Letter(c: nat) { 'a' as int <= c <= 'z' as int }

  function FailureReasons(): set<Text> {
    {Ascii("UNAVAILABLE"), Ascii("PERMISSION_DENIED"), Ascii("WRITE_FAILED"), Ascii("PASTE_FAILED"),
     Ascii("UNCONFIRMED"), Ascii("EXECUTION_FAILED")}
  }
}
