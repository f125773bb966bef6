/** One-level JSON objects of strings and whole numbers: the shape of the configuration files. */
module FlatJson {
  import opened Common
  import opened JsonText

  datatype Scalar = Text(s: seq<byte>) | Number(n: nat)

  datatype Field = Field(key: seq<byte>, value: Scalar)

  // ---------------------------------------------------------------- printing

  function ScalarText(v: Scalar): seq<byte> {
    match v
    case Text(s) => [QUOTE] + Escaped(s) + [QUOTE]
    case Number(n) => Decimal(n)
  }

  function FieldText(f: Field): seq<byte> { [QUOTE] + Escaped(f.key) + [QUOTE, COLON] + ScalarText(f.value) }

  /** The fields after the opening brace, the closing one included. */
  function FieldsText(fields: seq<Field>): seq<byte>
    requires fields != []
  {
    if |fields| == 1 then FieldText(fields[0]) + [CLOSE] else FieldText(fields[0]) + [COMMA] + FieldsText(fields[1..])
  }

  function ObjectText(fields: seq<Field>): seq<byte>
    requires fields != []
  {
    [OPEN] + FieldsText(fields)
  }

  // ---------------------------------------------------------------- parsing

  predicate White(b: byte) { b == 0x20 || b == 0x09 || b == LF || b == CR }

  function Skip(t: seq<byte>): (r: seq<byte>)
    ensures |r| <= |t| && (r != [] ==> !White(r[0]))
    ensures t != [] && !White(t[0]) ==> r == t
  {
    if t != [] && White(t[0]) then Skip(t[1..]) else t
  }

  lemma {:induction false} UnescapedShrinks(t: seq<byte>)
    ensures Unescaped(t).Some? ==> |Unescaped(t).value.1| < |t|
    decreases |t|
  {
    if t != [] && t[0] != QUOTE && UnescapedFirst(t).Some? {
      UnescapedShrinks(t[UnescapedFirst(t).value.1..]);
    }
  }

  lemma {:induction false} DigitsShrink(t: seq<byte>, so: nat)
    ensures |ReadDigits(t, so).1| <= |t|
  {
    if t != [] && Digit(t[0]) { DigitsShrink(t[1..], so * 10 + (t[0] - '0' as int)); }
  }

  function ParseString(t: seq<byte>): (r: Option<(seq<byte>, seq<byte>)>)
    ensures r.Some? ==> |r.value.1| < |t|
  {
    if t == [] || t[0] != QUOTE then None
    else
      UnescapedShrinks(t[1..]);
      Unescaped(t[1..])
  }

  function ParseScalar(t: seq<byte>): (r: Option<(Scalar, seq<byte>)>)
    ensures r.Some? ==> |r.value.1| <= |t|
  {
    if t == [] then None
    else if t[0] == QUOTE then
      var s := ParseString(t);
      if s.None? then None else Some((Text(s.value.0), s.value.1))
    else if Digit(t[0]) then
      DigitsShrink(t, 0);
      Some((Number(ReadDigits(t, 0).0), ReadDigits(t, 0).1))
    else None
  }

  /** One key and its value, and what follows them. */
  function ParseField(t: seq<byte>): (r: Option<(Field, seq<byte>)>)
    ensures r.Some? ==> |r.value.1| < |t|
  {
    var key := ParseString(Skip(t));
    if key.None? then None
    else
      var colon := Skip(key.value.1);
      if colon == [] || colon[0] != COLON then None
      else
        var value := ParseScalar(Skip(colon[1..]));
        if value.None? then None else Some((Field(key.value.0, value.value.0), Skip(value.value.1)))
  }

  function ParseFields(t: seq<byte>): Option<(seq<Field>, seq<byte>)>
    decreases |t|
  {
    var first := ParseField(t);
    if first.None? || first.value.1 == [] then None
    else
      var (field, rest) := first.value;
      if rest[0] == CLOSE then Some(([field], rest[1..]))
      else if rest[0] != COMMA then None
      else
        var more := ParseFields(rest[1..]);
        if more.None? then None else Some(([field] + more.value.0, more.value.1))
  }

  /** A whole document: one object and nothing but white space around it. */
  function ParseObject(t: seq<byte>): Option<seq<Field>> {
    var t := Skip(t);
    if t == [] || t[0] != OPEN then None
    else
      var body := Skip(t[1..]);
      if body != [] && body[0] == CLOSE then if Skip(body[1..]) == [] then Some([]) else None
      else
        var fields := ParseFields(body);
        if fields.None? || Skip(fields.value.1) != [] then None else Some(fields.value.0)
  }

  // ---------------------------------------------------------------- round trip

  lemma StringBack(s: seq<byte>, rest: seq<byte>, t: seq<byte>)
    requires t == [QUOTE] + (Escaped(s) + ([QUOTE] + rest))
    ensures ParseString(t) == Some((s, rest))
  {
    assert t[1..] == Escaped(s) + ([QUOTE] + rest);
    UnescapeEscaped(s, rest);
  }

  lemma TextBack(s: seq<byte>, rest: seq<byte>)
    ensures ParseScalar(ScalarText(Text(s)) + rest) == Some((Text(s), rest)) && ScalarText(Text(s))[0] == QUOTE
  {
    var t := ScalarText(Text(s)) + rest;
    assert t == [QUOTE] + (Escaped(s) + ([QUOTE] + rest));
    StringBack(s, rest, t);
  }

  lemma NumberBack(n: nat, rest: seq<byte>)
    requires rest == [] || !Digit(rest[0])
    ensures ScalarText(Number(n)) != [] && Digit(ScalarText(Number(n))[0]) && ParseScalar(ScalarText(Number(n)) + rest) == Some((Number(n), rest))
  {
    var t := Decimal(n) + rest;
    DecimalDigits(n);
    assert t[0] == Decimal(n)[0];
    ReadDecimal(n, rest);
  }

  lemma ScalarBack(v: Scalar, rest: seq<byte>)
    requires rest == [] || !Digit(rest[0])
    ensures ScalarText(v) != [] && !White(ScalarText(v)[0]) && ParseScalar(ScalarText(v) + rest) == Some((v, rest))
  {
    match v
    case Text(s) => TextBack(s, rest);
    case Number(n) => NumberBack(n, rest);
  }

  lemma ValueBack(f: Field, value: seq<byte>, rest: seq<byte>, tail: seq<byte>, t: seq<byte>)
    requires t != [] && t[0] == QUOTE && ParseString(t) == Some((f.key, tail)) && tail == [COLON] + value
    requires value != [] && !White(value[0]) && ParseScalar(value) == Some((f.value, rest)) && (rest == [] || !White(rest[0]))
    ensures ParseField(t) == Some((f, rest))
  {
    assert tail[1..] == value;
  }

  lemma FieldBack(f: Field, rest: seq<byte>)
    requires rest != [] && !Digit(rest[0]) && !White(rest[0])
    ensures FieldText(f) != [] && FieldText(f)[0] == QUOTE && ParseField(FieldText(f) + rest) == Some((f, rest))
  {
    var value := ScalarText(f.value) + rest;
    var tail := [COLON] + value;
    var t := FieldText(f) + rest;
    FieldShape(f, rest, tail);
    StringBack(f.key, tail, t);
    ScalarBack(f.value, rest);
    ValueBack(f, value, rest, tail, t);
  }

  lemma FieldShape(f: Field, rest: seq<byte>, tail: seq<byte>)
    requires tail == [COLON] + (ScalarText(f.value) + rest)
    ensures FieldText(f) + rest == [QUOTE] + (Escaped(f.key) + ([QUOTE] + tail))
  {}

  lemma LastBack(f: Field, t: seq<byte>)
    requires t == FieldText(f) + [CLOSE]
    ensures t != [] && t[0] == QUOTE && ParseFields(t) == Some(([f], []))
  {
    FieldBack(f, [CLOSE]);
    assert [CLOSE][1..] == [];
  }

  lemma NextBack(f: Field, more: seq<Field>, moreText: seq<byte>, t: seq<byte>)
    requires ParseFields(moreText) == Some((more, [])) && t == FieldText(f) + ([COMMA] + moreText)
    ensures t != [] && t[0] == QUOTE && ParseFields(t) == Some(([f] + more, []))
  {
    FieldBack(f, [COMMA] + moreText);
    assert ([COMMA] + moreText)[1..] == moreText;
  }

  lemma OneFieldText(fields: seq<Field>)
    requires |fields| == 1
    ensures FieldsText(fields) == FieldText(fields[0]) + [CLOSE]
  {}

  lemma MoreFieldsText(fields: seq<Field>, first: seq<byte>, more: seq<byte>)
    requires |fields| > 1 && first == FieldText(fields[0]) && more == FieldsText(fields[1..])
    ensures FieldsText(fields) == first + ([COMMA] + more)
  {
    Regroup(first, [COMMA], more);
  }

  lemma MoreBack(fields: seq<Field>, rest: seq<Field>, more: seq<byte>, t: seq<byte>)
    requires |fields| > 1 && rest == fields[1..] && more == FieldsText(rest) && t == FieldsText(fields)
    requires ParseFields(more) == Some((rest, []))
    ensures t != [] && t[0] == QUOTE && ParseFields(t) == Some((fields, []))
  {
    MoreFieldsText(fields, FieldText(fields[0]), more);
    NextBack(fields[0], rest, more, t);
    assert fields == [fields[0]] + rest;
  }

  lemma {:induction false} FieldsBack(fields: seq<Field>)
    requires fields != []
    ensures FieldsText(fields) != [] && FieldsText(fields)[0] == QUOTE && ParseFields(FieldsText(fields)) == Some((fields, []))
  {
    if |fields| == 1 {
      OneFieldText(fields);
      LastBack(fields[0], FieldsText(fields));
      assert fields == [fields[0]];
    } else {
      FieldsBack(fields[1..]);
      MoreBack(fields, fields[1..], FieldsText(fields[1..]), FieldsText(fields));
    }
  }

  /** Every object printed is read back field by field. */
  lemma ObjectBack(fields: seq<Field>)
    requires fields != []
    ensures ParseObject(ObjectText(fields)) == Some(fields)
  {
    FieldsBack(fields);
    assert ObjectText(fields)[1..] == FieldsText(fields);
  }

  // ---------------------------------------------------------------- fields by name

  /** The value of a key, the last one where a key repeats. */
  function Lookup(fields: seq<Field>, key: seq<byte>): Option<Scalar> {
    if fields == [] then None
    else if fields[|fields| - 1].key == key then Some(fields[|fields| - 1].value)
    else Lookup(fields[..|fields| - 1], key)
  }

  predicate OnlyKeys(fields: seq<Field>, keys: set<seq<byte>>) { forall i :: 0 <= i < |fields| ==> fields[i].key in keys }

  lemma Lookup2(a: Field, b: Field)
    requires a.key != b.key
    ensures Lookup([a, b], a.key) == Some(a.value) && Lookup([a, b], b.key) == Some(b.value)
  {
    assert [a, b][..1] == [a];
  }

  lemma Lookup3(a: Field, b: Field, c: Field)
    requires a.key != b.key && a.key != c.key && b.key != c.key
    ensures Lookup([a, b, c], a.key) == Some(a.value) && Lookup([a, b, c], b.key) == Some(b.value) && Lookup([a, b, c], c.key) == Some(c.value)
  {
    assert [a, b, c][..2] == [a, b];
    Lookup2(a, b);
  }
}
