/** The two scalars the wire and the configuration files are made of: quoted strings and decimal numbers, on UTF-8 bytes. */
module JsonText {
  import opened Common
  import Utf8

  const QUOTE: byte := 0x22
  const BACKSLASH: byte := 0x5C
  const OPEN: byte := '{' as int
  const CLOSE: byte := '}' as int
  const OPEN_LIST: byte := '[' as int
  const CLOSE_LIST: byte := ']' as int
  const COMMA: byte := ',' as int
  const COLON: byte := ':' as int

  /** The bytes of an ASCII literal, the low byte of each character. */
  function Literal(s: string): (r: seq<byte>)
    ensures |r| == |s|
  {
    seq(|s|, i requires 0 <= i < |s| => s[i] as int % 0x100)
  }

  function HexDigit(n: nat): byte
    requires n < 16
  {
    if n < 10 then '0' as int + n else 'a' as int + n - 10
  }

  /** The letter of a two-character escape. */
  function ShortEscape(b: byte): Option<byte> {
    if b == QUOTE || b == BACKSLASH then Some(b)
    else if b == 0x08 then Some('b' as int)
    else if b == 0x0C then Some('f' as int)
    else if b == LF then Some('n' as int)
    else if b == CR then Some('r' as int)
    else if b == 0x09 then Some('t' as int)
    else None
  }

  function EscapedByte(b: byte): seq<byte> {
    if ShortEscape(b).Some? then [BACKSLASH, ShortEscape(b).value]
    else if b < 0x20 then [BACKSLASH, 'u' as int, '0' as int, '0' as int, HexDigit(b / 16), HexDigit(b % 16)]
    else [b]
  }

  function Escaped(t: seq<byte>): seq<byte> {
    if t == [] then [] else EscapedByte(t[0]) + Escaped(t[1..])
  }

  // ---------------------------------------------------------------- reading back

  function Nibble(d: byte): Option<nat> {
    if '0' as int <= d <= '9' as int then Some(d - '0' as int)
    else if 'a' as int <= d <= 'f' as int then Some(d - 'a' as int + 10)
    else None
  }

  function Unshort(letter: byte): Option<byte> {
    if letter == QUOTE || letter == BACKSLASH then Some(letter)
    else if letter == 'b' as int then Some(0x08)
    else if letter == 'f' as int then Some(0x0C)
    else if letter == 'n' as int then Some(LF)
    else if letter == 'r' as int then Some(CR)
    else if letter == 't' as int then Some(0x09)
    else None
  }

  /** One character of a string body and how many bytes it took; an escape of four digits only below 80. */
  function UnescapedFirst(t: seq<byte>): Option<(byte, nat)>
    requires t != []
  {
    if t[0] == QUOTE || t[0] < 0x20 then None
    else if t[0] != BACKSLASH then Some((t[0], 1))
    else if |t| >= 2 && Unshort(t[1]).Some? then Some((Unshort(t[1]).value, 2))
    else if |t| >= 6 && t[1] == 'u' as int && t[2] == '0' as int && t[3] == '0' as int
            && Nibble(t[4]).Some? && Nibble(t[5]).Some? && Nibble(t[4]).value < 8 then
      Some((Nibble(t[4]).value * 16 + Nibble(t[5]).value, 6))
    else None
  }

  /** The string up to the closing quote, and what follows the quote. */
  function Unescaped(t: seq<byte>): Option<(seq<byte>, seq<byte>)>
    decreases |t|
  {
    if t == [] then None
    else if t[0] == QUOTE then Some(([], t[1..]))
    else
      var first := UnescapedFirst(t);
      if first.None? then None
      else
        var rest := Unescaped(t[first.value.1..]);
        if rest.None? then None else Some(([first.value.0] + rest.value.0, rest.value.1))
  }

  lemma EscapedFirst(b: byte, rest: seq<byte>)
    ensures EscapedByte(b) != [] && EscapedByte(b)[0] != QUOTE
    ensures UnescapedFirst(EscapedByte(b) + rest) == Some((b, |EscapedByte(b)|))
  {
    if ShortEscape(b).None? && b < 0x20 {
      var t := EscapedByte(b) + rest;
      assert t[1] == 'u' as int && Unshort(t[1]).None?;
      assert Nibble(t[4]) == Some(b / 16) && Nibble(t[5]) == Some(b % 16);
    }
  }

  lemma EscapedStep(s: seq<byte>, e: seq<byte>)
    requires s != [] && e == EscapedByte(s[0])
    ensures Escaped(s) == e + Escaped(s[1..])
  {}

  lemma UnescapedStep(b: byte, e: seq<byte>, tail: seq<byte>, s: seq<byte>, rest: seq<byte>)
    requires e == EscapedByte(b) && Unescaped(tail) == Some((s, rest))
    ensures Unescaped(e + tail) == Some(([b] + s, rest))
  {
    EscapedFirst(b, tail);
    assert (e + tail)[|e|..] == tail;
  }

  /** A quoted string reads back as itself, whatever follows it. */
  lemma {:induction false} UnescapeEscaped(s: seq<byte>, rest: seq<byte>)
    ensures Unescaped(Escaped(s) + ([QUOTE] + rest)) == Some((s, rest))
  {
    if s == [] {
      assert Escaped(s) + ([QUOTE] + rest) == [QUOTE] + rest;
      assert ([QUOTE] + rest)[1..] == rest;
    } else {
      var e := EscapedByte(s[0]);
      EscapedStep(s, e);
      Regroup(e, Escaped(s[1..]), [QUOTE] + rest);
      UnescapeEscaped(s[1..], rest);
      UnescapedStep(s[0], e, Escaped(s[1..]) + ([QUOTE] + rest), s[1..], rest);
      assert s == [s[0]] + s[1..];
    }
  }

  // ---------------------------------------------------------------- sizes and line ends

  predicate Unbroken(t: seq<byte>) {
    t == [] || (t[0] >= 0x20 && Unbroken(t[1..]))
  }

  lemma {:induction false} UnbrokenIsEvery(t: seq<byte>)
    ensures Unbroken(t) <==> forall i :: 0 <= i < |t| ==> t[i] >= 0x20
  {
    if t != [] {
      UnbrokenIsEvery(t[1..]);
      assert forall i :: 0 < i < |t| ==> t[i] == t[1..][i - 1];
      assert forall i :: 0 <= i < |t| - 1 ==> t[1..][i] == t[i + 1];
    }
  }

  lemma {:induction false} JoinUnbroken(a: seq<byte>, b: seq<byte>)
    requires Unbroken(a) && Unbroken(b)
    ensures Unbroken(a + b)
  {
    if a == [] {
      assert a + b == b;
    } else {
      JoinUnbroken(a[1..], b);
      assert (a + b)[1..] == a[1..] + b;
    }
  }

  lemma EscapedByteUnbroken(b: byte, e: seq<byte>)
    requires e == EscapedByte(b)
    ensures Unbroken(e) && |e| <= 6
  {
    UnbrokenIsEvery(e);
  }

  /** No escaped text holds a control byte, so none ends a line. */
  lemma {:induction false} EscapedUnbroken(t: seq<byte>)
    ensures Unbroken(Escaped(t)) && |Escaped(t)| <= 6 * |t|
  {
    if t != [] {
      var e := EscapedByte(t[0]);
      EscapedByteUnbroken(t[0], e);
      EscapedUnbroken(t[1..]);
      JoinUnbroken(e, Escaped(t[1..]));
    }
  }

  /** Without control bytes the escapes at most double the text. */
  lemma {:induction false} EscapedDoubles(t: seq<byte>)
    requires Unbroken(t)
    ensures |Escaped(t)| <= 2 * |t|
  {
    if t != [] { EscapedDoubles(t[1..]); }
  }

  lemma {:induction false} EscapedAppend(a: seq<byte>, b: seq<byte>)
    ensures Escaped(a + b) == Escaped(a) + Escaped(b)
  {
    if a == [] {
      assert a + b == b;
    } else {
      var e := EscapedByte(a[0]);
      EscapedAppend(a[1..], b);
      assert (a + b)[1..] == a[1..] + b;
      EscapedStep(a, e);
      EscapedStep(a + b, e);
      Regroup(e, Escaped(a[1..]), Escaped(b));
    }
  }

  /** A character takes at most six bytes once escaped. */
  lemma {:induction false} EscapedCharacters(s: seq<nat>)
    requires Utf8.CodePoints(s)
    ensures |Escaped(Utf8.EncodeAll(s))| <= 6 * |s|
  {
    if s != [] {
      var first, rest := Utf8.Encode(s[0]), Utf8.EncodeAll(s[1..]);
      EscapedAppend(first, rest);
      EscapedCharacters(s[1..]);
      if s[0] < 0x80 {
        assert first[1..] == [];
        assert Escaped(first) == EscapedByte(s[0]) + Escaped([]);
      } else {
        HighBytes(first);
      }
    }
  }

  lemma {:induction false} HighBytes(t: seq<byte>)
    requires forall i :: 0 <= i < |t| ==> t[i] >= 0x80
    ensures Escaped(t) == t
  {
    if t != [] {
      HighBytes(t[1..]);
      assert t == [t[0]] + t[1..];
    }
  }

  // ---------------------------------------------------------------- decimal numbers

  predicate Digit(b: byte) { '0' as int <= b <= '9' as int }

  function Decimal(n: nat): seq<byte> {
    (if n < 10 then [] else Decimal(n / 10)) + ['0' as int + n % 10]
  }

  /** The number the digits at the front spell, continuing from `so`, and what follows them. */
  function ReadDigits(t: seq<byte>, so: nat): (nat, seq<byte>) {
    if t == [] || !Digit(t[0]) then (so, t) else ReadDigits(t[1..], so * 10 + (t[0] - '0' as int))
  }

  lemma {:induction false} DecimalDigits(n: nat)
    ensures Decimal(n) != [] && forall i :: 0 <= i < |Decimal(n)| ==> Digit(Decimal(n)[i])
  {
    if n >= 10 { DecimalDigits(n / 10); }
  }

  /** A printed number reads back as itself when no digit follows. */
  lemma {:induction false} ReadDecimal(n: nat, rest: seq<byte>)
    requires rest == [] || !Digit(rest[0])
    ensures ReadDigits(Decimal(n) + rest, 0) == (n, rest)
  {
    ReadLast(n, rest);
    assert ReadDigits(rest, n) == (n, rest);
  }

  lemma {:induction false} ReadLast(n: nat, rest: seq<byte>)
    ensures ReadDigits(Decimal(n) + rest, 0) == ReadDigits(rest, n)
  {
    var last: seq<byte> := ['0' as int + n % 10];
    var t := last + rest;
    assert t[1..] == rest;
    if n < 10 {
      assert Decimal(n) + rest == t;
      assert ReadDigits(t, 0) == ReadDigits(rest, n);
    } else {
      ReadLast(n / 10, t);
      assert Decimal(n) + rest == Decimal(n / 10) + t;
      assert n / 10 * 10 + n % 10 == n;
    }
  }

  function Pow10(k: nat): nat { if k == 0 then 1 else 10 * Pow10(k - 1) }

  lemma {:induction false} DecimalLength(n: nat, k: nat)
    requires 0 < k && n < Pow10(k)
    ensures |Decimal(n)| <= k
  {
    if n >= 10 {
      assert k > 1;
      DecimalLength(n / 10, k - 1);
    }
  }

  /** A 64-bit count has at most twenty digits. */
  lemma CountLength(n: u64)
    ensures |Decimal(n)| <= 20
  {
    assert Pow10(5) == 100000;
    assert Pow10(10) == 100000 * Pow10(5);
    assert Pow10(15) == 100000 * Pow10(10);
    assert Pow10(20) == 100000 * Pow10(15);
    DecimalLength(n, 20);
  }

  // ---------------------------------------------------------------- objects and lists, without spaces

  /** A fixed string that needs no escapes. */
  function Word(s: string): seq<byte> { [QUOTE] + Literal(s) + [QUOTE] }

  function Member(key: string, value: seq<byte>): seq<byte> {
    [QUOTE] + Literal(key) + [QUOTE, COLON] + value
  }

  function Joined(parts: seq<seq<byte>>): seq<byte> {
    if parts == [] then [] else if |parts| == 1 then parts[0] else parts[0] + [COMMA] + Joined(parts[1..])
  }

  function Object(members: seq<seq<byte>>): seq<byte> { [OPEN] + Joined(members) + [CLOSE] }

  function List(elements: seq<seq<byte>>): seq<byte> { [OPEN_LIST] + Joined(elements) + [CLOSE_LIST] }

  function Sum(parts: seq<seq<byte>>): nat {
    if parts == [] then 0 else |parts[0]| + Sum(parts[1..])
  }

  predicate AllUnbroken(parts: seq<seq<byte>>) { parts == [] || (Unbroken(parts[0]) && AllUnbroken(parts[1..])) }

  lemma WrapUnbroken(first: byte, t: seq<byte>, last: byte)
    requires first >= 0x20 && last >= 0x20 && Unbroken(t)
    ensures Unbroken([first] + t + [last])
  {
    UnbrokenIsEvery(t);
    UnbrokenIsEvery([first] + t + [last]);
  }

  lemma {:induction false} JoinedUnbroken(parts: seq<seq<byte>>)
    requires AllUnbroken(parts)
    ensures Unbroken(Joined(parts)) && |Joined(parts)| <= Sum(parts) + |parts|
  {
    if parts == [] {
    } else if |parts| == 1 {
      assert parts[1..] == [];
    } else {
      JoinedUnbroken(parts[1..]);
      UnbrokenIsEvery([COMMA]);
      JoinUnbroken(parts[0], [COMMA]);
      JoinUnbroken(parts[0] + [COMMA], Joined(parts[1..]));
    }
  }

  lemma ObjectUnbroken(members: seq<seq<byte>>)
    requires AllUnbroken(members)
    ensures Unbroken(Object(members)) && |Object(members)| <= Sum(members) + |members| + 2
    ensures Unbroken(List(members)) && |List(members)| <= Sum(members) + |members| + 2
  {
    JoinedUnbroken(members);
    WrapUnbroken(OPEN, Joined(members), CLOSE);
    WrapUnbroken(OPEN_LIST, Joined(members), CLOSE_LIST);
  }

  lemma PartsCons(part: seq<byte>, parts: seq<seq<byte>>)
    ensures Sum([part] + parts) == |part| + Sum(parts)
    ensures AllUnbroken([part] + parts) <==> Unbroken(part) && AllUnbroken(parts)
  {
    assert ([part] + parts)[1..] == parts;
  }

  lemma Parts2(a: seq<byte>, b: seq<byte>)
    ensures Sum([a, b]) == |a| + |b| && (AllUnbroken([a, b]) <==> Unbroken(a) && Unbroken(b))
  {
    PartsCons(b, []);
    PartsCons(a, [b]);
    assert [b] + [] == [b] && [a] + [b] == [a, b];
  }

  lemma Parts3(a: seq<byte>, b: seq<byte>, c: seq<byte>)
    ensures Sum([a, b, c]) == |a| + |b| + |c| && (AllUnbroken([a, b, c]) <==> Unbroken(a) && Unbroken(b) && Unbroken(c))
  {
    Parts2(b, c);
    PartsCons(a, [b, c]);
    assert [a] + [b, c] == [a, b, c];
  }

  lemma Parts4(a: seq<byte>, b: seq<byte>, c: seq<byte>, d: seq<byte>)
    ensures Sum([a, b, c, d]) == |a| + |b| + |c| + |d|
    ensures AllUnbroken([a, b, c, d]) <==> Unbroken(a) && Unbroken(b) && Unbroken(c) && Unbroken(d)
  {
    Parts3(b, c, d);
    PartsCons(a, [b, c, d]);
    assert [a] + [b, c, d] == [a, b, c, d];
  }

  lemma Parts5(a: seq<byte>, b: seq<byte>, c: seq<byte>, d: seq<byte>, e: seq<byte>)
    ensures Sum([a, b, c, d, e]) == |a| + |b| + |c| + |d| + |e|
    ensures AllUnbroken([a, b, c, d, e]) <==> Unbroken(a) && Unbroken(b) && Unbroken(c) && Unbroken(d) && Unbroken(e)
  {
    Parts4(b, c, d, e);
    PartsCons(a, [b, c, d, e]);
    assert [a] + [b, c, d, e] == [a, b, c, d, e];
  }

  lemma WordUnbroken(s: string, w: seq<byte>)
    requires w == Word(s) && forall i :: 0 <= i < |s| ==> ' ' <= s[i] <= '~'
    ensures |w| == |s| + 2 && Unbroken(w)
  {
    UnbrokenIsEvery(Literal(s));
    WrapUnbroken(QUOTE, Literal(s), QUOTE);
  }

  lemma MemberUnbroken(key: string, value: seq<byte>)
    requires Unbroken(value) && forall i :: 0 <= i < |key| ==> ' ' <= key[i] <= '~'
    ensures |Member(key, value)| == |key| + 3 + |value| && Unbroken(Member(key, value))
  {
    UnbrokenIsEvery(Literal(key));
    WrapUnbroken(QUOTE, Literal(key), QUOTE);
    UnbrokenIsEvery([COLON]);
    var quoted := [QUOTE] + Literal(key) + [QUOTE];
    JoinUnbroken(quoted, [COLON]);
    JoinUnbroken(quoted + [COLON], value);
    assert Member(key, value) == quoted + [COLON] + value;
  }
}
