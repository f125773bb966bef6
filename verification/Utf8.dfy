/**
 Byte-level text checks of the firmware against section 3 of RFC 3629 and the desktop's checks on code points.
 Bit operations of the firmware are written arithmetically: a byte masked with C0 equals 80 exactly for 80 to BF,
 masking with 3F is the remainder by 64, and shifting left by six is multiplication by 64.
 */
module Utf8 {
  import opened Common

  predicate CodePoint(c: nat) { c <= 0x10FFFF }

  predicate Surrogate(c: nat) { 0xD800 <= c <= 0xDFFF }

  predicate Scalar(c: nat) { CodePoint(c) && !Surrogate(c) }

  /** The table of section 3 of RFC 3629; on surrogates, the three bytes of the same pattern, which are no UTF-8. */
  function Encode(c: nat): (r: seq<byte>)
    requires CodePoint(c)
  {
    if c < 0x80 then [c]
    else if c < 0x800 then [0xC0 + c / 64, 0x80 + c % 64]
    else if c < 0x1_0000 then [0xE0 + c / 4096, 0x80 + c / 64 % 64, 0x80 + c % 64]
    else [0xF0 + c / 26_2144, 0x80 + c / 4096 % 64, 0x80 + c / 64 % 64, 0x80 + c % 64]
  }

  ghost predicate CodePoints(s: seq<nat>) { forall i :: 0 <= i < |s| ==> CodePoint(s[i]) }

  ghost predicate Scalars(s: seq<nat>) { forall i :: 0 <= i < |s| ==> Scalar(s[i]) }

  function EncodeAll(s: seq<nat>): seq<byte>
    requires forall i :: 0 <= i < |s| ==> CodePoint(s[i])
  {
    if s == [] then [] else Encode(s[0]) + EncodeAll(s[1..])
  }

  // ---------------------------------------------------------------- decoding

  predicate Continuation(b: byte) { 0x80 <= b < 0xC0 }

  /** How many bytes follow this lead byte; none for bytes that cannot lead. */
  function Following(lead: byte): Option<nat> {
    if lead < 0x80 then Some(0)
    else if 0xC2 <= lead <= 0xDF then Some(1)
    else if 0xE0 <= lead <= 0xEF then Some(2)
    else if 0xF0 <= lead <= 0xF4 then Some(3)
    else None
  }

  function LeadBits(lead: byte): nat {
    if lead < 0x80 then lead else if lead < 0xE0 then lead % 32 else if lead < 0xF0 then lead % 16 else lead % 8
  }

  function Minimum(n: nat): nat {
    if n == 0 then 0 else if n == 1 then 0x80 else if n == 2 then 0x800 else 0x1_0000
  }

  /** `scalar` extended by the next n bytes, six bits each; nothing if one of them is no continuation. */
  function Assemble(scalar: nat, t: seq<byte>, n: nat): Option<nat>
    requires n <= |t|
    decreases n
  {
    if n == 0 then Some(scalar)
    else if !Continuation(t[0]) then None
    else Assemble(scalar * 64 + t[0] % 64, t[1..], n - 1)
  }

  /** The scalar the bytes begin with, and its length. */
  function DecodeFirst(t: seq<byte>): Option<(nat, nat)>
    requires t != []
  {
    var n := Following(t[0]);
    if n.None? || 1 + n.value > |t| then None
    else
      var c := Assemble(LeadBits(t[0]), t[1..], n.value);
      if c.None? || c.value < Minimum(n.value) || !Scalar(c.value) then None else Some((c.value, 1 + n.value))
  }

  function Decode(t: seq<byte>): (r: Option<seq<nat>>)
    decreases |t|
  {
    if t == [] then Some([])
    else
      var first := DecodeFirst(t);
      if first.None? then None
      else
        var rest := Decode(t[first.value.1..]);
        if rest.None? then None else Some([first.value.0] + rest.value)
  }

  lemma Assemble1(b: nat, t: seq<byte>)
    requires |t| >= 1
    ensures Assemble(b, t, 1) == if Continuation(t[0]) then Some(b * 64 + t[0] % 64) else None
  {}

  lemma Assemble2(b: nat, t: seq<byte>)
    requires |t| >= 2
    ensures Assemble(b, t, 2) == if Continuation(t[0]) && Continuation(t[1]) then Some((b * 64 + t[0] % 64) * 64 + t[1] % 64) else None
  {
    if Continuation(t[0]) { Assemble1(b * 64 + t[0] % 64, t[1..]); }
  }

  lemma Assemble3(b: nat, t: seq<byte>)
    requires |t| >= 3
    ensures Assemble(b, t, 3) == if Continuation(t[0]) && Continuation(t[1]) && Continuation(t[2])
                                 then Some(((b * 64 + t[0] % 64) * 64 + t[1] % 64) * 64 + t[2] % 64) else None
  {
    if Continuation(t[0]) { Assemble2(b * 64 + t[0] % 64, t[1..]); }
  }

  lemma Split64(x: nat, q: nat, r: nat)
    requires r < 64 && x == q * 64 + r
    ensures x / 64 == q && x % 64 == r
  {}

  lemma Join64(x: nat)
    ensures x / 64 * 64 + x % 64 == x
  {}

  lemma Shift12(x: nat)
    ensures x / 4096 == x / 64 / 64
  {}

  lemma Shift18(x: nat)
    ensures x / 26_2144 == x / 4096 / 64
  {}

  lemma TailBits(m: nat)
    requires m < 64
    ensures (0x80 + m) % 64 == m && Continuation(0x80 + m)
  {}

  lemma TailByte(b: byte)
    requires Continuation(b)
    ensures b == 0x80 + b % 64
  {}

  lemma LeadByte(a: byte)
    ensures 0xC0 <= a < 0xE0 ==> a == 0xC0 + a % 32
    ensures 0xE0 <= a < 0xF0 ==> a == 0xE0 + a % 16
    ensures 0xF0 <= a < 0xF8 ==> a == 0xF0 + a % 8
  {}

  lemma Encodes2(a: byte, b: byte)
    requires 0xC2 <= a <= 0xDF && Continuation(b)
    ensures Encode(a % 32 * 64 + b % 64) == [a, b]
  {
    LeadByte(a);
    TailByte(b);
    Split64(a % 32 * 64 + b % 64, a % 32, b % 64);
  }

  lemma Encodes3(a: byte, b: byte, c: byte)
    requires 0xE0 <= a <= 0xEF && Continuation(b) && Continuation(c)
    requires (a % 16 * 64 + b % 64) * 64 + c % 64 >= 0x800
    ensures Encode((a % 16 * 64 + b % 64) * 64 + c % 64) == [a, b, c]
  {
    var y := a % 16 * 64 + b % 64;
    LeadByte(a);
    TailByte(b);
    TailByte(c);
    Split64(y * 64 + c % 64, y, c % 64);
    Split64(y, a % 16, b % 64);
    Shift12(y * 64 + c % 64);
  }

  lemma Encodes4(a: byte, b: byte, c: byte, d: byte)
    requires 0xF0 <= a <= 0xF4 && Continuation(b) && Continuation(c) && Continuation(d)
    requires var x := ((a % 8 * 64 + b % 64) * 64 + c % 64) * 64 + d % 64; 0x1_0000 <= x && CodePoint(x)
    ensures Encode(((a % 8 * 64 + b % 64) * 64 + c % 64) * 64 + d % 64) == [a, b, c, d]
  {
    LeadByte(a);
    TailByte(b);
    TailByte(c);
    TailByte(d);
    Digits4(a % 8, b % 64, c % 64, d % 64);
  }

  lemma Digits4(p: nat, q: nat, r: nat, s: nat)
    requires p < 8 && q < 64 && r < 64 && s < 64
    ensures var x := ((p * 64 + q) * 64 + r) * 64 + s;
            x / 26_2144 == p && x / 4096 % 64 == q && x / 64 % 64 == r && x % 64 == s
  {
    var y := p * 64 + q;
    var z := y * 64 + r;
    var x := z * 64 + s;
    Split64(x, z, s);
    Split64(z, y, r);
    Split64(y, p, q);
    Shift12(x);
    Shift18(x);
  }

  /** What is decoded is the encoding of a scalar. */
  lemma DecodeFirstIsEncoding(t: seq<byte>)
    requires t != [] && DecodeFirst(t).Some?
    ensures var (c, n) := DecodeFirst(t).value; Scalar(c) && n <= |t| && t[..n] == Encode(c)
  {
    var n := Following(t[0]).value;
    if n == 1 {
      Assemble1(LeadBits(t[0]), t[1..]);
      Encodes2(t[0], t[1]);
    } else if n == 2 {
      Assemble2(LeadBits(t[0]), t[1..]);
      Encodes3(t[0], t[1], t[2]);
    } else if n == 3 {
      Assemble3(LeadBits(t[0]), t[1..]);
      Encodes4(t[0], t[1], t[2], t[3]);
    }
  }

  lemma Decodes2(c: nat, rest: seq<byte>)
    requires 0x80 <= c < 0x800
    ensures DecodeFirst(Encode(c) + rest) == Some((c, 2))
  {
    var t := Encode(c) + rest;
    LeadByte(t[0]);
    TailBits(c % 64);
    Join64(c);
    Assemble1(LeadBits(t[0]), t[1..]);
  }

  lemma Decodes3(c: nat, rest: seq<byte>)
    requires 0x800 <= c < 0x1_0000
    ensures DecodeFirst(Encode(c) + rest) == if Surrogate(c) then None else Some((c, 3))
  {
    var t := Encode(c) + rest;
    LeadByte(t[0]);
    TailBits(c / 64 % 64);
    TailBits(c % 64);
    Shift12(c);
    Join64(c / 64);
    Join64(c);
    Assemble2(LeadBits(t[0]), t[1..]);
  }

  lemma Sums4(c: nat)
    ensures ((c / 26_2144 * 64 + c / 4096 % 64) * 64 + c / 64 % 64) * 64 + c % 64 == c
  {
    Shift12(c);
    Shift18(c);
    Join64(c / 4096);
    Join64(c / 64);
    Join64(c);
  }

  lemma Lead4(c: nat)
    requires 0x1_0000 <= c && CodePoint(c)
    ensures 0xF0 <= 0xF0 + c / 26_2144 <= 0xF4 && (0xF0 + c / 26_2144) % 8 == c / 26_2144
  {}

  lemma Decodes4(c: nat, rest: seq<byte>)
    requires 0x1_0000 <= c && CodePoint(c)
    ensures DecodeFirst(Encode(c) + rest) == Some((c, 4))
  {
    var t := Encode(c) + rest;
    Lead4(c);
    TailBits(c / 4096 % 64);
    TailBits(c / 64 % 64);
    TailBits(c % 64);
    Sums4(c);
    Assemble3(LeadBits(t[0]), t[1..]);
  }

  /** Every scalar's encoding is decoded, and no surrogate's is. */
  lemma EncodingDecodesFirst(c: nat, rest: seq<byte>)
    requires CodePoint(c)
    ensures DecodeFirst(Encode(c) + rest) == if Scalar(c) then Some((c, |Encode(c)|)) else None
  {
    if c < 0x80 {
    } else if c < 0x800 {
      Decodes2(c, rest);
    } else if c < 0x1_0000 {
      Decodes3(c, rest);
    } else {
      Decodes4(c, rest);
    }
  }

  /** Decoding inverts encoding on scalars, and refuses anything with a surrogate. */
  lemma {:induction false} DecodeEncode(s: seq<nat>)
    requires CodePoints(s)
    ensures Decode(EncodeAll(s)) == if Scalars(s) then Some(s) else None
  {
    if s != [] {
      var rest := EncodeAll(s[1..]);
      EncodingDecodesFirst(s[0], rest);
      DecodeEncode(s[1..]);
      assert (Encode(s[0]) + rest)[|Encode(s[0])|..] == rest;
      assert s == [s[0]] + s[1..];
      if Scalars(s[1..]) && Scalar(s[0]) {
        forall i | 0 <= i < |s| ensures Scalar(s[i]) {
          if i > 0 { assert s[i] == s[1..][i - 1]; }
        }
      }
      if Scalars(s) { assert forall i :: 0 <= i < |s| - 1 ==> s[1..][i] == s[i + 1]; }
    }
  }

  /** Encoding inverts decoding: whatever decodes is the encoding of what it decodes to. */
  lemma {:induction false} EncodeDecode(t: seq<byte>)
    requires Decode(t).Some?
    ensures Scalars(Decode(t).value) && EncodeAll(Decode(t).value) == t
    decreases |t|
  {
    if t != [] {
      DecodeFirstIsEncoding(t);
      var (c, n) := DecodeFirst(t).value;
      EncodeDecode(t[n..]);
      var rest := Decode(t[n..]).value;
      assert ([c] + rest)[1..] == rest;
      assert t == t[..n] + t[n..];
    }
  }

  // ---------------------------------------------------------------- credential text

  predicate Control(c: nat) { c < 0x20 || 0x7F <= c <= 0x9F }

  /** At most `maximum` bytes, the encoding of scalars none of which is a C0, delete or C1 control. */
  ghost predicate IsText(t: seq<byte>, maximum: nat) {
    |t| <= maximum && exists s: seq<nat> :: TextOf(s, t)
  }

  ghost predicate TextOf(s: seq<nat>, t: seq<byte>) {
    Scalars(s) && (forall i :: 0 <= i < |s| ==> !Control(s[i])) && EncodeAll(s) == t
  }

  predicate PlainFrom(t: seq<byte>) {
    Decode(t).Some? && forall i :: 0 <= i < |Decode(t).value| ==> !Control(Decode(t).value[i])
  }

  lemma TextIsDecodable(t: seq<byte>)
    ensures (exists s :: TextOf(s, t)) <==> PlainFrom(t)
  {
    if PlainFrom(t) {
      EncodeDecode(t);
      assert TextOf(Decode(t).value, t);
    }
    forall s | TextOf(s, t) ensures PlainFrom(t) {
      DecodeEncode(s);
    }
  }

  lemma PlainStep(t: seq<byte>)
    requires t != []
    ensures PlainFrom(t) <==>
              && DecodeFirst(t).Some? && !Control(DecodeFirst(t).value.0)
              && DecodeFirst(t).value.1 <= |t| && PlainFrom(t[DecodeFirst(t).value.1..])
  {
    if DecodeFirst(t).Some? {
      var (c, n) := DecodeFirst(t).value;
      if Decode(t[n..]).Some? {
        var rest := Decode(t[n..]).value;
        var all := [c] + rest;
        assert all[0] == c && forall i :: 0 <= i < |rest| ==> all[i + 1] == rest[i];
        assert forall i :: 0 < i < |all| ==> all[i] == rest[i - 1];
      }
    }
  }

  /** The inner loop of both checks: n continuation bytes from `from` on. */
  method Continue(text: seq<byte>, from: nat, n: nat, lead: nat) returns (r: Option<nat>)
    requires from + n <= |text|
    ensures r == Assemble(lead, text[from..], n)
  {
    var scalar: nat := lead;
    var k := 0;
    while k < n
      invariant k <= n && Assemble(lead, text[from..], n) == Assemble(scalar, text[from + k..], n - k)
    {
      var b := text[from + k];
      assert text[from + k..][0] == b && text[from + k..][1..] == text[from + k + 1..];
      if !Continuation(b) {
        return None;
      }
      scalar := scalar * 64 + b % 64;
      k := k + 1;
    }
    return Some(scalar);
  }

  /** The firmware's check of SSIDs, user names and passwords, byte by byte. */
  method ValidText(text: seq<byte>, maximum: nat) returns (ok: bool)
    ensures ok <==> IsText(text, maximum)
  {
    TextIsDecodable(text);
    if |text| > maximum {
      return false;
    }
    assert text[0..] == text;
    var i := 0;
    while i < |text|
      invariant i <= |text| && (PlainFrom(text) <==> PlainFrom(text[i..]))
    {
      var next := TextScalar(text, i);
      PlainAt(text, i, next);
      if next.None? {
        return false;
      }
      i := next.value;
    }
    return true;
  }

  lemma PlainAt(text: seq<byte>, i: nat, next: Option<nat>)
    requires i < |text|
    requires var first := DecodeFirst(text[i..]);
             next == if first.None? || Control(first.value.0) then None else Some(i + first.value.1)
    requires next.Some? ==> next.value <= |text|
    ensures PlainFrom(text[i..]) <==> next.Some? && PlainFrom(text[next.value..])
  {
    PlainStep(text[i..]);
    if next.Some? { assert text[i..][next.value - i..] == text[next.value..]; }
  }

  /** One turn of the loop: the index after an acceptable scalar. */
  method TextScalar(text: seq<byte>, i: nat) returns (next: Option<nat>)
    requires i < |text|
    ensures var first := DecodeFirst(text[i..]);
            next == if first.None? || Control(first.value.0) then None else Some(i + first.value.1)
    ensures next.Some? ==> i < next.value <= |text|
  {
    Suffix(text, i);
    var lead := text[i];
    var scalar: nat := lead;
    var continuation, minimum := 0, 0;
    if 0xC2 <= lead <= 0xDF {
      scalar, continuation, minimum := lead % 32, 1, 0x80;
    } else if 0xE0 <= lead <= 0xEF {
      scalar, continuation, minimum := lead % 16, 2, 0x800;
    } else if 0xF0 <= lead <= 0xF4 {
      scalar, continuation, minimum := lead % 8, 3, 0x1_0000;
    } else if lead >= 0x80 {
      return None;
    }
    if i + 1 + continuation > |text| {
      return None;
    }
    var assembled := Continue(text, i + 1, continuation, scalar);
    if assembled.None? {
      return None;
    }
    scalar := assembled.value;
    if scalar < minimum || scalar > 0x10FFFF || 0xD800 <= scalar <= 0xDFFF
       || scalar < 0x20 || 0x7F <= scalar <= 0x9F {
      return None;
    }
    return Some(i + 1 + continuation);
  }

  lemma Suffix(text: seq<byte>, i: nat)
    requires i < |text|
    ensures text[i..][0] == text[i] && text[i..][1..] == text[i + 1..]
    ensures forall n :: 0 <= n <= |text| - i ==> text[i..][n..] == text[i + n..]
  {}

  // ---------------------------------------------------------------- action names

  /** The non-ASCII spaces both sides know; the ASCII ones are in `AsciiSpace`. */
  predicate WideSpace(c: nat) {
    c == 0x85 || c == 0xA0 || c == 0x1680 || 0x2000 <= c <= 0x200A || c == 0x2028 || c == 0x2029
    || c == 0x202F || c == 0x205F || c == 0x3000
  }

  /** What Python's `str.strip` removes. */
  predicate PythonSpace(c: nat) { 0x09 <= c <= 0x0D || 0x1C <= c <= 0x20 || WideSpace(c) }

  ghost predicate Utf8Fits(s: seq<nat>, limit: nat)
    requires CodePoints(s)
  {
    Scalars(s) && |EncodeAll(s)| <= limit
  }

  /** The desktop's check, on code points. */
  ghost predicate ValidName(s: seq<nat>)
    requires CodePoints(s)
  {
    && (exists i :: 0 <= i < |s| && !PythonSpace(s[i]))
    && Utf8Fits(s, 64)
    && (forall i :: 0 <= i < |s| ==> s[i] >= 32 && s[i] != 127)
  }

  predicate Forbidden(c: nat) { c < 32 || c == 127 }

  predicate Blank(c: nat) { c == 32 || WideSpace(c) }

  ghost predicate NameFrom(t: seq<byte>, seen: bool) {
    && Decode(t).Some?
    && (forall i :: 0 <= i < |Decode(t).value| ==> !Forbidden(Decode(t).value[i]))
    && (seen || exists i :: 0 <= i < |Decode(t).value| && !Blank(Decode(t).value[i]))
  }

  lemma NameStep(t: seq<byte>, seen: bool)
    requires t != []
    ensures NameFrom(t, seen) <==>
              && DecodeFirst(t).Some? && !Forbidden(DecodeFirst(t).value.0) && DecodeFirst(t).value.1 <= |t|
              && NameFrom(t[DecodeFirst(t).value.1..], seen || !Blank(DecodeFirst(t).value.0))
  {
    if DecodeFirst(t).Some? {
      var (c, n) := DecodeFirst(t).value;
      if Decode(t[n..]).Some? {
        var rest := Decode(t[n..]).value;
        var all := [c] + rest;
        assert all[0] == c && forall i :: 0 <= i < |rest| ==> all[i + 1] == rest[i];
        assert forall i :: 0 < i < |all| ==> all[i] == rest[i - 1];
      }
    }
  }

  /** The firmware's check of the bytes of a name. */
  ghost predicate ActionName(t: seq<byte>) {
    t != [] && |t| <= 64 && NameFrom(t, false)
  }

  method IsActionName(value: seq<byte>) returns (ok: bool)
    ensures ok <==> ActionName(value)
  {
    if value == [] || |value| > 64 {
      return false;
    }
    ok := ValidUtf8Name(value);
  }

  method ValidUtf8Name(value: seq<byte>) returns (ok: bool)
    ensures ok <==> NameFrom(value, false)
  {
    var nonSpace := false;
    assert value[0..] == value;
    var i := 0;
    while i < |value|
      invariant i <= |value| && (NameFrom(value, false) <==> NameFrom(value[i..], nonSpace))
    {
      NameStep(value[i..], nonSpace);
      Suffix(value, i);
      var c := value[i];
      if c < 128 {
        if c < 32 || c == 127 {
          return false;
        }
        if c != 32 {
          nonSpace := true;
        }
        i := i + 1;
        continue;
      }
      var count := if 0xC2 <= c <= 0xDF then 1 else if 0xE0 <= c <= 0xEF then 2 else if 0xF0 <= c <= 0xF4 then 3 else 0;
      if count == 0 || i + 1 + count > |value| {
        return false;
      }
      var bits := if count == 1 then c % 32 else if count == 2 then c % 16 else c % 8;
      var assembled := Continue(value, i + 1, count, bits);
      if assembled.None? {
        return false;
      }
      var scalar := assembled.value;
      if scalar < (if count == 1 then 0x80 else if count == 2 then 0x800 else 0x1_0000)
         || scalar > 0x10FFFF || 0xD800 <= scalar <= 0xDFFF {
        return false;
      }
      if !WideSpace(scalar) {
        nonSpace := true;
      }
      i := i + 1 + count;
    }
    return nonSpace;
  }

  /**
   The rule on bytes accepts a string's encoding exactly when the rule on characters accepts the string; a surrogate stands in
   its three-byte form, and both refuse it.
   */
  lemma NamesAgree(s: seq<nat>)
    requires CodePoints(s)
    ensures ActionName(EncodeAll(s)) <==> ValidName(s)
  {
    DecodeEncode(s);
    if s != [] { assert |Encode(s[0])| > 0; }
  }

  // ---------------------------------------------------------------- editing

  lemma EncodeStep(s: seq<nat>, e: seq<byte>)
    requires CodePoints(s) && s != [] && e == Encode(s[0])
    ensures EncodeAll(s) == e + EncodeAll(s[1..])
  {}

  lemma {:induction false} EncodeAllAppend(a: seq<nat>, b: seq<nat>)
    requires CodePoints(a) && CodePoints(b)
    ensures CodePoints(a + b) && EncodeAll(a + b) == EncodeAll(a) + EncodeAll(b)
  {
    if a == [] {
      assert a + b == b;
    } else {
      var e := Encode(a[0]);
      EncodeAllAppend(a[1..], b);
      assert (a + b)[1..] == a[1..] + b;
      EncodeStep(a, e);
      EncodeStep(a + b, e);
      Regroup(e, EncodeAll(a[1..]), EncodeAll(b));
    }
  }

  lemma EncodeAllSnoc(s: seq<nat>)
    requires CodePoints(s) && s != []
    ensures CodePoints(s[..|s| - 1]) && EncodeAll(s) == EncodeAll(s[..|s| - 1]) + Encode(s[|s| - 1])
  {
    var n := |s| - 1;
    var last, e := s[n..], Encode(s[n]);
    EncodeAllAppend(s[..n], last);
    EncodeStep(last, e);
    assert s == s[..n] + last && last[1..] == [];
    assert e + [] == e;
  }

  /** Backspace removes exactly the last code point of an encoded text. */
  method EraseLast(text: seq<byte>) returns (r: seq<byte>)
    ensures text == [] ==> r == []
    ensures forall s | CodePoints(s) && s != [] && EncodeAll(s) == text :: r == EncodeAll(s[..|s| - 1])
  {
    if text == [] {
      EmptyEncoding();
      return [];
    }
    var start := |text| - 1;
    while start > 0 && Continuation(text[start])
      invariant 0 <= start < |text| && forall k :: start < k < |text| ==> Continuation(text[k])
    {
      start := start - 1;
    }
    r := text[..start];
    forall s | CodePoints(s) && s != [] && EncodeAll(s) == text ensures r == EncodeAll(s[..|s| - 1]) {
      LastCodePoint(s, text, start);
    }
  }

  lemma EmptyEncoding()
    ensures forall s | CodePoints(s) && s != [] :: EncodeAll(s) != []
  {
    forall s | CodePoints(s) && s != [] ensures EncodeAll(s) != [] {
      assert |Encode(s[0])| > 0;
    }
  }

  lemma LastCodePoint(s: seq<nat>, text: seq<byte>, start: nat)
    requires CodePoints(s) && s != [] && EncodeAll(s) == text && start < |text|
    requires forall k :: start < k < |text| ==> Continuation(text[k])
    requires start == 0 || !Continuation(text[start])
    ensures text[..start] == EncodeAll(s[..|s| - 1])
  {
    EncodeAllSnoc(s);
    var before, last := EncodeAll(s[..|s| - 1]), Encode(s[|s| - 1]);
    EncodingShape(s[|s| - 1]);
    LastLead(before, last, start);
  }

  /** One lead byte, then only continuation bytes. */
  lemma EncodingShape(c: nat)
    requires CodePoint(c)
    ensures |Encode(c)| > 0 && !Continuation(Encode(c)[0])
    ensures forall k :: 0 < k < |Encode(c)| ==> Continuation(Encode(c)[k])
  {}

  lemma LastLead(before: seq<byte>, last: seq<byte>, start: nat)
    requires last != [] && !Continuation(last[0]) && forall k :: 0 < k < |last| ==> Continuation(last[k])
    requires start < |before + last| && forall k :: start < k < |before + last| ==> Continuation((before + last)[k])
    requires start == 0 || !Continuation((before + last)[start])
    ensures start == |before| && (before + last)[..start] == before
  {
    var t := before + last;
    assert t[|before|] == last[0];
    assert forall k :: |before| < k < |t| ==> t[k] == last[k - |before|];
  }

  /** The last character erased, the text stays acceptable. */
  lemma ErasedIsText(s: seq<nat>, text: seq<byte>, limit: nat)
    requires TextOf(s, text) && s != [] && |text| <= limit
    ensures IsText(EncodeAll(s[..|s| - 1]), limit)
  {
    EncodeAllSnoc(s);
    assert TextOf(s[..|s| - 1], EncodeAll(s[..|s| - 1]));
  }

  lemma TypedIsText(text: seq<byte>, c: byte, limit: nat)
    requires IsText(text, limit) && |text| < limit && 32 <= c <= 126
    ensures IsText(text + [c], limit)
  {
    var s: seq<nat> :| TextOf(s, text);
    EncodeAllAppend(s, [c]);
    assert [c][1..] == [] && EncodeAll([c]) == [c];
    assert TextOf(s + [c], text + [c]);
  }

  datatype Key = Backspace | Typed(c: byte)

  /** The text-editing keys of the settings page. */
  method EditKey(editor: seq<byte>, key: Key, limit: nat) returns (r: seq<byte>)
    ensures IsText(editor, limit) ==> IsText(r, limit)
    ensures key.Typed? && 32 <= key.c <= 126 ==> r == if |editor| >= limit then editor else editor + [key.c]
    ensures key.Typed? && !(32 <= key.c <= 126) ==> r == editor
    ensures key.Backspace? ==> forall s | TextOf(s, editor) && s != [] :: r == EncodeAll(s[..|s| - 1])
  {
    r := editor;
    match key
    case Backspace =>
      r := EraseLast(editor);
      if IsText(editor, limit) {
        ghost var s: seq<nat> :| TextOf(s, editor);
        if s != [] { ErasedIsText(s, editor, limit); }
      }
    case Typed(c) =>
      if 32 <= c <= 126 && |editor| < limit {
        r := editor + [c];
        if IsText(editor, limit) { TypedIsText(editor, c, limit); }
      }
  }
}
