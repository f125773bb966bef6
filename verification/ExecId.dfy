/** Request identities: a 64-bit counter that is never recycled, printed as sixteen hexadecimal digits. */
module ExecId {
  import opened Common

  const MAX_ID: u64 := TWO_TO_THE_64 - 1
  const DIGITS: string := "0123456789abcdef"

  function Pow16(width: nat): (p: nat)
    ensures p > 0
  {
    if width == 0 then 1 else 16 * Pow16(width - 1)
  }

  function Hex(n: nat, width: nat): (s: string)
    ensures |s| == width
  {
    if width == 0 then "" else Hex(n / 16, width - 1) + [DIGITS[n % 16]]
  }

  /** `%016llx`. */
  function Printed(n: u64): string { Hex(n, 16) }

  lemma {:induction false} HexInjective(a: nat, b: nat, width: nat)
    requires a < Pow16(width) && b < Pow16(width) && Hex(a, width) == Hex(b, width)
    ensures a == b
  {
    if width > 0 {
      var x, y := Hex(a / 16, width - 1), Hex(b / 16, width - 1);
      assert (x + [DIGITS[a % 16]])[..width - 1] == x && (y + [DIGITS[b % 16]])[..width - 1] == y;
      assert DIGITS[a % 16] == (x + [DIGITS[a % 16]])[width - 1] == DIGITS[b % 16];
      HexInjective(a / 16, b / 16, width - 1);
    }
  }

  function DigitValue(c: char): nat {
    if '0' <= c <= '9' then c as int - '0' as int else if 'a' <= c <= 'f' then c as int - 'a' as int + 10 else 0
  }

  function HexValue(s: string): nat {
    if s == "" then 0 else HexValue(s[..|s| - 1]) * 16 + DigitValue(s[|s| - 1])
  }

  lemma DigitReads(d: nat)
    requires d < 16
    ensures DigitValue(DIGITS[d]) == d
  {}

  /** The digits spell the number. */
  lemma {:induction false} HexReads(n: nat, width: nat)
    requires n < Pow16(width)
    ensures HexValue(Hex(n, width)) == n
  {
    if width > 0 {
      var front, last := Hex(n / 16, width - 1), DIGITS[n % 16];
      HexReads(n / 16, width - 1);
      DigitReads(n % 16);
      assert (front + [last])[..width - 1] == front;
      assert n == n / 16 * 16 + n % 16;
    }
  }

  /** Different counts print differently. */
  lemma PrintedInjective(a: u64, b: u64)
    requires Printed(a) == Printed(b)
    ensures a == b
  {
    assert Pow16(4) == 0x1_0000;
    assert Pow16(8) == 0x1_0000_0000;
    assert Pow16(12) == 0x1_0000_0000_0000;
    assert Pow16(16) == TWO_TO_THE_64;
    HexInjective(a, b, 16);
  }

  class ExecIdGenerator {
    var last: u64

    constructor (last: u64 := 0)
      ensures this.last == last
    {
      this.last := last;
    }

    /** No identity once the counter is exhausted, rather than a repeated one. */
    method Next() returns (id: Option<string>)
      modifies this
      ensures old(last) == MAX_ID ==> id == None && last == MAX_ID
      ensures old(last) < MAX_ID ==> last == old(last) + 1 && id == Some(Printed(last))
    {
      if last == MAX_ID {
        return None;
      }
      last := last + 1;
      id := Some(Printed(last));
    }
  }
}
