/** Words, optional values and the wrapping millisecond clock shared by every module. */
module Common {
  datatype Option<+T> = None | Some(value: T)

  type byte = b: int | 0 <= b < 0x100

  const TWO_TO_THE_32: int := 0x1_0000_0000
  const TWO_TO_THE_64: int := 0x1_0000_0000_0000_0000

  type u32 = x: int | 0 <= x < TWO_TO_THE_32
  type u64 = x: int | 0 <= x < TWO_TO_THE_64

  const LF: byte := 0x0A
  const CR: byte := 0x0D

  function Min(a: int, b: int): int {
    if a < b then a else b
  }

  /** What `millis()` shows at an instant of unbounded time. */
  function Millis(t: nat): u32 {
    t % TWO_TO_THE_32
  }

  /** Unsigned 32-bit subtraction. */
  function Elapsed(now: u32, since: u32): u32 {
    if since <= now then now - since else now - since + TWO_TO_THE_32
  }

  /** The 32-bit difference of two clock readings is the time between them, less whole turns of the clock. */
  lemma ElapsedIsTimeModWrap(now: nat, since: nat)
    requires since <= now
    ensures Elapsed(Millis(now), Millis(since)) == (now - since) % TWO_TO_THE_32
  {
    var m := TWO_TO_THE_32;
    var q := (now - since) / m;
    var d := (now - since) % m;
    var r := since % m;
    assert now == (since / m + q) * m + (r + d);
    if r + d < m {
      DivModUnique(now, m, since / m + q, r + d);
    } else {
      DivModUnique(now, m, since / m + q + 1, r + d - m);
    }
  }

  /** So it is exact while less than one turn has passed. */
  lemma ElapsedExact(now: nat, since: nat)
    requires since <= now < since + TWO_TO_THE_32
    ensures Elapsed(Millis(now), Millis(since)) == now - since
  {
    ElapsedIsTimeModWrap(now, since);
  }

  /** It never overstates the time between the readings. */
  lemma ElapsedAtMost(now: nat, since: nat)
    requires since <= now
    ensures Elapsed(Millis(now), Millis(since)) <= now - since
  {
    ElapsedIsTimeModWrap(now, since);
  }

  lemma DivModUnique(x: int, m: int, q: int, r: int)
    requires 0 < m && 0 <= r < m && x == q * m + r
    ensures x / m == q && x % m == r
  {
    var q', r' := x / m, x % m;
    assert (q - q') * m == r' - r;
    assert q - q' >= 1 ==> (q - q') * m >= m;
    assert q - q' <= -1 ==> (q - q') * m <= -m;
  }

  lemma Regroup<T>(x: seq<T>, y: seq<T>, z: seq<T>)
    ensures (x + y) + z == x + (y + z)
  {}
}
