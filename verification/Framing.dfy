/**
 Reassembly of JSON lines from fragments: the desktop buffer cuts at line feeds after extending, the firmware
 buffer works byte by byte. `Split` says what the lines of a stream are; both buffers are proved against it.
 Streams are generic in their element so that bytes can carry provenance; `end` recognises the line feed.
 */
module Framing {
  import opened Common

  const TIMEOUT_MS := 5000

  datatype Cut<T> = Cut(lines: seq<seq<T>>, rest: seq<T>)

  /** The complete lines of a stream, and what follows the last line feed. */
  function Split<T>(s: seq<T>, end: T -> bool): Cut<T> {
    if s == [] then Cut([], [])
    else
      var c, x := Split(s[..|s| - 1], end), s[|s| - 1];
      if end(x) then Cut(c.lines + [c.rest], []) else Cut(c.lines, c.rest + [x])
  }

  function NonEmpty<T>(lines: seq<seq<T>>): seq<seq<T>> {
    if lines == [] then [] else (if lines[0] == [] then [] else [lines[0]]) + NonEmpty(lines[1..])
  }

  predicate Fits<T>(c: Cut<T>, limit: nat) {
    (forall i :: 0 <= i < |c.lines| ==> |c.lines[i]| <= limit) && |c.rest| <= limit
  }

  /** Cutting a stream in two and carrying the rest over loses and joins nothing. */
  lemma {:induction false} SplitAppend<T>(a: seq<T>, b: seq<T>, end: T -> bool)
    ensures var c := Split(a, end);
            var d := Split(c.rest + b, end);
            Split(a + b, end) == Cut(c.lines + d.lines, d.rest)
    decreases |b|
  {
    var c := Split(a, end);
    if b == [] {
      SplitRest(a, end);
      SplitPlain(c.rest, end);
      assert a + b == a && c.rest + b == c.rest;
    } else {
      var b', x := b[..|b| - 1], b[|b| - 1];
      SplitAppend(a, b', end);
      assert (a + b)[..|a + b| - 1] == a + b';
      assert (c.rest + b)[..|c.rest + b| - 1] == c.rest + b';
    }
  }

  lemma {:induction false} SplitPlain<T>(s: seq<T>, end: T -> bool)
    requires forall k :: 0 <= k < |s| ==> !end(s[k])
    ensures Split(s, end) == Cut([], s)
  {
    if s != [] {
      SplitPlain(s[..|s| - 1], end);
    }
  }

  lemma {:induction false} SplitRest<T>(s: seq<T>, end: T -> bool)
    ensures forall k :: 0 <= k < |Split(s, end).rest| ==> !end(Split(s, end).rest[k])
  {
    if s != [] {
      SplitRest(s[..|s| - 1], end);
      assert Split(s, end).rest == if end(s[|s| - 1]) then [] else Split(s[..|s| - 1], end).rest + [s[|s| - 1]];
    }
  }

  /** The first line of a stream. */
  lemma SplitLine<T>(line: seq<T>, x: T, s: seq<T>, end: T -> bool)
    requires end(x) && forall k :: 0 <= k < |line| ==> !end(line[k])
    ensures Split(line + [x] + s, end) == Cut([line] + Split(s, end).lines, Split(s, end).rest)
  {
    SplitPlain(line, end);
    assert (line + [x])[..|line|] == line;
    SplitAppend(line + [x], s, end);
    assert Split(line + [x], end) == Cut([line], []);
    assert [] + s == s;
  }

  lemma {:induction false} NonEmptyAppend<T>(a: seq<seq<T>>, b: seq<seq<T>>)
    ensures NonEmpty(a + b) == NonEmpty(a) + NonEmpty(b)
  {
    if a == [] {
      assert a + b == b;
    } else {
      assert (a + b)[1..] == a[1..] + b;
      NonEmptyAppend(a[1..], b);
    }
  }

  // ---------------------------------------------------------------- byte streams

  const IS_LF: byte -> bool := b => b == LF

  /** Each line followed by a line feed. */
  function Join(lines: seq<seq<byte>>): seq<byte> {
    if lines == [] then [] else lines[0] + [LF] + Join(lines[1..])
  }

  /** `Split` is the inverse of joining lines, for any stream. */
  lemma {:induction false} SplitJoin(lines: seq<seq<byte>>, rest: seq<byte>)
    requires (forall i :: 0 <= i < |lines| ==> LF !in lines[i]) && LF !in rest
    ensures Split(Join(lines) + rest, IS_LF) == Cut(lines, rest)
  {
    if lines == [] {
      assert Join(lines) + rest == rest;
      SplitPlain(rest, IS_LF);
    } else {
      SplitJoin(lines[1..], rest);
      SplitLine(lines[0], LF, Join(lines[1..]) + rest, IS_LF);
      assert Join(lines) + rest == lines[0] + [LF] + (Join(lines[1..]) + rest);
    }
  }

  lemma {:induction false} JoinSnoc(lines: seq<seq<byte>>, line: seq<byte>)
    ensures Join(lines + [line]) == Join(lines) + line + [LF]
  {
    if lines == [] {
      assert Join([line]) == line + [LF] + Join([line][1..]);
    } else {
      JoinSnoc(lines[1..], line);
      assert (lines + [line])[1..] == lines[1..] + [line];
    }
  }

  // ---------------------------------------------------------------- the desktop buffer

  datatype DesktopFeed = Lines(lines: seq<seq<byte>>) | TooLarge | TimedOut

  /** What one unexpired call returns and keeps. An over-long line loses every line of its call. */
  function DesktopFed(buffer: seq<byte>, chunk: seq<byte>, limit: nat): (DesktopFeed, seq<byte>) {
    var c := Split(buffer + chunk, IS_LF);
    if chunk == [] then (Lines([]), buffer)
    else if Fits(c, limit) then (Lines(NonEmpty(c.lines)), c.rest)
    else (TooLarge, [])
  }

  /** The age of what is kept: from its first chunk on, or from the last line cut off before it. */
  function StampAfter(buffer: seq<byte>, chunk: seq<byte>, since: Option<real>, at: real): Option<real> {
    var all := Split(buffer + chunk, IS_LF);
    if chunk == [] then since
    else if all.rest == [] then None
    else if buffer == [] || all.lines != [] then Some(at) else since
  }

  lemma {:induction false} LinesCut(s: seq<byte>)
    ensures Split(s, IS_LF).lines == [] <==> LF !in s
  {
    if s != [] {
      LinesCut(s[..|s| - 1]);
      assert s == s[..|s| - 1] + [s[|s| - 1]];
    }
  }

  /** What is kept is as old as the chunk it began with; nothing kept has no age. */
  lemma StampMeans(buffer: seq<byte>, chunk: seq<byte>, since: Option<real>, at: real)
    requires LF !in buffer && chunk != []
    ensures StampAfter(buffer, chunk, since, at)
         == if chunk[|chunk| - 1] == LF then None else if buffer == [] || LF in chunk then Some(at) else since
  {
    var whole := buffer + chunk;
    LinesCut(whole);
    assert LF in whole <==> LF in chunk;
    assert whole[|whole| - 1] == chunk[|chunk| - 1];
  }

  class DesktopJsonlBuffer {
    const maxJsonBytes: nat
    const timeoutSeconds: real
    var buffer: seq<byte>
    var startedAt: Option<real>

    constructor (maxJsonBytes: nat := 4096, timeoutSeconds: real := 5.0)
      ensures this.maxJsonBytes == maxJsonBytes && this.timeoutSeconds == timeoutSeconds
      ensures buffer == [] && startedAt == None
    {
      this.maxJsonBytes, this.timeoutSeconds := maxJsonBytes, timeoutSeconds;
      buffer, startedAt := [], None;
    }

    predicate Expired(clock: real)
      reads this
    {
      startedAt.Some? && clock - startedAt.value >= timeoutSeconds
    }

    method Clear()
      modifies this
      ensures buffer == [] && startedAt == None
    {
      buffer, startedAt := [], None;
    }

    method CheckTimeout(clock: real) returns (raised: bool)
      modifies this
      ensures raised == old(Expired(clock))
      ensures if raised then buffer == [] && startedAt == None
              else buffer == old(buffer) && startedAt == old(startedAt)
    {
      raised := false;
      if startedAt.Some? && clock - startedAt.value >= timeoutSeconds {
        Clear();
        raised := true;
      }
    }

    /**
     `checkedAt` is the clock read by the timeout check, `stampedAt` the one read by the last stamp taken.
     */
    method Feed(chunk: seq<byte>, checkedAt: real, stampedAt: real) returns (r: DesktopFeed)
      modifies this
      ensures (r, buffer) == if old(Expired(checkedAt)) then (TimedOut, [])
                             else DesktopFed(old(buffer), chunk, maxJsonBytes)
      ensures startedAt == if r.Lines? then StampAfter(old(buffer), chunk, old(startedAt), stampedAt) else None
    {
      var raised := CheckTimeout(checkedAt);
      if raised {
        return TimedOut;
      }
      if chunk == [] {
        return Lines([]);
      }
      if buffer == [] {
        startedAt := Some(stampedAt);
      }
      buffer := buffer + chunk;
      ghost var whole := buffer;
      ghost var cut: seq<seq<byte>> := [];
      var lines: seq<seq<byte>> := [];
      CutNothing(whole, maxJsonBytes);
      var newline := IndexOfLf(buffer);
      while newline < |buffer|
        invariant newline == IndexOfLf(buffer) && Cutting(whole, cut, lines, buffer, maxJsonBytes)
        invariant startedAt == if buffer == [] then None else if old(buffer) == [] || cut != [] then Some(stampedAt) else old(startedAt)
        decreases |buffer|
      {
        var line := buffer[..newline];
        CutOne(whole, cut, lines, buffer, newline, maxJsonBytes);
        buffer := buffer[newline + 1..];
        if |line| > maxJsonBytes {
          Clear();
          return TooLarge;
        }
        cut := cut + [line];
        if line != [] {
          lines := lines + [line];
        }
        startedAt := if buffer != [] then Some(stampedAt) else None;
        newline := IndexOfLf(buffer);
      }
      CutAll(whole, cut, lines, buffer, maxJsonBytes);
      if |buffer| > maxJsonBytes {
        Clear();
        return TooLarge;
      }
      return Lines(lines);
    }
  }

  /** Some lines, all short enough, have been cut off the front of the whole; the buffer is what is left. */
  ghost predicate Cutting(whole: seq<byte>, cut: seq<seq<byte>>, lines: seq<seq<byte>>, buffer: seq<byte>, limit: nat) {
    && Split(whole, IS_LF) == Cut(cut + Split(buffer, IS_LF).lines, Split(buffer, IS_LF).rest)
    && lines == NonEmpty(cut) && forall i :: 0 <= i < |cut| ==> |cut[i]| <= limit
  }

  lemma CutNothing(whole: seq<byte>, limit: nat)
    ensures Cutting(whole, [], [], whole, limit)
  {
    assert [] + Split(whole, IS_LF).lines == Split(whole, IS_LF).lines;
  }

  lemma CutOne(whole: seq<byte>, cut: seq<seq<byte>>, lines: seq<seq<byte>>, buffer: seq<byte>, newline: nat, limit: nat)
    requires Cutting(whole, cut, lines, buffer, limit) && newline == IndexOfLf(buffer) < |buffer|
    ensures var line := buffer[..newline];
            if |line| > limit then !Fits(Split(whole, IS_LF), limit)
            else Cutting(whole, cut + [line], if line == [] then lines else lines + [line], buffer[newline + 1..], limit)
  {
    var line := buffer[..newline];
    CutFirst(buffer, newline);
    CutLine(Split(whole, IS_LF), cut, line, Split(buffer, IS_LF), Split(buffer[newline + 1..], IS_LF));
    NonEmptyAppend(cut, [line]);
    assert NonEmpty([line]) == if line == [] then [] else [line];
    assert Split(whole, IS_LF).lines[|cut|] == line;
  }

  lemma CutAll(whole: seq<byte>, cut: seq<seq<byte>>, lines: seq<seq<byte>>, buffer: seq<byte>, limit: nat)
    requires Cutting(whole, cut, lines, buffer, limit) && IndexOfLf(buffer) == |buffer|
    ensures Split(whole, IS_LF) == Cut(cut, buffer) && lines == NonEmpty(cut)
    ensures Fits(Split(whole, IS_LF), limit) <==> |buffer| <= limit
  {
    SplitPlain(buffer, IS_LF);
  }

  function IndexOfLf(s: seq<byte>): (i: nat)
    ensures i <= |s| && (i < |s| ==> s[i] == LF)
    ensures forall k :: 0 <= k < i ==> s[k] != LF
  {
    if s == [] || s[0] == LF then 0 else 1 + IndexOfLf(s[1..])
  }

  lemma CutFirst(s: seq<byte>, i: nat)
    requires i < |s| && s[i] == LF && forall k :: 0 <= k < i ==> s[k] != LF
    ensures Split(s, IS_LF) == Cut([s[..i]] + Split(s[i + 1..], IS_LF).lines, Split(s[i + 1..], IS_LF).rest)
  {
    var line, t := s[..i], s[i + 1..];
    assert s == line + [LF] + t;
    SplitLine(line, LF, t, IS_LF);
  }

  lemma CutLine(all: Cut<byte>, cut: seq<seq<byte>>, line: seq<byte>, c: Cut<byte>, t: Cut<byte>)
    requires all == Cut(cut + c.lines, c.rest) && c == Cut([line] + t.lines, t.rest)
    ensures all == Cut(cut + [line] + t.lines, t.rest) && all.lines[|cut|] == line
  {}

  // ---------------------------------------------------------------- the firmware buffer

  datatype Fed<T> = Fed(lines: seq<seq<T>>, rest: seq<T>, overflowed: bool)

  /** Byte by byte: the byte that would exceed the limit discards its line and the rest of the fragment. */
  function FeedBytes<T>(buffer: seq<T>, data: seq<T>, limit: nat, end: T -> bool): Fed<T>
    decreases |data|
  {
    if data == [] then Fed([], buffer, false)
    else if end(data[0]) then
      var r := FeedBytes([], data[1..], limit, end);
      r.(lines := NonEmpty([buffer]) + r.lines)
    else if |buffer| >= limit then Fed([], [], true)
    else FeedBytes(buffer + [data[0]], data[1..], limit, end)
  }

  class JsonlBuffer {
    const maxBytes: nat
    const timeoutMs: u32
    var buffer: seq<byte>
    var lastByteAtMs: u32
    var hasPending: bool

    ghost predicate Valid()
      reads this
    {
      (hasPending <==> buffer != []) && (!hasPending ==> lastByteAtMs == 0)
    }

    constructor (maxBytes: nat := 4096, timeoutMs: u32 := 5000)
      ensures Valid() && buffer == [] && this.maxBytes == maxBytes && this.timeoutMs == timeoutMs
    {
      this.maxBytes, this.timeoutMs := maxBytes, timeoutMs;
      buffer, lastByteAtMs, hasPending := [], 0, false;
    }

    predicate Expired(now: u32)
      reads this
    {
      hasPending && Elapsed(now, lastByteAtMs) >= timeoutMs
    }

    method Clear()
      modifies this
      ensures Valid() && buffer == []
    {
      buffer, hasPending, lastByteAtMs := [], false, 0;
    }

    method ExpireIfNeeded(now: u32) returns (timedOut: bool)
      requires Valid()
      modifies this
      ensures Valid() && timedOut == old(Expired(now))
      ensures buffer == (if timedOut then [] else old(buffer))
      ensures !timedOut ==> lastByteAtMs == old(lastByteAtMs)
    {
      timedOut := hasPending && Elapsed(now, lastByteAtMs) >= timeoutMs;
      if timedOut {
        Clear();
      }
    }

    method Feed(data: seq<byte>, now: u32) returns (lines: seq<seq<byte>>, overflowed: bool, timedOut: bool)
      requires Valid()
      modifies this
      ensures Valid() && timedOut == old(Expired(now))
      ensures Fed(lines, buffer, overflowed)
           == FeedBytes(if timedOut then [] else old(buffer), data, maxBytes, IS_LF)
      ensures lastByteAtMs == if buffer == [] then 0 else if data == [] then old(lastByteAtMs) else now
    {
      timedOut := ExpireIfNeeded(now);
      lines, overflowed := [], false;
      ghost var was := buffer;
      var index := 0;
      while index < |data|
        invariant index <= |data| && Valid() && !overflowed
        invariant var all, left := FeedBytes(was, data, maxBytes, IS_LF), FeedBytes(buffer, data[index..], maxBytes, IS_LF);
                  all == left.(lines := lines + left.lines)
        invariant index > 0 && buffer != [] ==> lastByteAtMs == now
        invariant index == 0 ==> buffer == was && (buffer != [] ==> lastByteAtMs == old(lastByteAtMs))
      {
        assert data[index..][0] == data[index] && data[index..][1..] == data[index + 1..];
        var value := data[index];
        index := index + 1;
        if value == LF {
          LineTaken(lines, buffer, FeedBytes([], data[index..], maxBytes, IS_LF).lines);
          if buffer != [] {
            lines := lines + [buffer];
          }
          Clear();
        } else if |buffer| >= maxBytes {
          Clear();
          overflowed := true;
          break;
        } else {
          buffer := buffer + [value];
          hasPending, lastByteAtMs := true, now;
        }
      }
    }
  }

  lemma LineTaken(lines: seq<seq<byte>>, buffer: seq<byte>, more: seq<seq<byte>>)
    ensures lines + (NonEmpty([buffer]) + more) == (if buffer == [] then lines else lines + [buffer]) + more
  {
    assert NonEmpty([buffer]) == if buffer == [] then [] else [buffer];
  }

  // ---------------------------------------------------------------- whole streams, in any chunking

  function Flat(chunks: seq<seq<byte>>): seq<byte> {
    if chunks == [] then [] else Flat(chunks[..|chunks| - 1]) + chunks[|chunks| - 1]
  }

  datatype Received = Received(ok: bool, lines: seq<seq<byte>>, rest: seq<byte>)

  /** A desktop buffer fed these chunks one by one, none of them late: every line returned, and what is kept. */
  function DesktopReceives(chunks: seq<seq<byte>>, limit: nat): Received {
    if chunks == [] then Received(true, [], [])
    else
      var r := DesktopReceives(chunks[..|chunks| - 1], limit);
      var (fed, rest) := DesktopFed(r.rest, chunks[|chunks| - 1], limit);
      if fed.Lines? then Received(r.ok, r.lines + fed.lines, rest) else Received(false, r.lines, rest)
  }

  function FirmwareReceives(chunks: seq<seq<byte>>, limit: nat): Received {
    if chunks == [] then Received(true, [], [])
    else
      var r := FirmwareReceives(chunks[..|chunks| - 1], limit);
      var fed := FeedBytes(r.rest, chunks[|chunks| - 1], limit, IS_LF);
      Received(r.ok && !fed.overflowed, r.lines + fed.lines, fed.rest)
  }

  /** What both buffers should deliver: the nonempty lines of the stream. */
  function Ideal(s: seq<byte>): Received {
    Received(true, NonEmpty(Split(s, IS_LF).lines), Split(s, IS_LF).rest)
  }

  lemma {:induction false} PrefixFits<T>(a: seq<T>, b: seq<T>, limit: nat, end: T -> bool)
    requires Fits(Split(a + b, end), limit)
    ensures Fits(Split(a, end), limit)
    decreases |b|
  {
    if b == [] {
      assert a + b == a;
    } else {
      var b' := b[..|b| - 1];
      assert (a + b)[..|a + b| - 1] == a + b';
      var c, d := Split(a + b', end), Split(a + b, end);
      forall i | 0 <= i < |c.lines| ensures |c.lines[i]| <= limit {
        assert c.lines[i] == d.lines[i];
      }
      assert |c.rest| <= limit by {
        if end(b[|b| - 1]) { assert d.lines[|c.lines|] == c.rest; }
      }
      PrefixFits(a, b', limit, end);
    }
  }

  lemma SplitKeep(s: seq<byte>, chunk: seq<byte>, limit: nat)
    ensures var c := Split(s, IS_LF);
            var d := Split(c.rest + chunk, IS_LF);
            && Ideal(s + chunk) == Received(true, NonEmpty(c.lines) + NonEmpty(d.lines), d.rest)
            && (Fits(Split(s + chunk, IS_LF), limit) <==> Fits(c, limit) && Fits(d, limit))
  {
    var c := Split(s, IS_LF);
    var d := Split(c.rest + chunk, IS_LF);
    SplitAppend(s, chunk, IS_LF);
    NonEmptyAppend(c.lines, d.lines);
    if Fits(Split(s + chunk, IS_LF), limit) {
      PrefixFits(s, chunk, limit, IS_LF);
    }
    if |c.rest| <= limit {
      FitsAppend(c, d, limit);
    }
  }

  lemma FitsAppend(c: Cut<byte>, d: Cut<byte>, limit: nat)
    requires |c.rest| <= limit
    ensures Fits(Cut(c.lines + d.lines, d.rest), limit) <==> Fits(c, limit) && Fits(d, limit)
  {
    var t := Cut(c.lines + d.lines, d.rest);
    if Fits(t, limit) {
      assert forall i :: 0 <= i < |d.lines| ==> t.lines[|c.lines| + i] == d.lines[i];
      assert forall i :: 0 <= i < |c.lines| ==> t.lines[i] == c.lines[i];
    }
  }

  /**
   Whatever the chunking: the desktop reports no over-long line exactly when the stream has none,
   and then it has returned exactly the nonempty lines of the stream and keeps the rest.
   */
  lemma {:induction false} DesktopReassembles(chunks: seq<seq<byte>>, limit: nat)
    ensures DesktopReceives(chunks, limit).ok <==> Fits(Split(Flat(chunks), IS_LF), limit)
    ensures DesktopReceives(chunks, limit).ok ==> DesktopReceives(chunks, limit) == Ideal(Flat(chunks))
  {
    if chunks != [] {
      var before, chunk := chunks[..|chunks| - 1], chunks[|chunks| - 1];
      DesktopReassembles(before, limit);
      SplitKeep(Flat(before), chunk, limit);
      if chunk == [] { assert Flat(before) + chunk == Flat(before); }
    }
  }

  // ---------------------------------------------------------------- the firmware buffer against the same definition

  /** The lines before the first over-long one. */
  function BeforeLong<T>(lines: seq<seq<T>>, limit: nat): seq<seq<T>> {
    if lines == [] || |lines[0]| > limit then [] else [lines[0]] + BeforeLong(lines[1..], limit)
  }

  lemma {:induction false} FirstLineExtends<T>(a: seq<T>, b: seq<T>, end: T -> bool)
    requires forall k :: 0 <= k < |a| ==> !end(a[k])
    ensures var c := Split(a + b, end); a <= if c.lines == [] then c.rest else c.lines[0]
    decreases |b|
  {
    if b == [] {
      assert a + b == a;
      SplitPlain(a, end);
    } else {
      assert (a + b)[..|a + b| - 1] == a + b[..|b| - 1];
      FirstLineExtends(a, b[..|b| - 1], end);
    }
  }

  /**
   The firmware finds the same lines. When one is over-long it still returns the lines before it, and
   discards that line together with everything after it in the fragment.
   */
  lemma {:induction false} FirmwareFeedsLines<T>(buffer: seq<T>, data: seq<T>, limit: nat, end: T -> bool)
    requires |buffer| <= limit && forall k :: 0 <= k < |buffer| ==> !end(buffer[k])
    ensures var c := Split(buffer + data, end);
            FeedBytes(buffer, data, limit, end)
            == if Fits(c, limit) then Fed(NonEmpty(c.lines), c.rest, false)
               else Fed(NonEmpty(BeforeLong(c.lines, limit)), [], true)
    decreases |data|
  {
    var c := Split(buffer + data, end);
    if data == [] {
      assert buffer + data == buffer;
      SplitPlain(buffer, end);
    } else if end(data[0]) {
      var t := Split(data[1..], end);
      assert buffer + data == buffer + [data[0]] + data[1..];
      SplitLine(buffer, data[0], data[1..], end);
      assert c.lines[1..] == t.lines && c.lines[0] == buffer;
      FirmwareFeedsLines([], data[1..], limit, end);
      assert [] + data[1..] == data[1..];
      assert Fits(t, limit) <==> Fits(c, limit) by {
        assert forall i :: 0 <= i < |t.lines| ==> c.lines[i + 1] == t.lines[i];
        assert forall i :: 0 < i < |c.lines| ==> c.lines[i] == t.lines[i - 1];
      }
      NonEmptyCons(buffer, t.lines);
      NonEmptyCons(buffer, BeforeLong(t.lines, limit));
    } else {
      var longer := buffer + [data[0]];
      assert longer + data[1..] == buffer + data;
      if |buffer| >= limit {
        FirstLineExtends(longer, data[1..], end);
        assert |longer| > limit;
      } else {
        FirmwareFeedsLines(longer, data[1..], limit, end);
      }
    }
  }

  lemma NonEmptyCons<T>(line: seq<T>, lines: seq<seq<T>>)
    ensures NonEmpty([line] + lines) == NonEmpty([line]) + NonEmpty(lines)
  {
    NonEmptyAppend([line], lines);
  }

  lemma {:induction false} FirmwareReassembles(chunks: seq<seq<byte>>, limit: nat)
    ensures FirmwareReceives(chunks, limit).ok <==> Fits(Split(Flat(chunks), IS_LF), limit)
    ensures FirmwareReceives(chunks, limit).ok ==> FirmwareReceives(chunks, limit) == Ideal(Flat(chunks))
    ensures LF !in FirmwareReceives(chunks, limit).rest && |FirmwareReceives(chunks, limit).rest| <= limit
  {
    if chunks != [] {
      var before, chunk := chunks[..|chunks| - 1], chunks[|chunks| - 1];
      FirmwareReassembles(before, limit);
      var r := FirmwareReceives(before, limit);
      FirmwareFeedsLines(r.rest, chunk, limit, IS_LF);
      SplitKeep(Flat(before), chunk, limit);
      SplitRest(r.rest + chunk, IS_LF);
    }
  }

  // ---------------------------------------------------------------- when the two ends return the same

  /** What is carried over to the next fragment: the unfinished line, or nothing after an over-long one. */
  function Carried(chunks: seq<seq<byte>>, limit: nat): seq<byte> {
    if chunks == [] then []
    else
      var c := Split(Carried(chunks[..|chunks| - 1], limit) + chunks[|chunks| - 1], IS_LF);
      if Fits(c, limit) then c.rest else []
  }

  /** No fragment completes a nonempty line before it shows an over-long one. */
  predicate NoneLost(chunks: seq<seq<byte>>, limit: nat) {
    chunks == []
    || var before := chunks[..|chunks| - 1];
       var c := Split(Carried(before, limit) + chunks[|chunks| - 1], IS_LF);
       NoneLost(before, limit) && (Fits(c, limit) || NonEmpty(BeforeLong(c.lines, limit)) == [])
  }

  lemma DesktopCarries(rest: seq<byte>, chunk: seq<byte>, limit: nat)
    requires LF !in rest && |rest| <= limit
    ensures var c := Split(rest + chunk, IS_LF);
            DesktopFed(rest, chunk, limit) == if Fits(c, limit) then (Lines(NonEmpty(c.lines)), c.rest) else (TooLarge, [])
  {
    if chunk == [] {
      assert rest + chunk == rest;
      SplitPlain(rest, IS_LF);
    }
  }

  /** Both carry the same over, and the desktop falls behind exactly where a line is lost. */
  lemma {:induction false} EndsCompared(chunks: seq<seq<byte>>, limit: nat)
    ensures DesktopReceives(chunks, limit).rest == FirmwareReceives(chunks, limit).rest == Carried(chunks, limit)
    ensures var d, f := DesktopReceives(chunks, limit).lines, FirmwareReceives(chunks, limit).lines;
            |d| <= |f| && (|d| == |f| ==> d == f) && (|d| == |f| <==> NoneLost(chunks, limit))
  {
    if chunks != [] {
      var before, chunk := chunks[..|chunks| - 1], chunks[|chunks| - 1];
      EndsCompared(before, limit);
      FirmwareReassembles(before, limit);
      DesktopCarries(Carried(before, limit), chunk, limit);
      FirmwareFeedsLines(Carried(before, limit), chunk, limit, IS_LF);
    }
  }

  /**
   For all streams in all fragments: both ends report a fault or neither does, both carry the same over, and they return the
   same lines if and only if no fragment completes a nonempty line before an over-long one; without a fault none does.
   */
  lemma BuffersAgree(chunks: seq<seq<byte>>, limit: nat)
    ensures DesktopReceives(chunks, limit).ok == FirmwareReceives(chunks, limit).ok
    ensures DesktopReceives(chunks, limit).rest == FirmwareReceives(chunks, limit).rest
    ensures DesktopReceives(chunks, limit).lines == FirmwareReceives(chunks, limit).lines <==> NoneLost(chunks, limit)
    ensures Fits(Split(Flat(chunks), IS_LF), limit) ==> NoneLost(chunks, limit)
  {
    DesktopReassembles(chunks, limit);
    FirmwareReassembles(chunks, limit);
    EndsCompared(chunks, limit);
  }

  /** At every limit there is such a fragment: one byte in a line, then a line of one byte too many. */
  function LostLine(limit: nat): seq<byte> { [65, LF] + seq(limit + 1, _ => 66) + [LF] }

  lemma LostLineCut(limit: nat)
    ensures Split(LostLine(limit), IS_LF) == Cut([[65], seq(limit + 1, _ => 66)], [])
  {
    var long: seq<byte> := seq(limit + 1, _ => 66);
    var lines: seq<seq<byte>> := [[65], long];
    SplitJoin(lines, []);
    assert lines[1..] == [long] && [long][1..] == [];
    assert Join([long]) == long + [LF] && Join(lines) == [65] + [LF] + Join([long]);
    assert Join(lines) + [] == LostLine(limit);
  }

  /** There the firmware returns the first line and the desktop nothing; at limit 0 no nonempty line ever fits. */
  lemma OverlongDiffers(limit: nat)
    requires limit > 0
    ensures DesktopReceives([LostLine(limit)], limit).lines == []
    ensures FirmwareReceives([LostLine(limit)], limit).lines == [[65]]
  {
    var s, long: seq<byte> := LostLine(limit), seq(limit + 1, _ => 66);
    var lines: seq<seq<byte>> := [[65], long];
    LostLineCut(limit);
    var none: seq<seq<byte>> := [s][..0];
    assert none == [] && [] + s == s && |lines[1]| == limit + 1;
    FirmwareFeedsLines([], s, limit, IS_LF);
    assert lines[1..] == [long];
    assert BeforeLong(lines, limit) == [[65]] && NonEmpty([[65]]) == [[65]];
  }
}
