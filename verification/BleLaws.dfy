/** What a poll of the transport receives: the lines of the bytes written under this connection, all of them and in order. */
module BleLaws {
  import opened Common
  import opened Framing
  import opened BleTransport
  import opened BleProvenance
  import Q = OutgoingQueue

  // ---------------------------------------------------------------- what the line buffer holds

  /** The buffer holds the beginning of one line, and the queues are within their bounds. */
  predicate Bounded(s: Transport<byte>) {
    LF !in s.buffer && |s.buffer| <= MAX_LINE && |s.messages| <= QUEUE_LIMIT && |s.chunks| <= QUEUE_LIMIT
  }

  function Taken(messages: seq<seq<byte>>, lines: seq<seq<byte>>): seq<seq<byte>>
    requires |messages| <= QUEUE_LIMIT
  {
    messages + lines[..Min(|lines|, QUEUE_LIMIT - |messages|)]
  }

  /** Lines queue up behind those that wait; what finds no place is dropped. */
  lemma {:induction false} QueuedIsTaken(messages: seq<seq<byte>>, lines: seq<seq<byte>>)
    requires |messages| <= QUEUE_LIMIT
    ensures Queued(messages, lines) == Taken(messages, lines)
    decreases |lines|
  {
    if lines != [] {
      if |messages| >= QUEUE_LIMIT {
        QueuedIsTaken(messages, lines[1..]);
      } else {
        var longer := messages + [lines[0]];
        QueuedIsTaken(longer, lines[1..]);
        var room := QUEUE_LIMIT - |messages|;
        assert lines[..Min(|lines|, room)] == [lines[0]] + lines[1..][..Min(|lines| - 1, room - 1)];
      }
    }
  }

  /** A beginning that has waited for five seconds is given up. */
  function Fresh(s: Transport<byte>, now: u32): seq<byte> {
    if s.buffer != [] && Elapsed(now, s.lastByteAt) >= 5000 then [] else s.buffer
  }

  function LinesOf(c: Cut<byte>): seq<seq<byte>> { NonEmpty(if Fits(c, MAX_LINE) then c.lines else BeforeLong(c.lines, MAX_LINE)) }

  function RestOf(c: Cut<byte>): seq<byte> { if Fits(c, MAX_LINE) then c.rest else [] }

  lemma FedMeans(s: Transport<byte>, data: seq<byte>, now: u32)
    requires Bounded(s)
    ensures var c, s' := Split(Fresh(s, now) + data, IS_LF), FeedData(s, data, now, IS_LF);
            && s'.messages == Taken(s.messages, LinesOf(c)) && s'.buffer == RestOf(c) && Bounded(s')
            && s' == s.(messages := s'.messages, buffer := s'.buffer, lastByteAt := s'.lastByteAt)
            && (s'.buffer != [] && data != [] ==> s'.lastByteAt == now) && (s'.buffer != [] && data == [] ==> s'.lastByteAt == s.lastByteAt)
  {
    var e := Expire(s, now);
    assert e.buffer == Fresh(s, now);
    FirmwareFeedsLines(e.buffer, data, MAX_LINE, IS_LF);
    QueuedIsTaken(s.messages, LinesOf(Split(e.buffer + data, IS_LF)));
    SplitRest(e.buffer + data, IS_LF);
    assert FeedBytes(e.buffer, data, MAX_LINE, IS_LF).lines == LinesOf(Split(e.buffer + data, IS_LF));
  }

  lemma StepBounded(s: Transport<byte>, event: Event<byte>)
    requires Q.FramesOk(s.outgoing.frames) && Bounded(s)
    ensures Bounded(Step(s, event, IS_LF).0)
  {
    if event.FeedChunk? && s.task.Draining? && s.task.chunks != [] {
      FedMeans(s.(task := s.task.(chunks := s.task.chunks[1..])), s.task.chunks[0].data, event.pollNow);
    }
  }

  /** In every interleaving. */
  lemma {:induction false} AlwaysBounded(events: seq<Event<byte>>)
    ensures Bounded(ByteRun(events))
  {
    if events != [] {
      AlwaysBounded(events[..|events| - 1]);
      StepBounded(ByteRun(events[..|events| - 1]), events[|events| - 1]);
    }
  }

  // ---------------------------------------------------------------- callbacks and requests

  /** A written chunk waits behind the others under the connection of that moment; with eight waiting it is dropped. */
  lemma WriteMeans(s: Transport<byte>, data: seq<byte>)
    requires Q.FramesOk(s.outgoing.frames)
    ensures Step(s, Write(data), IS_LF).0
         == if |s.chunks| < 8 then s.(chunks := s.chunks + [Chunk(data, s.epoch % TWO_TO_THE_32)]) else s
  {}

  /** A request is handed to the queue on a live connection only, and marked with it. */
  lemma RequestMeans(s: Transport<byte>, id: string, jsonl: seq<byte>, now: u32)
    requires Q.FramesOk(s.outgoing.frames) && s.task.Idle?
    ensures Step(s, Request(id, jsonl, now), IS_LF).0
         == if s.connected && s.polled == s.epoch % TWO_TO_THE_32
            then s.(outgoing := Q.Enqueued(s.outgoing, id, jsonl, now, s.epoch % TWO_TO_THE_32).0) else s
  {}

  /** A transmission polls the queue once, on a live connection; the sink takes the fragment only if the connection still lives then. */
  lemma TransmitMeans(s: Transport<byte>, now: u32, notified: bool)
    requires Q.FramesOk(s.outgoing.frames)
    ensures s.task.Idle? ==>
              Step(s, BeginTransmit, IS_LF) == (if s.connected && s.polled == s.Generation() then s.(task := Transmitting) else s, Nothing)
    ensures s.task.Transmitting? ==>
              var takes := s.connected && s.polled == s.Generation() && notified;
              var (s', out) := Step(s, Transmit(now, notified), IS_LF);
              var (q, offered) := Q.Polled(s.outgoing, now, s.polled, takes);
              s' == s.(outgoing := q, task := Idle) && (out.Notified? <==> takes && offered.Some?)
              && (out.Notified? ==> out.fragment == offered.value)
  {}

  // ---------------------------------------------------------------- a whole poll

  /** The bytes of the chunks written under this generation, in order. */
  function Written(chunks: seq<Chunk<byte>>, generation: u32): seq<byte> {
    if chunks == [] then []
    else (if chunks[0].generation == generation then chunks[0].data else []) + Written(chunks[1..], generation)
  }

  /** The stream fits: no over-long line, and a place for every line. */
  predicate Room(messages: seq<seq<byte>>, c: Cut<byte>) { Fits(c, MAX_LINE) && |messages| + |NonEmpty(c.lines)| <= QUEUE_LIMIT }

  /** One chunk first: c is its cut, d that of the whole, e that of what comes after. */
  lemma RoomSplits(messages: seq<seq<byte>>, c: Cut<byte>, e: Cut<byte>, d: Cut<byte>)
    requires Room(messages, d) && |messages| <= QUEUE_LIMIT && d == Cut(c.lines + e.lines, e.rest)
    requires NonEmpty(d.lines) == NonEmpty(c.lines) + NonEmpty(e.lines) && Fits(c, MAX_LINE) && Fits(e, MAX_LINE)
    ensures Taken(messages, LinesOf(c)) == messages + NonEmpty(c.lines) && Room(messages + NonEmpty(c.lines), e)
  {
    assert NonEmpty(c.lines)[..|NonEmpty(c.lines)|] == NonEmpty(c.lines);
  }

  lemma FirstChunk(buffer: seq<byte>, data: seq<byte>, rest: seq<byte>, messages: seq<seq<byte>>, c: Cut<byte>, e: Cut<byte>, d: Cut<byte>)
    requires c == Split(buffer + data, IS_LF) && e == Split(c.rest + rest, IS_LF) && d == Split(buffer + (data + rest), IS_LF)
    requires Room(messages, d) && |messages| <= QUEUE_LIMIT
    ensures Fits(c, MAX_LINE) && Taken(messages, LinesOf(c)) == messages + NonEmpty(c.lines)
    ensures Room(messages + NonEmpty(c.lines), e) && d.rest == e.rest && NonEmpty(d.lines) == NonEmpty(c.lines) + NonEmpty(e.lines)
  {
    assert buffer + (data + rest) == (buffer + data) + rest;
    SplitKeep(buffer + data, rest, MAX_LINE);
    SplitAppend(buffer + data, rest, IS_LF);
    RoomSplits(messages, c, e, d);
  }

  /** The lines have been queued in order, the rest is kept, and nothing else has changed but the task. */
  predicate Received(s: Transport<byte>, s': Transport<byte>, c: Cut<byte>) {
    && s'.messages == s.messages + NonEmpty(c.lines) && s'.buffer == c.rest && s'.task.Idle?
    && s' == s.(messages := s'.messages, buffer := s'.buffer, lastByteAt := s'.lastByteAt, task := s'.task)
  }

  lemma ReceivedAfter(s: Transport<byte>, s2: Transport<byte>, s': Transport<byte>, c: Cut<byte>, e: Cut<byte>, d: Cut<byte>)
    requires s2.messages == s.messages + NonEmpty(c.lines) && Received(s2, s', e)
    requires s2 == s.(messages := s2.messages, buffer := s2.buffer, lastByteAt := s2.lastByteAt, task := s2.task)
    requires d.rest == e.rest && NonEmpty(d.lines) == NonEmpty(c.lines) + NonEmpty(e.lines)
    ensures Received(s, s', d)
  {}

  /** What has been taken over is fed in order. */
  lemma {:induction false} DrainReceives(s: Transport<byte>, now: u32, d: Cut<byte>)
    requires Q.FramesOk(s.outgoing.frames) && Bounded(s) && s.task.Draining?
    requires d == Split(Fresh(s, now) + Written(s.task.chunks, s.task.current), IS_LF) && Room(s.messages, d)
    ensures Received(s, Drain(s, now), d)
    decreases |s.task.chunks|
  {
    var chunks := s.task.chunks;
    if chunks == [] {
      assert Fresh(s, now) + [] == Fresh(s, now);
      SplitPlain(Fresh(s, now), IS_LF);
    } else {
      var rest := Written(chunks[1..], s.task.current);
      var s1 := s.(task := s.task.(chunks := chunks[1..]));
      if chunks[0].generation == s.task.current {
        var data := chunks[0].data;
        var c := Split(Fresh(s, now) + data, IS_LF);
        var e := Split(c.rest + rest, IS_LF);
        FirstChunk(Fresh(s, now), data, rest, s.messages, c, e, d);
        var s2 := FeedData(s1, data, now, IS_LF);
        FedMeans(s1, data, now);
        StaysFresh(s1, s2, data, now);
        DrainReceives(s2, now, e);
        ReceivedAfter(s, s2, Drain(s2, now), c, e, d);
      } else {
        assert [] + rest == rest;
        DrainReceives(s1, now, d);
      }
    }
  }

  lemma StaysFresh(s: Transport<byte>, s': Transport<byte>, data: seq<byte>, now: u32)
    requires Bounded(s) && s' == FeedData(s, data, now, IS_LF)
    ensures Fresh(s', now) == s'.buffer
  {
    FedMeans(s, data, now);
    if data == [] {
      assert Fresh(s, now) + [] == Fresh(s, now);
      SplitPlain(Fresh(s, now), IS_LF);
    }
  }

  /** The connection has changed since the last poll. */
  predicate Stale(s: Transport<byte>) { s.resetPending || s.polled != s.Generation() }

  /** What a poll leaves of an earlier connection, or of this one: the lines that wait, and the beginning that is still fresh. */
  function Waiting(s: Transport<byte>): seq<seq<byte>> { if Stale(s) then [] else s.messages }

  function Begun(s: Transport<byte>, now: u32): seq<byte> { if Stale(s) then [] else Fresh(s, now) }

  /**
   One poll, between any two calls of the loop task: if the connection has changed nothing of the old one is kept; then exactly the
   lines completed by what was written under this connection, chunk by chunk, are queued in their order behind those that wait, and
   the beginning of the next is kept.
   */
  lemma PollReceives(s: Transport<byte>, now: u32, c: Cut<byte>)
    requires Q.FramesOk(s.outgoing.frames) && Bounded(s) && s.task.Idle?
    requires c == Split(Begun(s, now) + Written(s.chunks, s.Generation()), IS_LF) && Room(Waiting(s), c)
    ensures var s' := PollAll(s, now);
            && s'.messages == Waiting(s) + NonEmpty(c.lines) && s'.buffer == c.rest && s'.chunks == []
            && s'.polled == s.Generation() && s'.epoch == s.epoch && s'.connected == s.connected && !s'.resetPending
            && s'.outgoing.frames == if Stale(s) then [] else s.outgoing.frames
  {
    var reset := Step(Step(s, ReadGeneration, IS_LF).0, ResetIfStale, IS_LF).0;
    var drained := Step(reset, SwapChunks, IS_LF).0;
    DrainReceives(drained, now, c);
  }

  /** The oldest line is delivered, to a live connection only; to a dead one nothing that waits is. */
  lemma TakeMeans(s: Transport<byte>)
    requires Q.FramesOk(s.outgoing.frames) && s.task.Idle?
    ensures var (s', out) := Step(s, Take, IS_LF);
            if !s.connected || s.polled != s.Generation() then out == Nothing && s' == s.(messages := [])
            else if s.messages == [] then out == Nothing && s' == s
            else out == Delivered(s.messages[0]) && s' == s.(messages := s.messages[1..])
  {}

  /** The lines a number of takes delivers. */
  function Takes(s: Transport<byte>, n: nat): (seq<seq<byte>>, Transport<byte>)
    requires Q.FramesOk(s.outgoing.frames)
    decreases n
  {
    if n == 0 then ([], s)
    else
      var (s1, out) := Step(s, Take, IS_LF);
      var (lines, s2) := Takes(s1, n - 1);
      ((if out.Delivered? then [out.line] else []) + lines, s2)
  }

  /** While the connection lives, takes deliver the waiting lines first come, first served. */
  lemma {:induction false} TakenInOrder(s: Transport<byte>, n: nat)
    requires Q.FramesOk(s.outgoing.frames) && s.task.Idle? && s.connected && s.polled == s.Generation() && n <= |s.messages|
    ensures Takes(s, n) == (s.messages[..n], s.(messages := s.messages[n..]))
    decreases n
  {
    if n > 0 {
      TakeMeans(s);
      var s1 := s.(messages := s.messages[1..]);
      TakenInOrder(s1, n - 1);
      assert s.messages[..n] == [s.messages[0]] + s.messages[1..][..n - 1];
      assert s.messages[1..][n - 1..] == s.messages[n..];
    }
  }
}
