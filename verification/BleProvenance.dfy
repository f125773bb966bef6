/**
 The stamps of BleTransport.GenerationIsolation change nothing: erased from a stamped run they leave the very run on bytes
 that the object performs, so what is proved of stamped lines holds of the lines delivered.
 */
module BleProvenance {
  import opened Common
  import opened Framing
  import opened BleTransport
  import Q = OutgoingQueue

  function Erased(cells: seq<Cell>): (r: seq<byte>)
    ensures |r| == |cells| && forall i :: 0 <= i < |r| ==> r[i] == cells[i].value
  {
    seq(|cells|, i requires 0 <= i < |cells| => cells[i].value)
  }

  function ErasedLines(lines: seq<seq<Cell>>): (r: seq<seq<byte>>)
    ensures |r| == |lines| && forall i :: 0 <= i < |r| ==> r[i] == Erased(lines[i])
  {
    seq(|lines|, i requires 0 <= i < |lines| => Erased(lines[i]))
  }

  function ErasedChunks(chunks: seq<Chunk<Cell>>): (r: seq<Chunk<byte>>)
    ensures |r| == |chunks| && forall i :: 0 <= i < |r| ==> r[i] == Chunk(Erased(chunks[i].data), chunks[i].generation)
  {
    seq(|chunks|, i requires 0 <= i < |chunks| => Chunk(Erased(chunks[i].data), chunks[i].generation))
  }

  function ErasedTask(task: LoopTask<Cell>): LoopTask<byte> {
    match task
    case Idle => Idle
    case Polling(current) => Polling(current)
    case Swapping(current) => Swapping(current)
    case Draining(current, chunks) => Draining(current, ErasedChunks(chunks))
    case Transmitting => Transmitting
  }

  function Bare(s: Transport<Cell>): Transport<byte> {
    Transport(s.epoch, s.connected, s.resetPending, ErasedChunks(s.chunks), s.polled, Erased(s.buffer), s.lastByteAt,
              ErasedLines(s.messages), s.outgoing, ErasedTask(s.task))
  }

  function BareOutput(out: Output<Cell>): Output<byte> {
    match out
    case Nothing => Nothing
    case Delivered(line) => Delivered(Erased(line))
    case Notified(fragment, generation) => Notified(fragment, generation)
  }

  lemma {:induction false} FeedErased(buffer: seq<Cell>, data: seq<Cell>, limit: nat)
    ensures var r, b := FeedBytes(buffer, data, limit, CELL_LF), FeedBytes(Erased(buffer), Erased(data), limit, IS_LF);
            b.lines == ErasedLines(r.lines) && b.rest == Erased(r.rest) && b.overflowed == r.overflowed
    decreases |data|
  {
    if data != [] {
      assert Erased(data)[1..] == Erased(data[1..]);
      if CELL_LF(data[0]) {
        FeedErased([], data[1..], limit);
        LineErased(buffer, FeedBytes([], data[1..], limit, CELL_LF).lines);
      } else if |buffer| < limit {
        assert Erased(buffer + [data[0]]) == Erased(buffer) + [data[0].value];
        FeedErased(buffer + [data[0]], data[1..], limit);
      }
    }
  }

  lemma LineErased(line: seq<Cell>, lines: seq<seq<Cell>>)
    ensures ErasedLines(NonEmpty([line]) + lines) == NonEmpty([Erased(line)]) + ErasedLines(lines)
  {
    assert [line][1..] == [] && [Erased(line)][1..] == [];
  }

  lemma {:induction false} QueuedErased(messages: seq<seq<Cell>>, lines: seq<seq<Cell>>)
    ensures Queued(ErasedLines(messages), ErasedLines(lines)) == ErasedLines(Queued(messages, lines))
    decreases |lines|
  {
    if lines != [] {
      var longer := messages + [lines[0]];
      assert ErasedLines(longer) == ErasedLines(messages) + [Erased(lines[0])];
      assert ErasedLines(lines)[1..] == ErasedLines(lines[1..]);
      QueuedErased(if |messages| >= QUEUE_LIMIT then messages else longer, lines[1..]);
    }
  }

  lemma FeedDataErased(s: Transport<Cell>, data: seq<Cell>, now: u32)
    ensures FeedData(Bare(s), Erased(data), now, IS_LF) == Bare(FeedData(s, data, now, CELL_LF))
  {
    var e := Expire(s, now);
    assert Bare(e) == Expire(Bare(s), now);
    FeedErased(e.buffer, data, MAX_LINE);
    QueuedErased(e.messages, FeedBytes(e.buffer, data, MAX_LINE, CELL_LF).lines);
  }

  lemma StampErased(data: seq<byte>, epoch: nat)
    ensures Erased(Stamp(data, epoch)) == data
  {}

  lemma WriteErased(s: Transport<Cell>, data: seq<byte>)
    requires Q.FramesOk(s.outgoing.frames)
    ensures Step(Bare(s), Write(data), IS_LF).0 == Bare(Step(s, Write(Stamp(data, s.epoch)), CELL_LF).0)
  {
    StampErased(data, s.epoch);
    var chunk := Chunk(Stamp(data, s.epoch), s.Generation());
    assert ErasedChunks(s.chunks + [chunk]) == ErasedChunks(s.chunks) + [Chunk(data, s.Generation())];
  }

  lemma FeedChunkErased(s: Transport<Cell>, now: u32)
    requires Q.FramesOk(s.outgoing.frames)
    ensures Step(Bare(s), FeedChunk(now), IS_LF).0 == Bare(Step(s, FeedChunk(now), CELL_LF).0)
  {
    if s.task.Draining? && s.task.chunks != [] {
      assert ErasedChunks(s.task.chunks)[1..] == ErasedChunks(s.task.chunks[1..]);
      FeedDataErased(s.(task := s.task.(chunks := s.task.chunks[1..])), s.task.chunks[0].data, now);
    }
  }

  lemma TakeErased(s: Transport<Cell>)
    requires Q.FramesOk(s.outgoing.frames)
    ensures Step(Bare(s), Take, IS_LF) == (Bare(Step(s, Take, CELL_LF).0), BareOutput(Step(s, Take, CELL_LF).1))
  {
    if s.messages != [] {
      assert ErasedLines(s.messages)[1..] == ErasedLines(s.messages[1..]);
    }
    assert ErasedLines([]) == [];
  }

  lemma ResetErased(s: Transport<Cell>)
    requires Q.FramesOk(s.outgoing.frames)
    ensures Step(Bare(s), ResetIfStale, IS_LF).0 == Bare(Step(s, ResetIfStale, CELL_LF).0)
  {
    assert ErasedLines([]) == [] && Erased([]) == [];
  }

  lemma SwapErased(s: Transport<Cell>)
    requires Q.FramesOk(s.outgoing.frames)
    ensures Step(Bare(s), SwapChunks, IS_LF).0 == Bare(Step(s, SwapChunks, CELL_LF).0)
    ensures Step(Bare(s), Flush, IS_LF).0 == Bare(Step(s, Flush, CELL_LF).0)
  {
    assert ErasedChunks([]) == [];
  }

  lemma FinishErased(s: Transport<Cell>, now: u32)
    requires Q.FramesOk(s.outgoing.frames)
    ensures Step(Bare(s), FinishPoll(now), IS_LF).0 == Bare(Step(s, FinishPoll(now), CELL_LF).0)
  {
    assert Erased([]) == [];
  }

  /** The transmit side holds no received byte. */
  lemma OutgoingErased(s: Transport<Cell>, event: Event<byte>)
    requires Q.FramesOk(s.outgoing.frames) && (event.Request? || event.CancelPending? || event.BeginTransmit? || event.Transmit?)
    ensures var (s', out) := Step(s, Stamped(event, s.epoch), CELL_LF);
            Step(Bare(s), event, IS_LF) == (Bare(s'), BareOutput(out))
  {}

  /** One action on bytes is the erasure of the action on stamped bytes. */
  lemma StepErased(s: Transport<Cell>, event: Event<byte>)
    requires Q.FramesOk(s.outgoing.frames)
    ensures var (s', out) := Step(s, Stamped(event, s.epoch), CELL_LF);
            Step(Bare(s), event, IS_LF) == (Bare(s'), BareOutput(out))
  {
    match event
    case Write(data) => WriteErased(s, data);
    case FeedChunk(now) => FeedChunkErased(s, now);
    case Take => TakeErased(s);
    case ResetIfStale => ResetErased(s);
    case SwapChunks => SwapErased(s);
    case Flush => SwapErased(s);
    case FinishPoll(now) => FinishErased(s, now);
    case BumpGeneration =>
    case SetConnected(_) =>
    case ReadGeneration =>
    case _ => OutgoingErased(s, event);
  }

  ghost function ByteRun(events: seq<Event<byte>>): (s: Transport<byte>)
    ensures Q.FramesOk(s.outgoing.frames)
  {
    if events == [] then Start() else Step(ByteRun(events[..|events| - 1]), events[|events| - 1], IS_LF).0
  }

  /** Every run on bytes is the erasure of its stamped run. */
  lemma {:induction false} RunErased(events: seq<Event<byte>>)
    ensures ByteRun(events) == Bare(Run(events))
  {
    if events == [] {
      assert ErasedChunks([]) == [] && Erased([]) == [] && ErasedLines([]) == [];
    } else {
      var n := |events| - 1;
      RunErased(events[..n]);
      StepErased(Run(events[..n]), events[n]);
    }
  }

  /**
   So every line the transport delivers, after any interleaving of callbacks and calls, is the bytes of cells all written
   under the generation current at delivery.
   */
  lemma DeliveredLinesAreCurrent(events: seq<Event<byte>>, event: Event<byte>) returns (cells: seq<Cell>)
    requires Step(ByteRun(events), event, IS_LF).1.Delivered?
    ensures Erased(cells) == Step(ByteRun(events), event, IS_LF).1.line && Current(cells, ByteRun(events).epoch)
    ensures ByteRun(events).connected
  {
    RunErased(events);
    StepErased(Run(events), event);
    GenerationIsolation(events, event);
    cells := Step(Run(events), Stamped(event, Run(events).epoch), CELL_LF).1.line;
  }
}
