/**
 The firmware's BLE transport. Callbacks run on the BLE task and only touch the shared part; polling runs on
 the loop task. `Step` is the machine of their atomic actions, in any interleaving; `BleTransport` is the
 object, whose methods perform these actions in program order. The machine is generic in what a received
 byte is, so that the isolation theorem can follow every byte back to the connection it was written under.
 */
module BleTransport {
  import opened Common
  import opened Framing
  import Q = OutgoingQueue

  const QUEUE_LIMIT := 8
  const MAX_LINE := 4096

  datatype Chunk<T> = Chunk(data: seq<T>, generation: u32)

  /** Where the loop task is: between calls, inside a poll, or between the two checks of a transmission. */
  datatype LoopTask<T> =
    | Idle
    | Polling(current: u32)
    | Swapping(current: u32)
    | Draining(current: u32, chunks: seq<Chunk<T>>)
    | Transmitting

  /** `epoch` counts the connection changes; the 32-bit generation is what the code sees of it. */
  datatype Transport<T> = Transport(
    epoch: nat, connected: bool, resetPending: bool, chunks: seq<Chunk<T>>,
    polled: u32, buffer: seq<T>, lastByteAt: u32, messages: seq<seq<T>>, outgoing: Q.Queue, task: LoopTask<T>)
  {
    function Generation(): u32 { epoch % TWO_TO_THE_32 }
    predicate Live() { connected && Generation() == polled }
  }

  function Start<T>(): Transport<T> {
    Transport(0, false, false, [], 0, [], 0, [], Q.EMPTY, Idle)
  }

  datatype Event<T> =
    // callbacks
    | BumpGeneration
    | SetConnected(up: bool)
    | Flush
    | Write(data: seq<T>)
    // a poll, action by action
    | ReadGeneration
    | ResetIfStale
    | SwapChunks
    | FeedChunk(pollNow: u32)
    | FinishPoll(finishNow: u32)
    // the other calls of the loop task
    | Take
    | Request(id: string, jsonl: seq<byte>, requestNow: u32)
    | CancelPending(id: string)
    | BeginTransmit
    | Transmit(transmitNow: u32, notified: bool)

  datatype Output<T> =
    | Nothing
    | Delivered(line: seq<T>)
    | Notified(fragment: seq<byte>, generation: u32)

  function BufferExpired<T>(s: Transport<T>, now: u32): bool {
    s.buffer != [] && Elapsed(now, s.lastByteAt) >= TIMEOUT_MS
  }

  function Expire<T>(s: Transport<T>, now: u32): Transport<T> {
    if BufferExpired(s, now) then s.(buffer := [], lastByteAt := 0) else s
  }

  /** One chunk through the line buffer; complete lines beyond the queue limit are dropped. */
  function FeedData<T>(s0: Transport<T>, data: seq<T>, now: u32, end: T -> bool): Transport<T> {
    var s := Expire(s0, now);
    var fed := FeedBytes(s.buffer, data, MAX_LINE, end);
    s.(buffer := fed.rest,
       lastByteAt := if fed.rest == [] then 0 else if data == [] then s.lastByteAt else now,
       messages := Queued(s.messages, fed.lines))
  }

  function Queued<T>(messages: seq<seq<T>>, lines: seq<seq<T>>): seq<seq<T>>
    decreases |lines|
  {
    if lines == [] then messages
    else Queued(if |messages| >= QUEUE_LIMIT then messages else messages + [lines[0]], lines[1..])
  }

  function Step<T>(s: Transport<T>, event: Event<T>, end: T -> bool): (r: (Transport<T>, Output<T>))
    requires Q.FramesOk(s.outgoing.frames)
    ensures Q.FramesOk(r.0.outgoing.frames)
  {
    match event
    case BumpGeneration => (s.(epoch := s.epoch + 1), Nothing)
    case SetConnected(up) => (s.(connected := up), Nothing)
    case Flush => (s.(chunks := [], resetPending := true), Nothing)
    case Write(data) =>
      if |s.chunks| >= QUEUE_LIMIT then (s, Nothing)
      else (s.(chunks := s.chunks + [Chunk(data, s.Generation())]), Nothing)
    case ReadGeneration =>
      if !s.task.Idle? then (s, Nothing) else (s.(task := Polling(s.Generation())), Nothing)
    case ResetIfStale =>
      if !s.task.Polling? then (s, Nothing)
      else
        var s' := s.(resetPending := false, task := Swapping(s.task.current));
        if s.resetPending || s.polled != s.task.current
        then (s'.(buffer := [], lastByteAt := 0, messages := [], polled := s.task.current,
                  outgoing := s.outgoing.(frames := [], hasSent := false)), Nothing)
        else (s', Nothing)
    case SwapChunks =>
      if !s.task.Swapping? then (s, Nothing)
      else (s.(chunks := [], task := Draining(s.task.current, s.chunks)), Nothing)
    case FeedChunk(now) =>
      if !s.task.Draining? || s.task.chunks == [] then (s, Nothing)
      else
        var chunk := s.task.chunks[0];
        var s' := s.(task := s.task.(chunks := s.task.chunks[1..]));
        (if chunk.generation != s.task.current then s' else FeedData(s', chunk.data, now, end), Nothing)
    case FinishPoll(now) =>
      if !s.task.Draining? || s.task.chunks != [] then (s, Nothing)
      else (Expire(s, now).(task := Idle), Nothing)
    case Take =>
      if !s.task.Idle? then (s, Nothing)
      else if !s.Live() then (s.(messages := []), Nothing)
      else if s.messages == [] then (s, Nothing)
      else (s.(messages := s.messages[1..]), Delivered(s.messages[0]))
    case Request(id, jsonl, now) =>
      if !s.task.Idle? || !s.Live() then (s, Nothing)
      else (s.(outgoing := Q.Enqueued(s.outgoing, id, jsonl, now, s.polled).0), Nothing)
    case CancelPending(id) =>
      if !s.task.Idle? then (s, Nothing) else (s.(outgoing := Q.Withdrawn(s.outgoing, id).0), Nothing)
    case BeginTransmit =>
      if !s.task.Idle? || !s.Live() then (s, Nothing) else (s.(task := Transmitting), Nothing)
    case Transmit(now, notified) =>
      if !s.task.Transmitting? then (s, Nothing)
      else
        // The sink checks the connection once more before it notifies.
        var accept := s.Live() && notified;
        var frames := Q.Sweep(s.outgoing.frames, now, s.polled);
        var (q, offered) := Q.Polled(s.outgoing, now, s.polled, accept);
        (s.(outgoing := q, task := Idle),
         if offered.Some? && accept then Notified(offered.value, frames[0].generation) else Nothing)
  }

  // ---------------------------------------------------------------- provenance

  /** A received byte and the connection change it was written after. */
  datatype Cell = Cell(value: byte, epoch: nat)

  const CELL_LF: Cell -> bool := (c: Cell) => c.value == LF

  function Stamp(data: seq<byte>, epoch: nat): seq<Cell> {
    seq(|data|, i requires 0 <= i < |data| => Cell(data[i], epoch))
  }

  /** One action on stamped bytes: what a callback writes carries the epoch of that moment. */
  function Stamped(event: Event<byte>, epoch: nat): Event<Cell> {
    match event
    case BumpGeneration => BumpGeneration
    case SetConnected(up) => SetConnected(up)
    case Flush => Flush
    case Write(data) => Write(Stamp(data, epoch))
    case ReadGeneration => ReadGeneration
    case ResetIfStale => ResetIfStale
    case SwapChunks => SwapChunks
    case FeedChunk(now) => FeedChunk(now)
    case FinishPoll(now) => FinishPoll(now)
    case Take => Take
    case Request(id, jsonl, now) => Request(id, jsonl, now)
    case CancelPending(id) => CancelPending(id)
    case BeginTransmit => BeginTransmit
    case Transmit(now, notified) => Transmit(now, notified)
  }

  ghost function Run(events: seq<Event<byte>>): (s: Transport<Cell>)
    ensures Isolated(s)
  {
    if events == [] then Start()
    else
      var s := Run(events[..|events| - 1]);
      var event := Stamped(events[|events| - 1], s.epoch);
      StepIsolated(s, events[|events| - 1]);
      Step(s, event, CELL_LF).0
  }

  /** Written no later than `epoch`, under a connection whose generation number is `generation`. */
  ghost predicate From(cells: seq<Cell>, generation: u32, epoch: nat) {
    forall i :: 0 <= i < |cells| ==> cells[i].epoch <= epoch && cells[i].epoch % TWO_TO_THE_32 == generation
  }

  ghost predicate AllFrom(lines: seq<seq<Cell>>, generation: u32, epoch: nat) {
    forall i :: 0 <= i < |lines| ==> From(lines[i], generation, epoch)
  }

  ghost predicate ChunksFrom(chunks: seq<Chunk<Cell>>, epoch: nat) {
    forall i :: 0 <= i < |chunks| ==> From(chunks[i].data, chunks[i].generation, epoch)
  }

  ghost predicate Isolated(s: Transport<Cell>) {
    && Q.FramesOk(s.outgoing.frames)
    && (forall i :: 0 <= i < |s.outgoing.frames| ==> s.outgoing.frames[i].generation == s.polled)
    && ChunksFrom(s.chunks, s.epoch)
    && From(s.buffer, s.polled, s.epoch) && AllFrom(s.messages, s.polled, s.epoch)
    && (s.task.Swapping? ==> s.task.current == s.polled)
    && (s.task.Draining? ==> s.task.current == s.polled && ChunksFrom(s.task.chunks, s.epoch))
  }

  lemma StepIsolated(s: Transport<Cell>, event: Event<byte>)
    requires Isolated(s)
    ensures Isolated(Step(s, Stamped(event, s.epoch), CELL_LF).0)
  {
    if event.BumpGeneration? || event.SetConnected? || event.Flush? || event.Write? {
      CallbackIsolated(s, event);
    } else if event.Transmit? || event.BeginTransmit? || event.Request? || event.CancelPending? {
      OutgoingIsolated(s, event);
    } else {
      PollIsolated(s, event);
    }
  }

  lemma CallbackIsolated(s: Transport<Cell>, event: Event<byte>)
    requires Isolated(s)
    requires event.BumpGeneration? || event.SetConnected? || event.Flush? || event.Write?
    ensures Isolated(Step(s, Stamped(event, s.epoch), CELL_LF).0)
  {
    var s' := Step(s, Stamped(event, s.epoch), CELL_LF).0;
    assert forall i :: 0 <= i < |s'.chunks| && i < |s.chunks| ==> s'.chunks[i] == s.chunks[i];
    assert s'.epoch >= s.epoch && s'.outgoing == s.outgoing && s'.task == s.task;
  }

  lemma OutgoingIsolated(s: Transport<Cell>, event: Event<byte>)
    requires Isolated(s) && (event.Transmit? || event.BeginTransmit? || event.Request? || event.CancelPending?)
    ensures Isolated(Step(s, Stamped(event, s.epoch), CELL_LF).0)
  {
    if event.Transmit? && s.task.Transmitting? {
      TransmitIsolated(s.outgoing, event.transmitNow, s.polled, s.Live() && event.notified);
    }
  }

  lemma PollIsolated(s: Transport<Cell>, event: Event<byte>)
    requires Isolated(s)
    requires event.ReadGeneration? || event.ResetIfStale? || event.SwapChunks? || event.FeedChunk? || event.FinishPoll? || event.Take?
    ensures Isolated(Step(s, Stamped(event, s.epoch), CELL_LF).0)
  {
    if event.FeedChunk? && s.task.Draining? && s.task.chunks != [] {
      var chunk := s.task.chunks[0];
      if chunk.generation == s.task.current {
        FeedDataIsolated(s.(task := s.task.(chunks := s.task.chunks[1..])), chunk.data, event.pollNow);
      }
    }
  }

  lemma FeedDataIsolated(s: Transport<Cell>, data: seq<Cell>, now: u32)
    requires From(s.buffer, s.polled, s.epoch) && AllFrom(s.messages, s.polled, s.epoch) && From(data, s.polled, s.epoch)
    ensures var s' := FeedData(s, data, now, CELL_LF);
            From(s'.buffer, s.polled, s.epoch) && AllFrom(s'.messages, s.polled, s.epoch)
  {
    var e := Expire(s, now);
    var fed := FeedBytes(e.buffer, data, MAX_LINE, CELL_LF);
    FeedFrom(e.buffer, data, MAX_LINE, s.polled, s.epoch);
    QueuedFrom(s.messages, fed.lines, s.polled, s.epoch);
  }

  lemma {:induction false} FeedFrom(buffer: seq<Cell>, data: seq<Cell>, limit: nat, generation: u32, epoch: nat)
    requires From(buffer, generation, epoch) && From(data, generation, epoch)
    ensures var r := FeedBytes(buffer, data, limit, CELL_LF);
            AllFrom(r.lines, generation, epoch) && From(r.rest, generation, epoch)
    decreases |data|
  {
    if data == [] {
    } else if CELL_LF(data[0]) {
      FeedFrom([], data[1..], limit, generation, epoch);
      assert NonEmpty([buffer]) == if buffer == [] then [] else [buffer];
    } else if |buffer| < limit {
      FeedFrom(buffer + [data[0]], data[1..], limit, generation, epoch);
    }
  }

  lemma {:induction false} QueuedFrom(messages: seq<seq<Cell>>, lines: seq<seq<Cell>>, generation: u32, epoch: nat)
    requires AllFrom(messages, generation, epoch) && AllFrom(lines, generation, epoch)
    ensures AllFrom(Queued(messages, lines), generation, epoch)
    decreases |lines|
  {
    if lines != [] {
      QueuedFrom(if |messages| >= QUEUE_LIMIT then messages else messages + [lines[0]], lines[1..], generation, epoch);
    }
  }

  lemma TransmitIsolated(q: Q.Queue, now: u32, generation: u32, accept: bool)
    requires Q.FramesOk(q.frames)
    ensures var q' := Q.Polled(q, now, generation, accept).0;
            Q.FramesOk(q'.frames) && forall i :: 0 <= i < |q'.frames| ==> q'.frames[i].generation == generation
  {
    Q.KeptSlotsFit(q.frames, now, generation);
  }

  /**
   In every interleaving: a delivered line, at the moment of the delivery check, consists only of bytes
   written under the generation then current; a byte of an older connection could only be among them after a
   full 2^32 connection changes. A fragment passes the sink's check only for a frame of the current generation.
   */
  lemma GenerationIsolation(events: seq<Event<byte>>, event: Event<byte>)
    ensures var s := Run(events);
            var out := Step(s, Stamped(event, s.epoch), CELL_LF).1;
            && (out.Delivered? ==> s.connected && Current(out.line, s.epoch))
            && (out.Notified? ==> s.connected && out.generation == s.Generation() && |out.fragment| <= Q.SAFE_CHUNK_BYTES)
  {
    var s := Run(events);
    var out := Step(s, Stamped(event, s.epoch), CELL_LF).1;
    if out.Delivered? {
      assert From(s.messages[0], s.polled, s.epoch);
      forall i | 0 <= i < |out.line|
        ensures out.line[i].epoch == s.epoch || out.line[i].epoch + TWO_TO_THE_32 <= s.epoch
      {
        SameResidue(out.line[i].epoch, s.epoch);
      }
    } else if out.Notified? {
      Q.KeptSlotsFit(s.outgoing.frames, event.transmitNow, s.polled);
    }
  }

  /** Every byte has the generation number of `epoch`, and its very epoch unless 2^32 changes lie between. */
  ghost predicate Current(line: seq<Cell>, epoch: nat) {
    forall i :: 0 <= i < |line| ==>
      && line[i].epoch % TWO_TO_THE_32 == epoch % TWO_TO_THE_32
      && (line[i].epoch == epoch || line[i].epoch + TWO_TO_THE_32 <= epoch)
  }

  lemma SameResidue(a: nat, b: nat)
    requires a <= b && a % TWO_TO_THE_32 == b % TWO_TO_THE_32
    ensures a == b || a + TWO_TO_THE_32 <= b
  {}

  // ---------------------------------------------------------------- the object

  /** A poll without interference: its actions in program order. */
  function PollAll(s: Transport<byte>, now: u32): (r: Transport<byte>)
    requires Q.FramesOk(s.outgoing.frames) && s.task.Idle?
  {
    var read := Step(s, ReadGeneration, IS_LF).0;
    var reset := Step(read, ResetIfStale, IS_LF).0;
    Drain(Step(reset, SwapChunks, IS_LF).0, now)
  }

  function Drain(s: Transport<byte>, now: u32): (r: Transport<byte>)
    requires Q.FramesOk(s.outgoing.frames) && s.task.Draining?
    decreases |s.task.chunks|
  {
    if s.task.chunks == [] then Step(s, FinishPoll(now), IS_LF).0
    else Drain(Step(s, FeedChunk(now), IS_LF).0, now)
  }

  class BleTransport {
    var connected: bool
    var resetPending: bool
    var chunks: seq<Chunk<byte>>
    var generation: u32
    ghost var epoch: nat
    var polledGeneration: u32
    var messages: seq<seq<byte>>
    const buffer: JsonlBuffer
    const outgoing: Q.OutgoingJsonlQueue

    ghost predicate Valid()
      reads this, buffer, outgoing, outgoing.frames
    {
      && buffer.Valid() && buffer.maxBytes == MAX_LINE && buffer.timeoutMs == TIMEOUT_MS
      && outgoing.Valid() && generation == epoch % TWO_TO_THE_32
    }

    ghost function Model(): (s: Transport<byte>)
      requires Valid()
      reads this, buffer, outgoing, outgoing.frames
      ensures Q.FramesOk(s.outgoing.frames) && s.task.Idle? && s.Generation() == generation
    {
      Transport(epoch, connected, resetPending, chunks, polledGeneration, buffer.buffer, buffer.lastByteAtMs,
                messages, outgoing.Model(), Idle)
    }

    constructor ()
      ensures Valid() && Model() == Start()
    {
      connected, resetPending, chunks, generation, epoch := false, false, [], 0, 0;
      polledGeneration, messages := 0, [];
      buffer := new JsonlBuffer(MAX_LINE, TIMEOUT_MS);
      outgoing := new Q.OutgoingJsonlQueue();
    }

    method OnWriteBytes(data: seq<byte>)
      requires Valid()
      modifies this`chunks
      ensures Valid() && Model() == Step(old(Model()), Write(data), IS_LF).0
    {
      if |chunks| >= QUEUE_LIMIT {
        return;
      }
      chunks := chunks + [Chunk(data, generation)];
    }

    method Bump()
      requires Valid()
      modifies this`generation, this`epoch
      ensures Valid() && Model() == Step(old(Model()), BumpGeneration, IS_LF).0
    {
      epoch := epoch + 1;
      generation := if generation + 1 == TWO_TO_THE_32 then 0 else generation + 1;
    }

    method OnConnected()
      requires Valid()
      modifies this`generation, this`epoch, this`connected
      ensures Valid() && Model() == Step(Step(old(Model()), BumpGeneration, IS_LF).0, SetConnected(true), IS_LF).0
    {
      Bump();
      connected := true;
    }

    method OnDisconnected()
      requires Valid()
      modifies this
      ensures Valid()
      ensures var s := Step(Step(old(Model()), BumpGeneration, IS_LF).0, SetConnected(false), IS_LF).0;
              Model() == Step(s, Flush, IS_LF).0
    {
      Bump();
      connected := false;
      chunks := [];
      resetPending := true;
    }

    method Poll(now: u32)
      requires Valid()
      modifies this, buffer, outgoing, outgoing.frames
      ensures Valid() && Model() == PollAll(old(Model()), now)
    {
      var current := generation;
      Refresh();
      var taken := chunks;
      chunks := [];
      DrainChunks(taken, current, now);
    }

    /** The connection changed since the last poll: nothing of the old one survives. */
    method Refresh()
      requires Valid()
      modifies this, buffer, outgoing, outgoing.frames
      ensures Valid() && generation == old(generation) && chunks == old(chunks)
      ensures Model().(task := Swapping(generation))
           == Step(Step(old(Model()), ReadGeneration, IS_LF).0, ResetIfStale, IS_LF).0
    {
      if resetPending || polledGeneration != generation {
        buffer.Clear();
        messages := [];
        outgoing.Clear();
        polledGeneration := generation;
      }
      resetPending := false;
    }

    method DrainChunks(chunksTaken: seq<Chunk<byte>>, current: u32, now: u32)
      requires Valid()
      modifies this`messages, buffer
      ensures Valid() && Model() == Drain(old(Model()).(task := Draining(current, chunksTaken)), now)
    {
      var taken := chunksTaken;
      ghost var all := Drain(Model().(task := Draining(current, taken)), now);
      while taken != []
        invariant Valid() && all == Drain(Model().(task := Draining(current, taken)), now)
        decreases |taken|
      {
        if taken[0].generation == current {
          FeedOne(taken[0].data, now);
        }
        taken := taken[1..];
      }
      var _ := buffer.ExpireIfNeeded(now);
    }

    method FeedOne(data: seq<byte>, now: u32)
      requires Valid()
      modifies this`messages, buffer
      ensures Valid() && Model() == FeedData(old(Model()), data, now, IS_LF)
    {
      var lines, overflowed, timedOut := buffer.Feed(data, now);
      label fed:
      ghost var target := Queued(messages, lines);
      var i := 0;
      while i < |lines|
        invariant i <= |lines| && target == Queued(messages, lines[i..]) && unchanged@fed(buffer)
      {
        if |messages| < QUEUE_LIMIT {
          messages := messages + [lines[i]];
        }
        i := i + 1;
      }
    }

    method TakeMessage() returns (message: Option<seq<byte>>)
      requires Valid()
      modifies this`messages
      ensures Valid()
      ensures (Model(), if message.Some? then Delivered(message.value) else Nothing) == Step(old(Model()), Take, IS_LF)
    {
      if !connected || generation != polledGeneration {
        messages := [];
        return None;
      }
      if messages == [] {
        return None;
      }
      message := Some(messages[0]);
      messages := messages[1..];
    }

    method EnqueueRequest(id: string, jsonl: seq<byte>, now: u32) returns (ok: bool)
      requires Valid()
      modifies outgoing`count, outgoing.frames
      ensures Valid() && Model() == Step(old(Model()), Request(id, jsonl, now), IS_LF).0
      ensures ok == (old(Model()).Live() && Q.Enqueued(old(Model()).outgoing, id, jsonl, now, polledGeneration).1)
    {
      if !connected || generation != polledGeneration {
        return false;
      }
      ok := outgoing.Enqueue(id, jsonl, now, polledGeneration);
    }

    /** A request still waiting is taken back; under whichever generation it waits. */
    method CancelPending(id: string) returns (ok: bool)
      requires Valid()
      modifies outgoing`count, outgoing.frames
      ensures Valid() && Model() == Step(old(Model()), Event.CancelPending(id), IS_LF).0
      ensures ok == Q.Cancels(old(Model()).outgoing, id)
    {
      ok := outgoing.CancelPending(id);
    }

    method PollTransmit(now: u32, notified: bool) returns (offered: Option<seq<byte>>)
      requires Valid()
      modifies outgoing, outgoing.frames
      ensures Valid()
      ensures Model() == Step(Step(old(Model()), BeginTransmit, IS_LF).0, Transmit(now, notified), IS_LF).0
      ensures old(Model()).Live() ==> offered == Q.Polled(old(Model()).outgoing, now, polledGeneration, notified).1
      ensures !old(Model()).Live() ==> offered == None
    {
      if !connected || generation != polledGeneration {
        return None;
      }
      offered := outgoing.Poll(now, polledGeneration, notified);
    }
  }
}
