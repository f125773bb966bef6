/**
 Whole runs of the outgoing queue under one connection generation. Every accepted message gets a ticket,
 its position in acceptance order, and the run remembers what became of each ticket.
 */
module WireRuns {
  import opened Common
  import opened OutgoingQueue
  import opened Framing

  datatype Op =
    | EnqueueOp(id: string, jsonl: seq<byte>, now: u32)
    | CancelOp(id: string)
    | PollOp(now: u32, accept: bool)

  /**
   accepted: every frame the queue took, by ticket; tickets: the tickets still queued, slot by slot;
   sent: the tickets whose last byte was accepted by the sink; dropped: those withdrawn or expired;
   wire: every byte the sink accepted, in order.
   */
  datatype Line = Line(queue: Queue, tickets: seq<nat>, accepted: seq<seq<byte>>,
                       sent: seq<nat>, dropped: set<nat>, wire: seq<byte>)

  const START := Line(EMPTY, [], [], [], {}, [])

  ghost function Step(w: Line, op: Op, generation: u32): (w': Line)
    requires Inv(w, generation)
    ensures Inv(w', generation)
  {
    StepInv(w, op, generation);
    Next(w, op, generation)
  }

  ghost function Next(w: Line, op: Op, generation: u32): Line
    requires Inv(w, generation)
  {
    match op
    case EnqueueOp(id, jsonl, now) =>
      var (q, ok) := Enqueued(w.queue, id, jsonl, now, generation);
      if !ok then w
      else w.(queue := q, tickets := w.tickets + [|w.accepted|], accepted := w.accepted + [Payload(jsonl) + [LF]])
    case CancelOp(id) =>
      var (q, ok) := Withdrawn(w.queue, id);
      if !ok then w
      else
        var i := IndexOf(w.queue.frames, id);
        w.(queue := q, tickets := Without(w.tickets, i), dropped := w.dropped + {w.tickets[i]})
    case PollOp(now, accept) =>
      var v := AfterSweep(w, now, generation);
      SweepInv(w, now, generation);
      AfterOffer(v, now, accept)
  }

  ghost function AfterSweep(w: Line, now: u32, generation: u32): Line
    requires |w.tickets| == |w.queue.frames|
  {
    var frames := w.queue.frames;
    var tickets := Pick(w.tickets, KeptSlots(frames, now, generation));
    w.(queue := w.queue.(frames := Sweep(frames, now, generation)), tickets := tickets,
       dropped := w.dropped + (set t <- w.tickets | t !in tickets))
  }

  ghost function AfterOffer(w: Line, now: u32, accept: bool): Line
    requires FramesOk(w.queue.frames) && |w.tickets| == |w.queue.frames|
  {
    var (q, offered) := Offered(w.queue, now, accept);
    var w' := w.(queue := q);
    if offered.None? || !accept then w'
    else
      var w'' := w'.(wire := w.wire + offered.value);
      if |q.frames| == |w.tickets| then w''
      else w''.(tickets := w.tickets[1..], sent := w.sent + [w.tickets[0]])
  }

  ghost function Run(ops: seq<Op>, generation: u32): (w: Line)
    ensures Inv(w, generation)
  {
    if ops == [] then START
    else
      var w := Run(ops[..|ops| - 1], generation);
      Step(w, ops[|ops| - 1], generation)
  }

  // ---------------------------------------------------------------- the invariant

  ghost predicate Increasing(s: seq<nat>) {
    forall i, j :: 0 <= i < j < |s| ==> s[i] < s[j]
  }

  /** A frame is one message: a nonempty payload without line ends, then a line feed. */
  ghost predicate IsFrame(b: seq<byte>) {
    |b| > 0 && b[|b| - 1] == LF && Sendable(b[..|b| - 1])
  }

  lemma IncreasingParts(a: seq<nat>, b: seq<nat>)
    requires Increasing(a + b)
    ensures Increasing(a) && Increasing(b) && forall x <- a :: x !in b
  {
    forall i, j | 0 <= i < |a| && 0 <= j < |b| ensures a[i] < b[j] {
      assert (a + b)[i] < (a + b)[|a| + j];
    }
    assert forall i :: 0 <= i < |a| ==> (a + b)[i] == a[i];
    assert forall i :: 0 <= i < |b| ==> (a + b)[|a| + i] == b[i];
  }

  function Concat(ss: seq<seq<byte>>): seq<byte> {
    if ss == [] then [] else Concat(ss[..|ss| - 1]) + ss[|ss| - 1]
  }

  /** The part of the first slot already on the wire. */
  function Begun(q: Queue): seq<byte>
    requires FramesOk(q.frames)
  {
    if q.frames == [] then [] else q.frames[0].bytes[..q.frames[0].offset]
  }

  ghost predicate QueueInv(w: Line, generation: u32) {
    && FramesOk(w.queue.frames) && |w.tickets| == |w.queue.frames|
    && forall i :: 0 <= i < |w.tickets| ==>
         var f := w.queue.frames[i];
         && w.tickets[i] < |w.accepted| && f.bytes == w.accepted[w.tickets[i]]
         && f.offset < |f.bytes| && f.generation == generation && (i > 0 ==> f.offset == 0)
  }

  /** Each of n tickets is either in `order` or dropped, not both, and `order` keeps acceptance order. */
  ghost predicate TicketInv(order: seq<nat>, dropped: set<nat>, n: nat) {
    && Increasing(order)
    && (forall t <- order :: t < n && t !in dropped)
    && (forall t <- dropped :: t < n)
    && (forall t: nat | t < n :: t in order || t in dropped)
  }

  ghost predicate WireInv(w: Line)
    requires FramesOk(w.queue.frames)
  {
    && (forall k :: 0 <= k < |w.sent| ==> w.sent[k] < |w.accepted|)
    && w.wire == Concat(Pick(w.accepted, w.sent)) + Begun(w.queue)
  }

  ghost predicate Inv(w: Line, generation: u32) {
    && (forall t :: 0 <= t < |w.accepted| ==> IsFrame(w.accepted[t]))
    && QueueInv(w, generation) && TicketInv(w.sent + w.tickets, w.dropped, |w.accepted|) && WireInv(w)
  }

  lemma StepInv(w: Line, op: Op, generation: u32)
    requires Inv(w, generation)
    ensures Inv(Next(w, op, generation), generation)
  {
    match op
    case EnqueueOp(id, jsonl, now) => EnqueueInv(w, id, jsonl, now, generation);
    case CancelOp(id) => CancelInv(w, id, generation);
    case PollOp(now, accept) =>
      SweepInv(w, now, generation);
      OfferInv(AfterSweep(w, now, generation), now, accept, generation);
  }

  lemma EnqueueInv(w: Line, id: string, jsonl: seq<byte>, now: u32, generation: u32)
    requires Inv(w, generation)
    ensures Inv(Next(w, EnqueueOp(id, jsonl, now), generation), generation)
  {
    var w' := Next(w, EnqueueOp(id, jsonl, now), generation);
    if w' != w {
      var bytes := Payload(jsonl) + [LF];
      assert bytes[..|bytes| - 1] == Payload(jsonl);
      assert w'.sent + w'.tickets == (w.sent + w.tickets) + [|w.accepted|];
      PickPrefix(w.accepted, bytes, w.sent);
      forall i | 0 <= i < |w'.tickets|
        ensures w'.tickets[i] < |w'.accepted| && w'.queue.frames[i].bytes == w'.accepted[w'.tickets[i]]
      {
        if i < |w.tickets| { assert w'.tickets[i] == w.tickets[i]; }
      }
    }
  }

  lemma DropTickets(order: seq<nat>, left: seq<nat>, dropped: set<nat>, gone: set<nat>, n: nat)
    requires TicketInv(order, dropped, n) && Increasing(left)
    requires forall t :: t in order <==> t in left || t in gone
    requires forall t <- left :: t !in gone
    ensures TicketInv(left, dropped + gone, n)
  {}

  lemma CancelInv(w: Line, id: string, generation: u32)
    requires Inv(w, generation)
    ensures Inv(Next(w, CancelOp(id), generation), generation)
  {
    if Cancels(w.queue, id) {
      var i := IndexOf(w.queue.frames, id);
      var left, t := Without(w.tickets, i), w.tickets[i];
      CancelTickets(w.sent, w.tickets, i, w.dropped, |w.accepted|);
      var w' := Next(w, CancelOp(id), generation);
      assert QueueInv(w', generation);
      assert Begun(w'.queue) == Begun(w.queue);
    }
  }

  lemma CancelTickets(sent: seq<nat>, tickets: seq<nat>, i: nat, dropped: set<nat>, n: nat)
    requires i < |tickets| && TicketInv(sent + tickets, dropped, n)
    ensures TicketInv(sent + Without(tickets, i), dropped + {tickets[i]}, n)
  {
    var order, left := sent + tickets, sent + Without(tickets, i);
    assert left == Without(order, |sent| + i);
    WithoutTicket(order, |sent| + i);
    DropTickets(order, left, dropped, {tickets[i]}, n);
  }

  lemma WithoutTicket(s: seq<nat>, i: nat)
    requires i < |s| && Increasing(s)
    ensures Increasing(Without(s, i)) && s[i] !in Without(s, i)
    ensures forall x :: x in s <==> x in Without(s, i) || x == s[i]
  {
    assert s == s[..i] + [s[i]] + s[i + 1..];
  }

  lemma SweepInv(w: Line, now: u32, generation: u32)
    requires Inv(w, generation)
    ensures Inv(AfterSweep(w, now, generation), generation)
  {
    var frames, v := w.queue.frames, AfterSweep(w, now, generation);
    var slots := KeptSlots(frames, now, generation);
    KeptSlotsFit(frames, now, generation);
    FirstSlotStays(frames, now, generation);
    SweepTickets(w.sent, w.tickets, slots, w.dropped, |w.accepted|);
    assert QueueInv(v, generation);
    assert Begun(v.queue) == Begun(w.queue) by {
      if frames != [] && frames[0].offset > 0 {
        assert Kept(frames[0], now, generation);
      }
    }
  }

  lemma SweepTickets(sent: seq<nat>, tickets: seq<nat>, slots: seq<nat>, dropped: set<nat>, n: nat)
    requires TicketInv(sent + tickets, dropped, n) && Increasing(slots)
    requires forall k :: 0 <= k < |slots| ==> slots[k] < |tickets|
    ensures TicketInv(sent + Pick(tickets, slots), dropped + (set t <- tickets | t !in Pick(tickets, slots)), n)
  {
    var kept := Pick(tickets, slots);
    IncreasingParts(sent, tickets);
    PickIncreasing(sent, tickets, slots);
    assert forall t <- kept :: t in tickets;
    DropTickets(sent + tickets, sent + kept, dropped, (set t <- tickets | t !in kept), n);
  }

  lemma PickIncreasing(before: seq<nat>, tickets: seq<nat>, slots: seq<nat>)
    requires Increasing(before + tickets) && Increasing(slots)
    requires forall k :: 0 <= k < |slots| ==> slots[k] < |tickets|
    ensures Increasing(before + Pick(tickets, slots))
  {
    var r := before + Pick(tickets, slots);
    forall i, j | 0 <= i < j < |r| ensures r[i] < r[j] {
      var i' := if i < |before| then i else |before| + slots[i - |before|];
      var j' := if j < |before| then j else |before| + slots[j - |before|];
      assert r[i] == (before + tickets)[i'] && r[j] == (before + tickets)[j'];
    }
  }

  /** A begun frame survives every sweep, and stays in the first slot. */
  lemma FirstSlotStays(frames: seq<Frame>, now: u32, generation: u32)
    requires FramesOk(frames)
    ensures var slots := KeptSlots(frames, now, generation);
            && (forall k :: 0 < k < |slots| ==> slots[k] > 0)
            && (frames != [] && Kept(frames[0], now, generation) ==> slots != [] && slots[0] == 0)
  {
    var slots := KeptSlots(frames, now, generation);
    assert forall k :: 0 < k < |slots| ==> slots[0] < slots[k];
    if frames != [] && Kept(frames[0], now, generation) {
      var k :| 0 <= k < |slots| && slots[k] == 0;
      assert k == 0;
    }
  }

  lemma PickPrefix(s: seq<seq<byte>>, x: seq<byte>, indices: seq<nat>)
    requires forall k :: 0 <= k < |indices| ==> indices[k] < |s|
    ensures Pick(s + [x], indices) == Pick(s, indices)
  {}

  lemma OfferInv(w: Line, now: u32, accept: bool, generation: u32)
    requires Inv(w, generation)
    ensures Inv(AfterOffer(w, now, accept), generation)
  {
    OfferTickets(w, now, accept);
    OfferQueueInv(w, now, accept, generation);
    if accept {
      OfferWireInv(w, now, generation);
    } else {
      assert AfterOffer(w, now, accept).queue.frames == w.queue.frames;
    }
  }

  lemma OfferTickets(w: Line, now: u32, accept: bool)
    requires FramesOk(w.queue.frames) && |w.tickets| == |w.queue.frames|
    ensures var w' := AfterOffer(w, now, accept);
            w'.sent + w'.tickets == w.sent + w.tickets && w'.accepted == w.accepted && w'.dropped == w.dropped
            && (!accept ==> w'.wire == w.wire && w'.sent == w.sent)
  {}

  lemma OfferWireInv(w: Line, now: u32, generation: u32)
    requires QueueInv(w, generation) && WireInv(w)
    ensures FramesOk(AfterOffer(w, now, true).queue.frames) && WireInv(AfterOffer(w, now, true))
  {
    var (q, offered) := Offered(w.queue, now, true);
    if offered.Some? {
      var f := w.queue.frames[0];
      OfferWire(f);
      var before := Concat(Pick(w.accepted, w.sent));
      var reached := f.bytes[..f.offset + |offered.value|];
      assert w.wire + offered.value == before + reached;
      if f.offset + |offered.value| == |f.bytes| {
        FrameDone(w.accepted, w.sent, w.tickets[0]);
        assert |q.frames| < |w.tickets| && Begun(q) == [];
      } else {
        assert |q.frames| == |w.tickets| && Begun(q) == reached;
      }
    }
  }

  lemma OfferQueueInv(w: Line, now: u32, accept: bool, generation: u32)
    requires QueueInv(w, generation)
    ensures QueueInv(AfterOffer(w, now, accept), generation)
  {}

  lemma OfferWire(f: Frame)
    requires f.offset <= |f.bytes|
    ensures f.bytes[..f.offset] + Fragment(f) == f.bytes[..f.offset + |Fragment(f)|]
    ensures f.bytes[..|f.bytes|] == f.bytes
  {}

  lemma FrameDone(accepted: seq<seq<byte>>, sent: seq<nat>, t: nat)
    requires t < |accepted| && forall k :: 0 <= k < |sent| ==> sent[k] < |accepted|
    ensures Concat(Pick(accepted, sent + [t])) == Concat(Pick(accepted, sent)) + accepted[t]
  {
    assert Pick(accepted, sent + [t]) == Pick(accepted, sent) + [accepted[t]];
  }

  // ---------------------------------------------------------------- what every run guarantees

  /**
   In any run, whatever the sink refuses: the wire carries the sent frames whole, in acceptance order, then
   at most the beginning of the first slot; no other slot is begun; a withdrawn or expired frame is never
   among the sent ones, so it has no byte on the wire; and every accepted frame is accounted for once.
   */
  lemma WireIsWholeFrames(ops: seq<Op>, generation: u32)
    ensures var w := Run(ops, generation);
            && w.wire == Concat(Pick(w.accepted, w.sent)) + Begun(w.queue)
            && Increasing(w.sent)
            && (forall i :: 0 < i < |w.queue.frames| ==> w.queue.frames[i].offset == 0)
            && (forall t: nat | t < |w.accepted| :: IsFrame(w.accepted[t]) &&
                  (if t in w.dropped then t !in w.sent && t !in w.tickets else t in w.sent <==> t !in w.tickets))
  {
    var w := Run(ops, generation);
    IncreasingParts(w.sent, w.tickets);
    forall t: nat | t < |w.accepted|
      ensures if t in w.dropped then t !in w.sent && t !in w.tickets else t in w.sent <==> t !in w.tickets
    {
      assert t in w.dropped || t in w.sent + w.tickets;
    }
  }

  /** While the first slot is begun, no later call can withdraw or expire it under this generation. */
  lemma BegunFrameFinishes(w: Line, op: Op, generation: u32)
    requires Inv(w, generation) && Begun(w.queue) != []
    ensures var w' := Step(w, op, generation);
            w.tickets[0] in w'.sent || (w'.tickets != [] && w'.tickets[0] == w.tickets[0] && Begun(w.queue) <= Begun(w'.queue))
  {
    match op
    case EnqueueOp(_, _, _) =>
    case CancelOp(id) =>
      if IndexOf(w.queue.frames, id) == 0 { assert !Cancels(w.queue, id); }
    case PollOp(now, accept) =>
      SweepKeepsBegun(w, now, generation);
      var v := AfterSweep(w, now, generation);
      SweepInv(w, now, generation);
      OfferKeepsBegun(v, now, accept, generation);
  }

  lemma SweepKeepsBegun(w: Line, now: u32, generation: u32)
    requires QueueInv(w, generation) && Begun(w.queue) != []
    ensures var v := AfterSweep(w, now, generation);
            v.tickets != [] && v.tickets[0] == w.tickets[0] && v.queue.frames != [] && v.queue.frames[0] == w.queue.frames[0]
  {
    FirstSlotStays(w.queue.frames, now, generation);
    assert Kept(w.queue.frames[0], now, generation);
  }

  lemma OfferKeepsBegun(v: Line, now: u32, accept: bool, generation: u32)
    requires QueueInv(v, generation) && Begun(v.queue) != []
    ensures var w' := AfterOffer(v, now, accept);
            FramesOk(w'.queue.frames) &&
            (v.tickets[0] in w'.sent || (w'.tickets != [] && w'.tickets[0] == v.tickets[0] && Begun(v.queue) <= Begun(w'.queue)))
  {
    OfferWire(v.queue.frames[0]);
  }

  // ---------------------------------------------------------------- from the queue to the desktop

  /** The messages of the frames a run has sent, in acceptance order. */
  ghost function SentPayloads(w: Line): (r: seq<seq<byte>>)
    requires WellSent(w)
  {
    Payloads(Pick(w.accepted, w.sent))
  }

  ghost predicate WellSent(w: Line) {
    forall k :: 0 <= k < |w.sent| ==> w.sent[k] < |w.accepted| && IsFrame(w.accepted[w.sent[k]])
  }

  ghost function Payloads(frames: seq<seq<byte>>): (r: seq<seq<byte>>)
    requires forall k :: 0 <= k < |frames| ==> IsFrame(frames[k])
    ensures |r| == |frames| && forall k :: 0 <= k < |r| ==> r[k] == Message(frames[k])
  {
    seq(|frames|, k requires 0 <= k < |frames| => Message(frames[k]))
  }

  /** A frame without its line feed. */
  function Message(frame: seq<byte>): seq<byte> {
    if frame == [] then [] else frame[..|frame| - 1]
  }

  lemma {:induction false} FramesJoin(frames: seq<seq<byte>>)
    requires forall k :: 0 <= k < |frames| ==> IsFrame(frames[k])
    ensures Concat(frames) == Join(Payloads(frames))
  {
    if frames != [] {
      var n := |frames| - 1;
      var before, frame := frames[..n], frames[n];
      FramesJoin(before);
      JoinSnoc(Payloads(before), Message(frame));
      assert Payloads(frames) == Payloads(before) + [Message(frame)];
      FrameEnds(frame);
      Regroup(Join(Payloads(before)), Message(frame), [LF]);
    }
  }

  lemma FrameEnds(frame: seq<byte>)
    requires IsFrame(frame)
    ensures frame == Message(frame) + [LF]
  {}

  lemma {:induction false} NonEmptyAll(lines: seq<seq<byte>>)
    requires forall k :: 0 <= k < |lines| ==> lines[k] != []
    ensures NonEmpty(lines) == lines
  {
    if lines != [] {
      NonEmptyAll(lines[1..]);
    }
  }

  lemma BegunIsPartOfALine(w: Line, generation: u32)
    requires Inv(w, generation)
    ensures LF !in Begun(w.queue) && |Begun(w.queue)| <= MAX_JSON_BYTES
  {
    if w.queue.frames != [] {
      var f := w.queue.frames[0];
      assert IsFrame(w.accepted[w.tickets[0]]) && f.bytes == w.accepted[w.tickets[0]];
      assert Begun(w.queue) <= f.bytes[..|f.bytes| - 1];
      assert forall x <- Begun(w.queue) :: x in f.bytes[..|f.bytes| - 1];
    }
  }

  /**
   End to end: after any run under one generation, a desktop buffer fed the wire in any chunking has returned
   exactly the messages of the sent frames, in the order the queue accepted them, and holds the begun part.
   */
  lemma WireReachesDesktop(ops: seq<Op>, generation: u32, chunks: seq<seq<byte>>)
    requires Flat(chunks) == Run(ops, generation).wire
    ensures WellSent(Run(ops, generation))
    ensures DesktopReceives(chunks, MAX_JSON_BYTES)
         == Received(true, SentPayloads(Run(ops, generation)), Begun(Run(ops, generation).queue))
  {
    var w := Run(ops, generation);
    var frames := Pick(w.accepted, w.sent);
    var lines := Payloads(frames);
    FramesJoin(frames);
    BegunIsPartOfALine(w, generation);
    SplitJoin(lines, Begun(w.queue));
    NonEmptyAll(lines);
    DesktopReassembles(chunks, MAX_JSON_BYTES);
  }
}
