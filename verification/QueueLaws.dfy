/** What each call of the outgoing queue means for the frames that wait: which are dropped, which is sent on, and when. */
module QueueLaws {
  import opened Common
  import opened OutgoingQueue

  /** Still wanted: of this connection, and begun or at most ten seconds old. */
  predicate Live(f: Frame, now: u32, generation: u32) {
    f.generation == generation && (f.offset > 0 || Elapsed(now, f.queuedAt) <= 10_000)
  }

  /** `at` are the positions of the live frames, all of them, in order. */
  ghost predicate AllLive(at: seq<nat>, frames: seq<Frame>, now: u32, generation: u32) {
    && (forall k :: 0 <= k < |at| ==> at[k] < |frames| && Live(frames[at[k]], now, generation))
    && (forall j, k :: 0 <= j < k < |at| ==> at[j] < at[k])
    && (forall i :: 0 <= i < |frames| && Live(frames[i], now, generation) ==> i in at)
  }

  ghost predicate AreAt(kept: seq<Frame>, at: seq<nat>, frames: seq<Frame>) {
    |kept| == |at| && forall k :: 0 <= k < |at| ==> at[k] < |frames| && kept[k] == frames[at[k]]
  }

  /** The next twenty bytes of the frame, or what is left of it. */
  ghost predicate IsNext(fragment: seq<byte>, f: Frame) {
    && f.offset + |fragment| <= |f.bytes| && fragment == f.bytes[f.offset..f.offset + |fragment|]
    && |fragment| == if |f.bytes| - f.offset >= 20 then 20 else |f.bytes| - f.offset
  }

  /** What is left of the kept frames once the sink has taken n more bytes of the first. */
  ghost predicate Advanced(frames: seq<Frame>, kept: seq<Frame>, n: nat) {
    && kept != []
    && if kept[0].offset + n == |kept[0].bytes| then frames == kept[1..]
       else frames == [kept[0].(offset := kept[0].offset + n)] + kept[1..]
  }

  /** What a poll does with the frames it has kept. */
  ghost predicate OfferLaw(q: Queue, kept: seq<Frame>, now: u32, accept: bool, q': Queue, offered: Option<seq<byte>>) {
    if kept == [] || (q.hasSent && Elapsed(now, q.lastSentAt) < 10) then
      offered == None && q' == Queue(kept, q.hasSent, q.lastSentAt)
    else
      && offered.Some? && IsNext(offered.value, kept[0]) && q'.hasSent && q'.lastSentAt == now
      && if accept then Advanced(q'.frames, kept, |offered.value|) else q'.frames == kept
  }

  lemma OfferMeans(q: Queue, now: u32, accept: bool)
    requires FramesOk(q.frames)
    ensures OfferLaw(q, q.frames, now, accept, Offered(q, now, accept).0, Offered(q, now, accept).1)
  {
    if q.frames != [] {
      var f := q.frames[0];
      NextMeans(f, Fragment(f));
      var sent := f.(offset := f.offset + |Fragment(f)|);
      assert q.frames[0 := sent] == [sent] + q.frames[1..];
    }
  }

  lemma NextMeans(f: Frame, fragment: seq<byte>)
    requires f.offset <= |f.bytes| && fragment == Fragment(f)
    ensures IsNext(fragment, f)
  {}

  /**
   A poll keeps the live frames in order and drops the rest. Unless a fragment went out less than ten milliseconds ago it offers the
   next bytes of the first of them, and moves on exactly if they are taken.
   */
  lemma PollMeans(q: Queue, now: u32, generation: u32, accept: bool) returns (at: seq<nat>, kept: seq<Frame>)
    requires FramesOk(q.frames)
    ensures AllLive(at, q.frames, now, generation) && AreAt(kept, at, q.frames)
    ensures OfferLaw(q, kept, now, accept, Polled(q, now, generation, accept).0, Polled(q, now, generation, accept).1)
  {
    at, kept := Survivors(q.frames, now, generation);
    OfferMeans(q.(frames := kept), now, accept);
  }

  lemma Survivors(frames: seq<Frame>, now: u32, generation: u32) returns (at: seq<nat>, kept: seq<Frame>)
    requires FramesOk(frames)
    ensures AllLive(at, frames, now, generation) && AreAt(kept, at, frames) && kept == Sweep(frames, now, generation) && FramesOk(kept)
  {
    at := KeptSlots(frames, now, generation);
    KeptSlotsFit(frames, now, generation);
    kept := Sweep(frames, now, generation);
  }

  /** A message is taken, without the line feed it may come with, exactly if it is one line of 1 to 4096 bytes and a place is free. */
  lemma EnqueueMeans(q: Queue, id: string, line: seq<byte>, ended: bool, now: u32, generation: u32)
    requires LF !in line
    ensures var (q', ok) := Enqueued(q, id, if ended then line + [LF] else line, now, generation);
            && (ok <==> id != "" && |q.frames| < 4 && 1 <= |line| <= 4096 && CR !in line)
            && q' == if ok then q.(frames := q.frames + [Frame(id, line + [LF], 0, now, generation)]) else q
  {
    assert (line + [LF])[..|line|] == line;
  }

  /** What holds a line feed before its end is never taken. */
  lemma BrokenLineRefused(q: Queue, id: string, jsonl: seq<byte>, now: u32, generation: u32)
    requires exists k :: 0 <= k < |jsonl| - 1 && jsonl[k] == LF
    ensures Enqueued(q, id, jsonl, now, generation) == (q, false)
  {
    var k :| 0 <= k < |jsonl| - 1 && jsonl[k] == LF;
    assert Payload(jsonl)[k] == LF;
  }

  /** Cancelling takes out the first frame of that identity if none of its bytes is out, and leaves all others in order. */
  lemma CancelMeans(q: Queue, id: string, i: nat)
    requires i < |q.frames| && q.frames[i].id == id && forall k :: 0 <= k < i ==> q.frames[k].id != id
    ensures Withdrawn(q, id) == if q.frames[i].offset == 0 then (q.(frames := q.frames[..i] + q.frames[i + 1..]), true) else (q, false)
  {}

  lemma CancelsNothing(q: Queue, id: string)
    requires forall k :: 0 <= k < |q.frames| ==> q.frames[k].id != id
    ensures Withdrawn(q, id) == (q, false)
  {}
}
