/**
 The firmware's outgoing message queue: four frames, sent in fragments of at most 20 bytes.
 `Queue` and the functions over it are the specification, `OutgoingJsonlQueue` is the in-place
 implementation, and `Line` follows whole runs: which accepted frame every byte on the wire came from.
 */
module OutgoingQueue {
  import opened Common

  const CAPACITY := 4
  const MAX_JSON_BYTES := 4096
  const SAFE_CHUNK_BYTES := 20
  const CHUNK_DELAY_MS := 10
  const MAX_QUEUED_MS := 10000

  datatype Frame = Frame(id: string, bytes: seq<byte>, offset: nat, queuedAt: u32, generation: u32)

  const NO_FRAME := Frame("", [], 0, 0, 0)

  datatype Queue = Queue(frames: seq<Frame>, hasSent: bool, lastSentAt: u32)

  const EMPTY := Queue([], false, 0)

  /** The message without the one line feed a caller may have appended. */
  function Payload(jsonl: seq<byte>): seq<byte> {
    if jsonl != [] && jsonl[|jsonl| - 1] == LF then jsonl[..|jsonl| - 1] else jsonl
  }

  predicate Sendable(payload: seq<byte>) {
    payload != [] && |payload| <= MAX_JSON_BYTES && CR !in payload && LF !in payload
  }

  function Enqueued(q: Queue, id: string, jsonl: seq<byte>, now: u32, generation: u32): (Queue, bool) {
    if id == "" || |q.frames| >= CAPACITY || !Sendable(Payload(jsonl)) then (q, false)
    else (q.(frames := q.frames + [Frame(id, Payload(jsonl) + [LF], 0, now, generation)]), true)
  }

  /** The first frame of this id, or the number of frames. */
  function IndexOf(frames: seq<Frame>, id: string): (i: nat)
    ensures i <= |frames|
    ensures i < |frames| ==> frames[i].id == id
    ensures forall k :: 0 <= k < i ==> frames[k].id != id
  {
    if frames == [] || frames[0].id == id then 0 else 1 + IndexOf(frames[1..], id)
  }

  function Without<T>(s: seq<T>, i: nat): seq<T>
    requires i < |s|
  {
    s[..i] + s[i + 1..]
  }

  /** Only a frame none of whose bytes has been sent can be withdrawn. */
  predicate Cancels(q: Queue, id: string) {
    var i := IndexOf(q.frames, id);
    i < |q.frames| && q.frames[i].offset == 0
  }

  function Withdrawn(q: Queue, id: string): (Queue, bool) {
    if Cancels(q, id) then (q.(frames := Without(q.frames, IndexOf(q.frames, id))), true) else (q, false)
  }

  predicate Kept(f: Frame, now: u32, generation: u32) {
    f.generation == generation && (f.offset == 0 ==> Elapsed(now, f.queuedAt) <= MAX_QUEUED_MS)
  }

  /** The slots that survive the sweep at the start of a poll, in order. */
  function KeptSlots(frames: seq<Frame>, now: u32, generation: u32): (r: seq<nat>)
    ensures forall k :: 0 <= k < |r| ==> r[k] < |frames| && Kept(frames[r[k]], now, generation)
    ensures forall j, k :: 0 <= j < k < |r| ==> r[j] < r[k]
    ensures forall i :: 0 <= i < |frames| && Kept(frames[i], now, generation) ==> i in r
  {
    if frames == [] then []
    else
      var last := |frames| - 1;
      var r := KeptSlots(frames[..last], now, generation);
      assert forall i :: 0 <= i < last ==> frames[i] == frames[..last][i];
      if Kept(frames[last], now, generation) then r + [last] else r
  }

  function Pick<T>(s: seq<T>, indices: seq<nat>): (r: seq<T>)
    requires forall k :: 0 <= k < |indices| ==> indices[k] < |s|
    ensures |r| == |indices| && forall k :: 0 <= k < |r| ==> r[k] == s[indices[k]]
  {
    seq(|indices|, k requires 0 <= k < |indices| => s[indices[k]])
  }

  function Sweep(frames: seq<Frame>, now: u32, generation: u32): seq<Frame> {
    Pick(frames, KeptSlots(frames, now, generation))
  }

  function Fragment(f: Frame): seq<byte>
    requires f.offset <= |f.bytes|
  {
    f.bytes[f.offset..Min(f.offset + SAFE_CHUNK_BYTES, |f.bytes|)]
  }

  predicate Paced(q: Queue, now: u32) {
    q.hasSent && Elapsed(now, q.lastSentAt) < CHUNK_DELAY_MS
  }

  ghost predicate FramesOk(frames: seq<Frame>) {
    |frames| <= CAPACITY && forall i :: 0 <= i < |frames| ==> frames[i].offset <= |frames[i].bytes|
  }

  /** After the sweep: at most one fragment of the first frame is offered; `accept` is the sink's answer. */
  function Offered(q: Queue, now: u32, accept: bool): (Queue, Option<seq<byte>>)
    requires FramesOk(q.frames)
  {
    if q.frames == [] || Paced(q, now) then (q, None)
    else
      var fragment := Fragment(q.frames[0]);
      var sent := q.frames[0].(offset := q.frames[0].offset + |fragment|);
      var rest := if !accept then q.frames
                  else if sent.offset == |sent.bytes| then q.frames[1..]
                  else q.frames[0 := sent];
      (Queue(rest, true, now), Some(fragment))
  }

  /** The next queue and the fragment offered to the sink, if any. */
  function Polled(q: Queue, now: u32, generation: u32, accept: bool): (r: (Queue, Option<seq<byte>>))
    requires FramesOk(q.frames)
    ensures FramesOk(r.0.frames)
  {
    KeptSlotsFit(q.frames, now, generation);
    Offered(q.(frames := Sweep(q.frames, now, generation)), now, accept)
  }

  lemma KeptSlotsFit(frames: seq<Frame>, now: u32, generation: u32)
    ensures |KeptSlots(frames, now, generation)| <= |frames|
  {}

  // ---------------------------------------------------------------- the queue in place

  class OutgoingJsonlQueue {
    const frames: array<Frame>
    var count: nat
    var hasSent: bool
    var lastSentAt: u32

    ghost predicate Valid()
      reads this, frames
    {
      frames.Length == CAPACITY && count <= CAPACITY && FramesOk(frames[..count])
    }

    ghost function Model(): Queue
      reads this, frames
      requires Valid()
    {
      Queue(frames[..count], hasSent, lastSentAt)
    }

    constructor ()
      ensures Valid() && Model() == EMPTY && fresh(frames)
    {
      frames := new Frame[CAPACITY](_ => NO_FRAME);
      count, hasSent, lastSentAt := 0, false, 0;
    }

    method Enqueue(id: string, jsonl: seq<byte>, now: u32, generation: u32) returns (ok: bool)
      requires Valid()
      modifies this`count, frames
      ensures Valid()
      ensures (Model(), ok) == Enqueued(old(Model()), id, jsonl, now, generation)
    {
      if id == "" || count == frames.Length {
        return false;
      }
      var bytes := jsonl;
      if bytes != [] && bytes[|bytes| - 1] == LF {
        bytes := bytes[..|bytes| - 1];
      }
      if bytes == [] || |bytes| > MAX_JSON_BYTES || CR in bytes || LF in bytes {
        return false;
      }
      bytes := bytes + [LF];
      frames[count] := Frame(id, bytes, 0, now, generation);
      count := count + 1;
      assert frames[..count] == old(frames[..count]) + [frames[count - 1]];
      return true;
    }

    method Remove(index: nat)
      requires Valid() && index < count
      modifies this`count, frames
      ensures Valid()
      ensures frames[..count] == Without(old(frames[..count]), index)
    {
      ghost var was := frames[..count];
      var i := index + 1;
      while i < count
        invariant count == |was| && index + 1 <= i <= count
        invariant forall k :: 0 <= k < index ==> frames[k] == was[k]
        invariant forall k :: index <= k < i - 1 ==> frames[k] == was[k + 1]
        invariant forall k :: i - 1 <= k < count ==> frames[k] == was[k]
      {
        frames[i - 1] := frames[i];
        i := i + 1;
      }
      count := count - 1;
      frames[count] := NO_FRAME;
      assert frames[..count] == Without(was, index);
    }

    method CancelPending(id: string) returns (ok: bool)
      requires Valid()
      modifies this`count, frames
      ensures Valid()
      ensures (Model(), ok) == Withdrawn(old(Model()), id)
    {
      ghost var before := frames[..count];
      var i := 0;
      while i < count
        invariant i <= count == |before| && Valid() && frames[..count] == before
        invariant forall k :: 0 <= k < i ==> before[k].id != id
      {
        if frames[i].id == id {
          assert before[i].id == id && IndexOf(before, id) == i;
          // A frame already begun must reach its line feed first.
          if frames[i].offset != 0 {
            return false;
          }
          Remove(i);
          return true;
        }
        i := i + 1;
      }
      return false;
    }

    method Clear()
      requires Valid()
      modifies this`count, this`hasSent, frames
      ensures Valid()
      ensures Model() == Queue([], false, old(lastSentAt))
    {
      while count > 0
        invariant Valid()
      {
        Remove(count - 1);
      }
      hasSent := false;
    }

    /** The first loop of a poll. */
    method Discard(now: u32, generation: u32)
      requires Valid()
      modifies this`count, frames
      ensures Valid()
      ensures frames[..count] == Sweep(old(frames[..count]), now, generation)
    {
      ghost var was := frames[..count];
      ghost var kept, seen := [], 0;
      var i := 0;
      while i < count
        invariant Valid() && Sweeping(was, seen, kept, now, generation)
        invariant i == |kept| && frames[..count] == kept + was[seen..]
        decreases |was| - seen
      {
        SweepStep(was, seen, kept, now, generation);
        SplitAt(kept, was, seen);
        assert frames[i] == frames[..count][i] == was[seen];
        if frames[i].generation != generation
           || (frames[i].offset == 0 && Elapsed(now, frames[i].queuedAt) > MAX_QUEUED_MS) {
          Remove(i);
        } else {
          kept := kept + [was[seen]];
          i := i + 1;
        }
        seen := seen + 1;
      }
      assert was[..seen] == was && kept + was[seen..] == kept;
    }

    /** The rest of a poll. */
    method Offer(now: u32, accept: bool) returns (offered: Option<seq<byte>>)
      requires Valid()
      modifies this`count, this`hasSent, this`lastSentAt, frames
      ensures Valid()
      ensures (Model(), offered) == Offered(old(Model()), now, accept)
    {
      if count == 0 || (hasSent && Elapsed(now, lastSentAt) < CHUNK_DELAY_MS) {
        return None;
      }
      ghost var was := frames[..count];
      var f := frames[0];
      assert was[0] == f;
      var chunk := f.bytes[f.offset..Min(f.offset + SAFE_CHUNK_BYTES, |f.bytes|)];
      // A refused fragment is paced too.
      hasSent := true;
      lastSentAt := now;
      if accept {
        var sent := f.(offset := f.offset + |chunk|);
        frames[0] := sent;
        assert frames[..count] == was[0 := sent];
        if sent.offset == |sent.bytes| {
          Remove(0);
          assert frames[..count] == was[1..];
        }
      }
      return Some(chunk);
    }

    /** `offered` is what the sink is called with, if it is called; `accept` is what it then returns. */
    method Poll(now: u32, generation: u32, accept: bool) returns (offered: Option<seq<byte>>)
      requires Valid()
      modifies this`count, this`hasSent, this`lastSentAt, frames
      ensures Valid()
      ensures (Model(), offered) == Polled(old(Model()), now, generation, accept)
    {
      Discard(now, generation);
      offered := Offer(now, accept);
    }
  }

  /** `kept` is what the sweep leaves of the first `seen` frames. */
  ghost predicate Sweeping(was: seq<Frame>, seen: nat, kept: seq<Frame>, now: u32, generation: u32) {
    seen <= |was| && kept == Sweep(was[..seen], now, generation)
  }

  lemma SweepStep(was: seq<Frame>, seen: nat, kept: seq<Frame>, now: u32, generation: u32)
    requires seen < |was| && Sweeping(was, seen, kept, now, generation)
    ensures Sweeping(was, seen + 1, if Kept(was[seen], now, generation) then kept + [was[seen]] else kept, now, generation)
  {
    assert was[..seen + 1][..seen] == was[..seen];
  }

  lemma SplitAt<T>(kept: seq<T>, was: seq<T>, seen: nat)
    requires seen < |was|
    ensures (kept + was[seen..])[|kept|] == was[seen]
    ensures kept + [was[seen]] + was[seen + 1..] == kept + was[seen..]
    ensures Without(kept + was[seen..], |kept|) == kept + was[seen + 1..]
  {}
}
