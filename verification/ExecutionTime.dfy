/**
 The execution deadline in true time. Inputs happen at unbounded times and read the wrapping clock; as long as the loop
 looks at that clock often enough, what the 32-bit difference says is what has really passed.
 */
module ExecutionTime {
  import opened Common
  import opened ActionRecords
  import opened MessageCodec
  import opened ExecId
  import opened ActionsController
  import Runs = ExecutionRuns

  datatype Timed = Timed(at: nat, input: Runs.Input)

  /** `startedAt`: when the slot last changed hands. `lookedAt`: the last periodic tick. `clock`: the last input. */
  datatype World = World(c: Controller, startedAt: nat, lookedAt: nat, clock: nat)

  /** A periodic tick within this time of the previous one leaves room for one deadline in a turn of the clock. */
  const GAP: nat := TWO_TO_THE_32 - EXECUTION_TIMEOUT_MS

  /** The input has read the clock at its own time. */
  predicate Stamped(t: Timed) {
    match t.input
    case Tick(now) => now == Millis(t.at)
    case Enter(_, now, _) => now == Millis(t.at)
    case Move(_, _, now, _) => now == Millis(t.at)
    case Confirm(_, now, _) => now == Millis(t.at)
    case ById(_, _, now, _) => now == Millis(t.at)
    case ByKey(_, now, _) => now == Millis(t.at)
    case Arrive(_, _, now) => now == Millis(t.at)
    case _ => true
  }

  predicate Steady(w: World, t: Timed) { Stamped(t) && w.clock <= t.at < w.lookedAt + GAP }

  function After(w: World, t: Timed, c: Controller): World {
    World(c, if c.execution.id == w.c.execution.id then w.startedAt else t.at, if t.input.Tick? then t.at else w.lookedAt, t.at)
  }

  function Step(w: World, t: Timed): World { After(w, t, Runs.Step(w.c, t.input)) }

  function Run(last: u64, ts: seq<Timed>): World {
    if ts == [] then World(Runs.Start(last), 0, 0, 0) else Step(Run(last, ts[..|ts| - 1]), ts[|ts| - 1])
  }

  predicate SteadyRun(last: u64, ts: seq<Timed>) {
    ts == [] || (SteadyRun(last, ts[..|ts| - 1]) && Steady(Run(last, ts[..|ts| - 1]), ts[|ts| - 1]))
  }

  // ---------------------------------------------------------------- what one operation does to the slot

  /** The end is that of `x`, after the time the clock shows. */
  predicate EndNow(e: Event, x: Execution, now: u32) {
    e.Ended? && x.id != "" && e.id == x.id
    && match e.cause
       case Answer(_, waited) => waited == Elapsed(now, x.started)
       case Expiry(waited) => waited == Elapsed(now, x.started)
       case Disconnect => true
  }

  ghost predicate EndsNow(c: Controller, c': Controller, now: u32) {
    c.log <= c'.log && forall k :: |c.log| <= k < |c'.log| && c'.log[k].Ended? ==> EndNow(c'.log[k], c.execution, now)
  }

  predicate Emptied(c: Controller, c': Controller) {
    c'.execution.id == "" || (c'.execution.id == c.execution.id && c'.execution.started == c.execution.started)
  }

  /** The slot is empty or unchanged, or holds the next identity since now. */
  predicate Handed(c: Controller, c': Controller, now: u32) {
    Emptied(c, c') || (c.last < MAX_ID && c'.execution.id == Printed(c.last + 1) && c'.execution.started == now)
  }

  ghost predicate Moves(c: Controller, c': Controller, now: u32) { EndsNow(c, c', now) && Handed(c, c', now) }

  ghost predicate Expires(c: Controller, c': Controller, now: u32) {
    EndsNow(c, c', now) && Emptied(c, c') && c'.last == c.last
  }

  lemma Then(c: Controller, c1: Controller, c2: Controller, now: u32)
    requires Expires(c, c1, now) && Moves(c1, c2, now)
    ensures Moves(c, c2, now)
  {
    forall k | |c.log| <= k < |c2.log| && c2.log[k].Ended? ensures EndNow(c2.log[k], c.execution, now) {
      if k < |c1.log| { assert c2.log[k] == c1.log[k]; }
    }
  }

  lemma FailExpires(c: Controller, t: ActionType, now: u32)
    ensures Expires(c, FailedDirectory(c, t), now)
    ensures FailedDirectory(c, t).execution == c.execution
  {}

  lemma DirectoryTickExpires(c: Controller, t: ActionType, now: u32)
    ensures Expires(c, DirectoryTicked(c, t, now), now) && DirectoryTicked(c, t, now).execution == c.execution
  {
    FailExpires(c, t, now);
  }

  lemma ExecutionTickExpires(c: Controller, now: u32)
    ensures Expires(c, ExecutionTicked(c, now), now)
  {}

  lemma ExpiresThen(c: Controller, c1: Controller, c2: Controller, now: u32)
    requires Expires(c, c1, now) && c1.execution == c.execution && Expires(c1, c2, now)
    ensures Expires(c, c2, now)
  {
    Then(c, c1, c2, now);
  }

  lemma TickExpires(c: Controller, now: u32)
    ensures Expires(c, Ticked(c, now), now)
  {
    var c1 := FeedbackTicked(c, now);
    var c2 := DirectoryTicked(c1, Script, now);
    var c3 := DirectoryTicked(c2, Clipboard, now);
    DirectoryTickExpires(c1, Script, now);
    DirectoryTickExpires(c2, Clipboard, now);
    ExecutionTickExpires(c3, now);
    ExpiresThen(c2, c3, Ticked(c, now), now);
    ExpiresThen(c1, c2, Ticked(c, now), now);
  }

  lemma DisconnectMoves(c: Controller, now: u32)
    ensures Moves(c, Disconnected(c), now)
  {}

  lemma ConnectMoves(c: Controller, s: Session, now: u32)
    ensures Moves(c, Runs.Step(c, Runs.Connect(s)), now)
  {
    DisconnectMoves(c, now);
  }

  lemma PageRequestMoves(c: Controller, t: ActionType, offset: u64, selectLast: bool, now: u32, accepted: bool)
    ensures Moves(c, PageRequested(c, t, offset, selectLast, now, accepted), now)
  {
    var c' := PageRequested(c, t, offset, selectLast, now, accepted);
    Runs.PageRequestLog(c, t, offset, selectLast, now, accepted, c');
  }

  lemma SubmitMoves(c: Controller, request: Request, target: seq<byte>, key: Option<byte>, now: u32, accepted: bool)
    ensures Moves(c, Submitted(c, request, target, key, now, accepted).0, now)
  {
    TickExpires(c, now);
    SubmitNowMoves(Ticked(c, now), request, target, key, now, accepted);
    Then(c, Ticked(c, now), Submitted(c, request, target, key, now, accepted).0, now);
  }

  lemma SubmitNowMoves(c: Controller, request: Request, target: seq<byte>, key: Option<byte>, now: u32, accepted: bool)
    ensures Moves(c, SubmittedNow(c, request, target, key, now, accepted).0, now)
  {}

  lemma ByIdMoves(c: Controller, t: ActionType, id: seq<byte>, now: u32, accepted: bool)
    ensures Moves(c, ExecutedById(c, t, id, now, accepted).0, now)
  {
    SubmitMoves(c, Execute, id, None, now, accepted);
  }

  lemma ConfirmMoves(c: Controller, t: ActionType, now: u32, accepted: bool)
    ensures Moves(c, Confirmed(c, t, now, accepted).0, now)
  {
    var d := Dir(c, t);
    PageRequestMoves(c, t, d.targetOffset, d.selectLast, now, accepted);
    if d.selected < |d.entries| { ByIdMoves(c, t, d.entries[d.selected].actionId, now, accepted); }
  }

  lemma EnterMoves(c: Controller, t: ActionType, now: u32, accepted: bool)
    ensures Moves(c, Entered(c, t, now, accepted), now)
  {
    TickExpires(c, now);
    var c1 := Ticked(c, now);
    PageRequestMoves(c1, t, 0, false, now, accepted);
    Then(c, c1, Entered(c, t, now, accepted), now);
  }

  lemma MoveMoves(c: Controller, t: ActionType, direction: Direction, now: u32, accepted: bool)
    ensures Moves(c, Moved(c, t, direction, now, accepted), now)
  {
    PageRequestMoves(c, t, PreviousOffset(Dir(c, t)), true, now, accepted);
    PageRequestMoves(c, t, Dir(c, t).nextOffset, false, now, accepted);
  }

  lemma ReceiveNowMoves(c: Controller, m: Message, now: u32)
    ensures Moves(c, ReceivedNow(c, m, now).0, now)
  {
    FailExpires(c, Script, now);
    FailExpires(c, Clipboard, now);
  }

  lemma ReceiveMoves(c: Controller, isResponse: bool, m: Message, now: u32)
    ensures Moves(c, Received(c, isResponse, m, now).0, now)
  {
    TickExpires(c, now);
    ReceiveNowMoves(Ticked(c, now), m, now);
    Then(c, Ticked(c, now), ReceivedNow(Ticked(c, now), m, now).0, now);
  }

  lemma StepMoves(c: Controller, t: Timed)
    requires Stamped(t)
    ensures Moves(c, Runs.Step(c, t.input), Millis(t.at))
  {
    match t.input
    case Tick(now) => TickExpires(c, now);
    case Connect(s) => ConnectMoves(c, s, Millis(t.at));
    case Drop => DisconnectMoves(c, Millis(t.at));
    case Enter(u, now, accepted) => EnterMoves(c, u, now, accepted);
    case Move(u, direction, now, accepted) => MoveMoves(c, u, direction, now, accepted);
    case Confirm(u, now, accepted) => ConfirmMoves(c, u, now, accepted);
    case ById(u, target, now, accepted) => ByIdMoves(c, u, target, now, accepted);
    case ByKey(key, now, accepted) => SubmitMoves(c, Shortcut, [], Some(LowerCase(key)), now, accepted);
    case Arrive(isResponse, m, now) => ReceiveMoves(c, isResponse, m, now);
    case Elsewhere =>
  }

  // ---------------------------------------------------------------- runs

  /** The stamp of an occupied slot is the clock at `startedAt`, and no tick has found it overdue. */
  ghost predicate TimeInv(w: World) {
    && Runs.SlotInv(w.c) && w.lookedAt <= w.clock
    && (w.c.execution.id != "" ==>
          w.c.execution.started == Millis(w.startedAt) && w.startedAt <= w.clock && w.lookedAt < w.startedAt + EXECUTION_TIMEOUT_MS)
  }

  lemma TrueWait(w: World, t: Timed)
    requires TimeInv(w) && Steady(w, t) && w.c.execution.id != ""
    ensures Elapsed(Millis(t.at), w.c.execution.started) == t.at - w.startedAt
  {
    ElapsedExact(t.at, w.startedAt);
  }

  lemma NextIdIsNew(c: Controller)
    requires Runs.SlotInv(c) && c.last < MAX_ID
    ensures c.execution.id != Printed(c.last + 1)
  {
    if c.execution.id != "" {
      var n := Runs.OccupantCounted(c);
      if Printed(n) == Printed(c.last + 1) { PrintedInjective(n, c.last + 1); }
    }
  }

  predicate NotOverdue(x: Execution, now: u32) { x.id != "" ==> Elapsed(now, x.started) < EXECUTION_TIMEOUT_MS }

  /** The stamp survives a step that kept the occupant, and is now's for a new one. */
  lemma AfterKeepsTime(w: World, t: Timed, c: Controller)
    requires TimeInv(w) && Steady(w, t) && Runs.SlotInv(c) && Handed(w.c, c, Millis(t.at))
    requires w.c.last < MAX_ID ==> w.c.execution.id != Printed(w.c.last + 1)
    requires t.input.Tick? ==> NotOverdue(c.execution, Millis(t.at))
    ensures TimeInv(After(w, t, c))
  {
    if w.c.execution.id != "" { TrueWait(w, t); }
  }

  /** What one step does to the slot, in terms of its outcome alone. */
  lemma StepOutcome(c: Controller, t: Timed) returns (c': Controller)
    requires Runs.SlotInv(c) && Stamped(t)
    ensures c' == Runs.Step(c, t.input)
    ensures Runs.SlotInv(c') && Handed(c, c', Millis(t.at)) && (t.input.Tick? ==> NotOverdue(c'.execution, Millis(t.at)))
  {
    c' := Runs.Step(c, t.input);
    Runs.StepKeepsSlot(c, t.input);
    StepMoves(c, t);
    if t.input.Tick? { Runs.TickKeeps(c, t.input.now); }
  }

  lemma OutcomeKeepsTime(w: World, t: Timed, c: Controller)
    requires TimeInv(w) && Steady(w, t) && Runs.SlotInv(c) && Handed(w.c, c, Millis(t.at))
    requires t.input.Tick? ==> NotOverdue(c.execution, Millis(t.at))
    ensures TimeInv(After(w, t, c))
  {
    if w.c.last < MAX_ID { NextIdIsNew(w.c); }
    AfterKeepsTime(w, t, c);
  }

  lemma StepKeepsTime(w: World, t: Timed)
    requires TimeInv(w) && Steady(w, t)
    ensures TimeInv(Step(w, t))
  {
    var c := StepOutcome(w.c, t);
    OutcomeKeepsTime(w, t, c);
  }

  lemma {:induction false} TimeHolds(last: u64, ts: seq<Timed>)
    requires SteadyRun(last, ts)
    ensures TimeInv(Run(last, ts))
  {
    if ts != [] {
      TimeHolds(last, ts[..|ts| - 1]);
      StepKeepsTime(Run(last, ts[..|ts| - 1]), ts[|ts| - 1]);
    }
  }

  /** The end of what has been in the slot since `startedAt` comes after the true time it claims, on the right side of the deadline. */
  predicate OnTime(e: Event, id: string, startedAt: nat, at: nat) {
    e.Ended? ==>
      e.id == id && startedAt <= at
      && match e.cause
         case Answer(_, waited) => waited == at - startedAt < EXECUTION_TIMEOUT_MS
         case Expiry(waited) => waited == at - startedAt >= EXECUTION_TIMEOUT_MS
         case Disconnect => true
  }

  lemma StepOnTime(w: World, t: Timed, k: nat)
    requires TimeInv(w) && Steady(w, t)
    ensures w.c.log <= Step(w, t).c.log
    ensures |w.c.log| <= k < |Step(w, t).c.log| ==> OnTime(Step(w, t).c.log[k], w.c.execution.id, w.startedAt, t.at)
  {
    StepMoves(w.c, t);
    StepKeepsTime(w, t);
    var w' := Step(w, t);
    if |w.c.log| <= k < |w'.c.log| && w'.c.log[k].Ended? {
      TrueWait(w, t);
      assert Runs.Justified(w'.c.log[k]);
    }
  }

  /**
   Whatever the next input adds to the history: an answered execution was answered within 45000 true milliseconds of its
   submission, an expired one not before; and a tick leaves none in the slot that is older.
   */
  lemma TrueDeadlines(last: u64, ts: seq<Timed>, t: Timed, k: nat)
    requires SteadyRun(last, ts) && Steady(Run(last, ts), t)
    ensures var w := Run(last, ts);
            var w' := Step(w, t);
            && w.c.log <= w'.c.log
            && (|w.c.log| <= k < |w'.c.log| ==> OnTime(w'.c.log[k], w.c.execution.id, w.startedAt, t.at))
            && (t.input.Tick? && w'.c.execution.id != "" ==> t.at < w'.startedAt + EXECUTION_TIMEOUT_MS)
  {
    TimeHolds(last, ts);
    StepKeepsTime(Run(last, ts), t);
    StepOnTime(Run(last, ts), t, k);
  }

  /**
   Without the bound on the gaps: a look at the clock finds the deadline passed no sooner than it has, and finds it so if and
   only if the wrapped time is past it; it errs exactly on waits that a whole number of turns brings back below it.
   */
  lemma OverdueIff(x: Execution, startedAt: nat, at: nat)
    requires x.started == Millis(startedAt) && startedAt <= at
    ensures Elapsed(Millis(at), x.started) >= EXECUTION_TIMEOUT_MS ==> at - startedAt >= EXECUTION_TIMEOUT_MS
    ensures (Elapsed(Millis(at), x.started) >= EXECUTION_TIMEOUT_MS <==> at - startedAt >= EXECUTION_TIMEOUT_MS)
       <==> at - startedAt < EXECUTION_TIMEOUT_MS || (at - startedAt) % TWO_TO_THE_32 >= EXECUTION_TIMEOUT_MS
  {
    ElapsedIsTimeModWrap(at, startedAt);
    ElapsedAtMost(at, startedAt);
  }
}
