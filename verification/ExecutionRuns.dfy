/** The execution slot over whole runs: one at a time, freed only for a reason, never by an old response. */
module ExecutionRuns {
  import opened Common
  import opened ActionRecords
  import opened MessageCodec
  import opened ExecId
  import opened ActionsController

  /** `Elsewhere`: another module takes an identity from the shared generator. */
  datatype Input = Tick(now: u32)
    | Connect(s: Session)
    | Drop
    | Enter(t: ActionType, now: u32, accepted: bool)
    | Move(t: ActionType, direction: Direction, now: u32, accepted: bool)
    | Confirm(t: ActionType, now: u32, accepted: bool)
    | ById(t: ActionType, target: seq<byte>, now: u32, accepted: bool)
    | ByKey(key: byte, now: u32, accepted: bool)
    | Arrive(isResponse: bool, m: Message, now: u32)
    | Elsewhere

  function Step(c: Controller, input: Input): Controller {
    match input
    case Tick(now) => Ticked(c, now)
    case Connect(s) => if s.ready then SessionReady(c, s) else c
    case Drop => Disconnected(c)
    case Enter(t, now, accepted) => Entered(c, t, now, accepted)
    case Move(t, direction, now, accepted) => Moved(c, t, direction, now, accepted)
    case Confirm(t, now, accepted) => Confirmed(c, t, now, accepted).0
    case ById(t, target, now, accepted) => ExecutedById(c, t, target, now, accepted).0
    case ByKey(key, now, accepted) => ExecutedByKey(c, key, now, accepted).0
    case Arrive(isResponse, m, now) => Received(c, isResponse, m, now).0
    case Elsewhere => if c.last < MAX_ID then c.(last := c.last + 1) else c
  }

  function Start(last: u64): Controller {
    Controller(NO_SESSION, NO_DIRECTORY, NO_DIRECTORY, NO_EXECUTION, last, [])
  }

  function Run(c: Controller, inputs: seq<Input>): Controller {
    if inputs == [] then c else Step(Run(c, inputs[..|inputs| - 1]), inputs[|inputs| - 1])
  }

  // ---------------------------------------------------------------- the history

  predicate IsExecution(e: Event) { e.Sent? && !e.command.ListPage? }

  function RequestOf(command: Command): Request {
    match command
    case ListPage(_, _) => ListActions
    case ExecuteTarget(_) => Execute
    case ExecuteKey(_) => Shortcut
  }

  /** What an occupied slot is waiting for. */
  datatype Claim = Claim(id: string, request: Request)

  /** The slot as an automaton over the history: nothing if the history is no alternation of submissions and their ends. */
  function Advance(slot: Option<Option<Claim>>, e: Event): Option<Option<Claim>> {
    if IsExecution(e) then if slot == Some(None) then Some(Some(Claim(e.id, RequestOf(e.command)))) else None
    else if e.Ended? then if slot == Some(Some(Claim(e.id, e.request))) then Some(None) else None
    else slot
  }

  function Replay(log: seq<Event>): Option<Option<Claim>> {
    if log == [] then Some(None) else Advance(Replay(log[..|log| - 1]), log[|log| - 1])
  }

  function Sends(log: seq<Event>): seq<string> {
    if log == [] then [] else Sends(log[..|log| - 1]) + if log[|log| - 1].Sent? then [log[|log| - 1].id] else []
  }

  /** The identities are the printed forms of strictly increasing counts up to `last`. */
  ghost predicate Ascending(ids: seq<string>, last: u64) {
    ids == [] || exists n: u64 :: 0 < n <= last && ids[|ids| - 1] == Printed(n) && Ascending(ids[..|ids| - 1], n - 1)
  }

  /** What a success has to show: who ran, of an offered type, and that type's own proof. */
  predicate Shown(m: Message, types: seq<ActionType>) {
    && m.hasActionType && m.actionType in types && m.executedActionId != [] && m.executedName != []
    && (m.actionType == Script ==> m.hasExitCode && m.exitCode == 0)
    && (m.actionType == Clipboard ==> !m.hasExitCode && m.written == Some(true) && m.sent == Some(true))
  }

  /** The response leaves open what has happened on the computer. */
  predicate Inconclusive(m: Message) { m.code != OK && (m.code == TIMEOUT || m.reason == Ascii("UNCONFIRMED")) }

  /** An end has its evidence, and each outcome its cause. */
  predicate Justified(e: Event) {
    e.Ended? ==>
      && (e.outcome == Succeeded <==> e.cause.Answer? && e.cause.m.code == OK)
      && (e.outcome == Succeeded ==> Shown(e.cause.m, e.types))
      && (e.outcome == Unconfirmed <==> e.cause.Expiry? || (e.cause.Answer? && Inconclusive(e.cause.m)))
      && (e.outcome == Failed <==> e.cause.Answer? && e.cause.m.code != OK && !Inconclusive(e.cause.m))
      && (e.outcome == Idle <==> e.cause.Disconnect?)
      && match e.cause
         case Answer(m, waited) => m.execId == e.id && m.request == Some(e.request) && waited < EXECUTION_TIMEOUT_MS
         case Expiry(waited) => waited >= EXECUTION_TIMEOUT_MS
         case Disconnect => true
  }

  ghost predicate AllJustified(log: seq<Event>) { forall i :: 0 <= i < |log| ==> Justified(log[i]) }

  function Occupant(e: Execution): Option<Claim> { if e.id == "" then None else Some(Claim(e.id, e.request)) }

  ghost predicate History(log: seq<Event>, slot: Option<Claim>, last: u64) {
    Replay(log) == Some(slot) && Ascending(Sends(log), last) && AllJustified(log)
  }

  ghost predicate SlotInv(c: Controller) {
    History(c.log, Occupant(c.execution), c.last) && (c.execution.status == Running <==> c.execution.id != "")
  }

  lemma Snoc(log: seq<Event>, e: Event)
    ensures Replay(log + [e]) == Advance(Replay(log), e)
    ensures Sends(log + [e]) == if e.Sent? then Sends(log) + [e.id] else Sends(log)
    ensures AllJustified(log) && Justified(e) ==> AllJustified(log + [e])
  {
    assert (log + [e])[..|log + [e]| - 1] == log;
  }

  lemma {:induction false} AscendingLater(ids: seq<string>, last: u64, later: u64)
    requires Ascending(ids, last) && last <= later
    ensures Ascending(ids, later)
  {}

  lemma AscendingSnoc(ids: seq<string>, last: u64)
    requires Ascending(ids, last) && last < MAX_ID
    ensures Ascending(ids + [Printed(last + 1)], last + 1)
  {
    var longer, n: u64 := ids + [Printed(last + 1)], last + 1;
    assert longer[..|longer| - 1] == ids && Ascending(longer[..|longer| - 1], n - 1);
  }

  lemma HistoryCancels(log: seq<Event>, slot: Option<Claim>, last: u64, cancelled: string)
    requires History(log, slot, last)
    ensures History(log + Cancels(cancelled), slot, last)
  {
    if cancelled != "" { Snoc(log, Cancelled(cancelled)); } else { assert log + Cancels(cancelled) == log; }
  }

  lemma HistoryCounts(log: seq<Event>, slot: Option<Claim>, last: u64)
    requires History(log, slot, last) && last < MAX_ID
    ensures History(log, slot, last + 1)
  {
    AscendingLater(Sends(log), last, last + 1);
  }

  lemma HistoryList(log: seq<Event>, slot: Option<Claim>, last: u64, t: ActionType, offset: u64)
    requires History(log, slot, last) && last < MAX_ID
    ensures History(log + [Sent(Printed(last + 1), ListPage(t, offset))], slot, last + 1)
  {
    Snoc(log, Sent(Printed(last + 1), ListPage(t, offset)));
    AscendingSnoc(Sends(log), last);
  }

  lemma HistorySubmit(log: seq<Event>, last: u64, command: Command)
    requires History(log, None, last) && last < MAX_ID && !command.ListPage?
    ensures History(log + [Sent(Printed(last + 1), command)], Some(Claim(Printed(last + 1), RequestOf(command))), last + 1)
  {
    Snoc(log, Sent(Printed(last + 1), command));
    AscendingSnoc(Sends(log), last);
  }

  lemma HistoryEnd(log: seq<Event>, slot: Option<Claim>, last: u64, e: Event)
    requires History(log, slot, last) && e.Ended? && slot == Some(Claim(e.id, e.request)) && Justified(e)
    ensures History(log + [e], None, last)
  {
    Snoc(log, e);
  }

  // ---------------------------------------------------------------- every operation keeps it

  lemma FailKeeps(c: Controller, t: ActionType)
    requires SlotInv(c)
    ensures SlotInv(FailedDirectory(c, t)) && FailedDirectory(c, t).execution == c.execution
  {
    HistoryCancels(c.log, Occupant(c.execution), c.last, Dir(c, t).id);
  }

  lemma DirectoryTickKeeps(c: Controller, t: ActionType, now: u32)
    requires SlotInv(c)
    ensures SlotInv(DirectoryTicked(c, t, now)) && DirectoryTicked(c, t, now).execution == c.execution
  {
    FailKeeps(c, t);
  }

  lemma ExecutionTickKeeps(c: Controller, now: u32)
    requires SlotInv(c)
    ensures SlotInv(ExecutionTicked(c, now))
    ensures var e := ExecutionTicked(c, now).execution; e.id != "" ==> Elapsed(now, e.started) < EXECUTION_TIMEOUT_MS
  {
    var e := c.execution;
    var waited := Elapsed(now, e.started);
    if e.id != "" && waited >= EXECUTION_TIMEOUT_MS {
      var end := Ended(e.id, e.request, Unconfirmed, Expiry(waited), c.session.types);
      HistoryCancels(c.log, Occupant(e), c.last, e.id);
      HistoryEnd(c.log + [Cancelled(e.id)], Occupant(e), c.last, end);
      assert c.log + [Cancelled(e.id), end] == (c.log + [Cancelled(e.id)]) + [end];
    }
  }

  lemma TickKeeps(c: Controller, now: u32)
    requires SlotInv(c)
    ensures SlotInv(Ticked(c, now))
    ensures var e := Ticked(c, now).execution; e.id != "" ==> Elapsed(now, e.started) < EXECUTION_TIMEOUT_MS
  {
    var c1 := FeedbackTicked(c, now);
    DirectoryTickKeeps(c1, Script, now);
    var c2 := DirectoryTicked(c1, Script, now);
    DirectoryTickKeeps(c2, Clipboard, now);
    ExecutionTickKeeps(DirectoryTicked(c2, Clipboard, now), now);
  }

  lemma DisconnectKeeps(c: Controller)
    requires SlotInv(c)
    ensures SlotInv(Disconnected(c))
  {
    var e := c.execution;
    var log := c.log;
    HistoryCancels(log, Occupant(e), c.last, c.script.id);
    log := log + Cancels(c.script.id);
    HistoryCancels(log, Occupant(e), c.last, c.clipboard.id);
    log := log + Cancels(c.clipboard.id);
    HistoryCancels(log, Occupant(e), c.last, e.id);
    log := log + Cancels(e.id);
    if e.id != "" {
      HistoryEnd(log, Occupant(e), c.last, Ended(e.id, e.request, Idle, Disconnect, c.session.types));
    } else {
      assert log + [] == log;
    }
  }

  /** A page request appends at most its own submission to the history. */
  lemma PageRequestLog(c: Controller, t: ActionType, offset: u64, selectLast: bool, now: u32, accepted: bool, c': Controller)
    requires c' == PageRequested(c, t, offset, selectLast, now, accepted)
    ensures c'.execution == c.execution && (c'.last == c.last || (c.last < MAX_ID && c'.last == c.last + 1))
    ensures c'.log == c.log
            || (c.last < MAX_ID && c'.last == c.last + 1 && c'.log == c.log + [Sent(Printed(c.last + 1), ListPage(t, offset))])
  {
    assert c.log + Cancels("") == c.log;
  }

  lemma PageRequestKeeps(c: Controller, t: ActionType, offset: u64, selectLast: bool, now: u32, accepted: bool)
    requires SlotInv(c)
    ensures SlotInv(PageRequested(c, t, offset, selectLast, now, accepted))
  {
    var c' := PageRequested(c, t, offset, selectLast, now, accepted);
    PageRequestLog(c, t, offset, selectLast, now, accepted, c');
    HistoryMayGrow(c.log, Occupant(c.execution), c.last, c'.log, c'.last, t, offset);
  }

  lemma HistoryMayGrow(log: seq<Event>, slot: Option<Claim>, last: u64, log': seq<Event>, last': u64, t: ActionType, offset: u64)
    requires History(log, slot, last) && (last' == last || (last < MAX_ID && last' == last + 1))
    requires log' == log || (last < MAX_ID && last' == last + 1 && log' == log + [Sent(Printed(last + 1), ListPage(t, offset))])
    ensures History(log', slot, last')
  {
    if log' != log {
      HistoryList(log, slot, last, t, offset);
    } else if last' != last {
      HistoryCounts(log, slot, last);
    }
  }

  lemma RefusalKeeps(c: Controller, e: Execution)
    requires SlotInv(c) && Occupant(e) == Occupant(c.execution) && (e.status == Running <==> e.id != "")
    ensures SlotInv(c.(execution := e))
  {}

  lemma CountKeeps(c: Controller, e: Execution)
    requires SlotInv(c) && c.last < MAX_ID && Occupant(e) == Occupant(c.execution) && (e.status == Running <==> e.id != "")
    ensures SlotInv(c.(last := c.last + 1, execution := e))
  {
    HistoryCounts(c.log, Occupant(c.execution), c.last);
  }

  lemma AcceptedKeeps(c: Controller, e: Execution, command: Command)
    requires SlotInv(c) && c.last < MAX_ID && c.execution.id == "" && !command.ListPage?
    requires e.id == Printed(c.last + 1) && e.request == RequestOf(command) && e.status == Running
    ensures SlotInv(c.(last := c.last + 1, execution := e, log := c.log + [Sent(e.id, command)]))
  {
    HistorySubmit(c.log, c.last, command);
  }

  lemma SubmitNowKeeps(c: Controller, request: Request, target: seq<byte>, key: Option<byte>, now: u32, accepted: bool)
    requires SlotInv(c) && request == (if key.Some? then Shortcut else Execute)
    ensures SlotInv(SubmittedNow(c, request, target, key, now, accepted).0)
  {
    var r := SubmittedNow(c, request, target, key, now, accepted).0;
    if r.log != c.log {
      AcceptedKeeps(c, r.execution, if key.Some? then ExecuteKey(key.value) else ExecuteTarget(target));
    } else if r.last != c.last {
      CountKeeps(c, r.execution);
    } else {
      RefusalKeeps(c, r.execution);
    }
  }

  lemma SettledKeeps(c: Controller, m: Message, now: u32)
    requires SlotInv(c) && Settles(c, m) && Elapsed(now, c.execution.started) < EXECUTION_TIMEOUT_MS
    ensures SlotInv(Settled(c, m, now))
  {
    var e := c.execution;
    HistoryEnd(c.log, Occupant(e), c.last, Ended(e.id, e.request, OutcomeOf(m), Answer(m, Elapsed(now, e.started)), c.session.types));
  }

  lemma PageReceivedKeeps(c: Controller, t: ActionType, m: Message)
    requires SlotInv(c)
    ensures SlotInv(PageReceived(c, t, m))
  {
    FailKeeps(c, t);
  }

  lemma ReceiveNowKeeps(c: Controller, m: Message, now: u32)
    requires SlotInv(c) && (c.execution.id != "" ==> Elapsed(now, c.execution.started) < EXECUTION_TIMEOUT_MS)
    ensures SlotInv(ReceivedNow(c, m, now).0)
  {
    PageReceivedKeeps(c, Script, m);
    PageReceivedKeeps(c, Clipboard, m);
    if Settles(c, m) { SettledKeeps(c, m, now); }
  }

  lemma SubmitKeeps(c: Controller, request: Request, target: seq<byte>, key: Option<byte>, now: u32, accepted: bool)
    requires SlotInv(c) && request == (if key.Some? then Shortcut else Execute)
    ensures SlotInv(Submitted(c, request, target, key, now, accepted).0)
  {
    TickKeeps(c, now);
    SubmitNowKeeps(Ticked(c, now), request, target, key, now, accepted);
  }

  lemma KindIsFree(c: Controller, t: ActionType)
    requires SlotInv(c)
    ensures SlotInv(c.(execution := c.execution.(kind := t)))
  {}

  lemma ByIdKeeps(c: Controller, t: ActionType, id: seq<byte>, now: u32, accepted: bool)
    requires SlotInv(c)
    ensures SlotInv(ExecutedById(c, t, id, now, accepted).0)
  {
    SubmitKeeps(c, Execute, id, None, now, accepted);
    KindIsFree(Submitted(c, Execute, id, None, now, accepted).0, t);
  }

  lemma ConfirmKeeps(c: Controller, t: ActionType, now: u32, accepted: bool)
    requires SlotInv(c)
    ensures SlotInv(Confirmed(c, t, now, accepted).0)
  {
    var d := Dir(c, t);
    if d.status == LoadFailed {
      PageRequestKeeps(c, t, d.targetOffset, d.selectLast, now, accepted);
    } else if d.selected < |d.entries| {
      ByIdKeeps(c, t, d.entries[d.selected].actionId, now, accepted);
    }
  }

  lemma MoveKeeps(c: Controller, t: ActionType, direction: Direction, now: u32, accepted: bool)
    requires SlotInv(c)
    ensures SlotInv(Moved(c, t, direction, now, accepted))
  {
    PageRequestKeeps(c, t, PreviousOffset(Dir(c, t)), true, now, accepted);
    PageRequestKeeps(c, t, Dir(c, t).nextOffset, false, now, accepted);
  }

  lemma EnterKeeps(c: Controller, t: ActionType, now: u32, accepted: bool)
    requires SlotInv(c)
    ensures SlotInv(Entered(c, t, now, accepted))
  {
    TickKeeps(c, now);
    PageRequestKeeps(Ticked(c, now), t, 0, false, now, accepted);
  }

  lemma ReceiveKeeps(c: Controller, isResponse: bool, m: Message, now: u32)
    requires SlotInv(c)
    ensures SlotInv(Received(c, isResponse, m, now).0)
  {
    TickKeeps(c, now);
    ReceiveNowKeeps(Ticked(c, now), m, now);
  }

  lemma ConnectKeeps(c: Controller, s: Session)
    requires SlotInv(c) && s.ready
    ensures SlotInv(SessionReady(c, s))
  {
    DisconnectKeeps(c);
  }

  lemma ConnectStepKeeps(c: Controller, s: Session)
    requires SlotInv(c)
    ensures SlotInv(Step(c, Connect(s)))
  {
    if s.ready { ConnectKeeps(c, s); }
  }

  lemma StepKeepsSlot(c: Controller, input: Input)
    requires SlotInv(c)
    ensures SlotInv(Step(c, input))
  {
    match input
    case Tick(now) => TickKeeps(c, now);
    case Connect(s) => ConnectStepKeeps(c, s);
    case Drop => DisconnectKeeps(c);
    case Enter(t, now, accepted) => EnterKeeps(c, t, now, accepted);
    case Move(t, direction, now, accepted) => MoveKeeps(c, t, direction, now, accepted);
    case Confirm(t, now, accepted) => ConfirmKeeps(c, t, now, accepted);
    case ById(t, target, now, accepted) => ByIdKeeps(c, t, target, now, accepted);
    case ByKey(key, now, accepted) => SubmitKeeps(c, Shortcut, [], Some(LowerCase(key)), now, accepted);
    case Arrive(isResponse, m, now) => ReceiveKeeps(c, isResponse, m, now);
    case Elsewhere => if c.last < MAX_ID { CountKeeps(c, c.execution); }
  }

  /**
   In every run the history alternates submissions with their ends, the slot shows the open one and `Running` exactly while
   there is one, identities only ascend, and every end has its evidence: a timely response to that very identity, with the
   proof fields of its type if it claims success, or the deadline, or a disconnect.
   */
  lemma {:induction false} SingleSlot(last: u64, inputs: seq<Input>)
    ensures SlotInv(Run(Start(last), inputs))
  {
    if inputs != [] {
      SingleSlot(last, inputs[..|inputs| - 1]);
      StepKeepsSlot(Run(Start(last), inputs[..|inputs| - 1]), inputs[|inputs| - 1]);
    }
  }

  // ---------------------------------------------------------------- what follows from the history

  /** The last identity's count, and the rest below it. */
  lemma AscendingLast(ids: seq<string>, last: u64) returns (n: u64)
    requires Ascending(ids, last) && ids != []
    ensures 0 < n <= last && ids[|ids| - 1] == Printed(n) && Ascending(ids[..|ids| - 1], n - 1)
  {
    n :| 0 < n <= last && ids[|ids| - 1] == Printed(n) && Ascending(ids[..|ids| - 1], n - 1);
  }

  lemma {:induction false} AscendingBound(ids: seq<string>, last: u64, i: nat) returns (n: u64)
    requires Ascending(ids, last) && i < |ids|
    ensures 0 < n <= last && ids[i] == Printed(n)
    decreases |ids|
  {
    n := AscendingLast(ids, last);
    if i < |ids| - 1 {
      var before := ids[..|ids| - 1];
      assert before[i] == ids[i];
      n := AscendingBound(before, n - 1, i);
    }
  }

  lemma {:induction false} AscendingDistinct(ids: seq<string>, last: u64, i: nat, j: nat)
    requires Ascending(ids, last) && i < j < |ids|
    ensures ids[i] != ids[j]
    decreases |ids|
  {
    var n := AscendingLast(ids, last);
    var before := ids[..|ids| - 1];
    assert before[i] == ids[i];
    if j < |ids| - 1 {
      assert before[j] == ids[j];
      AscendingDistinct(before, n - 1, i, j);
    } else {
      var k := AscendingBound(before, n - 1, i);
      if Printed(k) == Printed(n) { PrintedInjective(k, n); }
    }
  }

  lemma OtherIdIgnored(c: Controller, m: Message, now: u32)
    requires c.execution.id != "" && m.execId != c.execution.id
    ensures Received(c, true, m, now).0.execution == (if c.session.ready then Ticked(c, now) else c).execution
  {
    TickedExecution(c, now);
    ReceivedExecution(Ticked(c, now), m, now);
  }

  lemma ReceivedExecution(c: Controller, m: Message, now: u32)
    requires c.execution.id == "" || m.execId != c.execution.id
    ensures ReceivedNow(c, m, now).0.execution == c.execution
  {}

  lemma TickedExecution(c: Controller, now: u32)
    ensures Ticked(c, now).execution.id == "" || Ticked(c, now).execution.id == c.execution.id
    ensures Ticked(c, now).session == c.session
  {}

  lemma {:induction false} OccupantSent(log: seq<Event>, claim: Claim) returns (i: nat)
    requires Replay(log) == Some(Some(claim))
    ensures i < |Sends(log)| && Sends(log)[i] == claim.id
  {
    var before, e := log[..|log| - 1], log[|log| - 1];
    if IsExecution(e) {
      i := |Sends(before)|;
    } else {
      i := OccupantSent(before, claim);
    }
  }

  /** The identity in an occupied slot is one the generator has handed out. */
  lemma OccupantCounted(c: Controller) returns (n: u64)
    requires SlotInv(c) && c.execution.id != ""
    ensures 0 < n <= c.last && c.execution.id == Printed(n)
  {
    var i := OccupantSent(c.log, Claim(c.execution.id, c.execution.request));
    n := AscendingBound(Sends(c.log), c.last, i);
  }

  /** A response to any other identity the generator can hand out, to whichever module, leaves the execution as the clock alone would. */
  lemma EarlierResponseIgnored(last: u64, inputs: seq<Input>, k: u64, m: Message, now: u32) returns (n: u64)
    requires Run(Start(last), inputs).execution.id != "" && m.execId == Printed(k)
    ensures var c := Run(Start(last), inputs);
            && 0 < n <= c.last && c.execution.id == Printed(n)
            && (k != n ==> Received(c, true, m, now).0.execution == (if c.session.ready then Ticked(c, now) else c).execution)
  {
    SingleSlot(last, inputs);
    var c := Run(Start(last), inputs);
    n := OccupantCounted(c);
    if k != n {
      if Printed(k) == Printed(n) { PrintedInjective(k, n); }
      OtherIdIgnored(c, m, now);
    }
  }

  /** Whatever happens next, an occupied slot is left only through an end recorded for its occupant. */
  lemma {:induction false} ReplayNeedsEnd(log: seq<Event>, more: seq<Event>, claim: Claim)
    requires Replay(log) == Some(Some(claim)) && Replay(log + more).Some? && Replay(log + more) != Some(Some(claim))
    ensures exists k :: 0 <= k < |more| && EndOf(more[k], claim)
    decreases |more|
  {
    assert more == [] ==> log + more == log;
    if more != [] {
      var n := |more| - 1;
      assert log + more == (log + more[..n]) + [more[n]];
      Snoc(log + more[..n], more[n]);
      if Replay(log + more[..n]) != Some(Some(claim)) {
        ReplayNeedsEnd(log, more[..n], claim);
        var k :| 0 <= k < n && EndOf(more[..n][k], claim);
        assert EndOf(more[k], claim);
      } else {
        assert EndOf(more[n], claim);
      }
    }
  }

  predicate EndOf(e: Event, claim: Claim) { e.Ended? && Claim(e.id, e.request) == claim }

  lemma TickExtends(c: Controller, now: u32)
    ensures c.log <= Ticked(c, now).log
  {}

  lemma PageRequestExtends(c: Controller, t: ActionType, offset: u64, selectLast: bool, now: u32, accepted: bool)
    ensures c.log <= PageRequested(c, t, offset, selectLast, now, accepted).log
  {}

  lemma SubmitExtends(c: Controller, request: Request, target: seq<byte>, key: Option<byte>, now: u32, accepted: bool)
    ensures c.log <= Submitted(c, request, target, key, now, accepted).0.log
  {
    TickExtends(c, now);
    SubmitNowExtends(Ticked(c, now), request, target, key, now, accepted);
  }

  lemma SubmitNowExtends(c: Controller, request: Request, target: seq<byte>, key: Option<byte>, now: u32, accepted: bool)
    ensures c.log <= SubmittedNow(c, request, target, key, now, accepted).0.log
  {}

  lemma ReceiveNowExtends(c: Controller, m: Message, now: u32)
    ensures c.log <= ReceivedNow(c, m, now).0.log
  {}

  lemma ByIdExtends(c: Controller, t: ActionType, id: seq<byte>, now: u32, accepted: bool)
    ensures c.log <= ExecutedById(c, t, id, now, accepted).0.log
  {
    SubmitExtends(c, Execute, id, None, now, accepted);
  }

  lemma ConfirmExtends(c: Controller, t: ActionType, now: u32, accepted: bool)
    ensures c.log <= Confirmed(c, t, now, accepted).0.log
  {
    var d := Dir(c, t);
    PageRequestExtends(c, t, d.targetOffset, d.selectLast, now, accepted);
    if d.selected < |d.entries| { ByIdExtends(c, t, d.entries[d.selected].actionId, now, accepted); }
  }

  lemma EnterExtends(c: Controller, t: ActionType, now: u32, accepted: bool)
    ensures c.log <= Entered(c, t, now, accepted).log
  {
    TickExtends(c, now);
    PageRequestExtends(Ticked(c, now), t, 0, false, now, accepted);
  }

  lemma MoveExtends(c: Controller, t: ActionType, direction: Direction, now: u32, accepted: bool)
    ensures c.log <= Moved(c, t, direction, now, accepted).log
  {
    PageRequestExtends(c, t, PreviousOffset(Dir(c, t)), true, now, accepted);
    PageRequestExtends(c, t, Dir(c, t).nextOffset, false, now, accepted);
  }

  lemma ReceiveExtends(c: Controller, isResponse: bool, m: Message, now: u32)
    ensures c.log <= Received(c, isResponse, m, now).0.log
  {
    TickExtends(c, now);
    ReceiveNowExtends(Ticked(c, now), m, now);
  }

  lemma StepExtends(c: Controller, input: Input)
    ensures c.log <= Step(c, input).log
  {
    match input
    case Tick(now) => TickExtends(c, now);
    case Connect(s) =>
    case Drop =>
    case Enter(t, now, accepted) => EnterExtends(c, t, now, accepted);
    case Move(t, direction, now, accepted) => MoveExtends(c, t, direction, now, accepted);
    case Confirm(t, now, accepted) => ConfirmExtends(c, t, now, accepted);
    case ById(t, target, now, accepted) => ByIdExtends(c, t, target, now, accepted);
    case ByKey(key, now, accepted) => SubmitExtends(c, Shortcut, [], Some(LowerCase(key)), now, accepted);
    case Arrive(isResponse, m, now) => ReceiveExtends(c, isResponse, m, now);
    case Elsewhere =>
  }

  lemma RunLast(c: Controller, before: seq<Input>, more: seq<Input>)
    requires more != []
    ensures Run(c, before + more) == Step(Run(c, before + more[..|more| - 1]), more[|more| - 1])
  {
    assert (before + more)[..|before + more| - 1] == before + more[..|more| - 1];
  }

  lemma {:induction false} RunExtends(c: Controller, before: seq<Input>, more: seq<Input>)
    ensures Run(c, before).log <= Run(c, before + more).log
    decreases |more|
  {
    if more == [] {
      assert before + more == before;
    } else {
      var n := |more| - 1;
      RunExtends(c, before, more[..n]);
      RunLast(c, before, more);
      StepExtends(Run(c, before + more[..n]), more[n]);
    }
  }

  lemma OccupantEnded(c: Controller, c': Controller)
    requires SlotInv(c) && SlotInv(c') && c.log <= c'.log && c.execution.id != "" && c'.execution.id != c.execution.id
    ensures exists k :: |c.log| <= k < |c'.log| && EndOf(c'.log[k], Claim(c.execution.id, c.execution.request)) && Justified(c'.log[k])
  {
    var added, claim := c'.log[|c.log|..], Claim(c.execution.id, c.execution.request);
    assert c'.log == c.log + added;
    ReplayNeedsEnd(c.log, added, claim);
    var k :| 0 <= k < |added| && EndOf(added[k], claim);
    assert c'.log[|c.log| + k] == added[k];
  }

  /** An execution once in the slot stays there until its own end is recorded, whatever else the run does. */
  lemma SlotHeldUntilEnd(last: u64, before: seq<Input>, more: seq<Input>)
    requires Run(Start(last), before).execution.id != ""
    requires Run(Start(last), before + more).execution.id != Run(Start(last), before).execution.id
    ensures var c, c' := Run(Start(last), before), Run(Start(last), before + more);
            && c.log <= c'.log
            && exists k :: |c.log| <= k < |c'.log| && EndOf(c'.log[k], Claim(c.execution.id, c.execution.request)) && Justified(c'.log[k])
  {
    SingleSlot(last, before);
    SingleSlot(last, before + more);
    RunExtends(Start(last), before, more);
    OccupantEnded(Run(Start(last), before), Run(Start(last), before + more));
  }
}
