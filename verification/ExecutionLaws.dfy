/** What decides an execution, in every run: which answers count and what they mean, and what the clock ends. */
module ExecutionLaws {
  import opened Common
  import opened ActionRecords
  import opened MessageCodec
  import opened ExecId
  import opened ActionsController
  import opened ExecutionRuns
  import opened DirectoryRuns

  // ---------------------------------------------------------------- answers

  lemma {:induction false} ClaimIsExecution(log: seq<Event>, claim: Claim)
    requires Replay(log) == Some(Some(claim))
    ensures claim.request != ListActions
  {
    var before, e := log[..|log| - 1], log[|log| - 1];
    if !IsExecution(e) { ClaimIsExecution(before, claim); }
  }

  /** An identity or a type the answer carries is that of the entry asked for; a shortcut asked for none. */
  predicate Agrees(m: Message, e: Execution) {
    e.target == [] || ((m.executedActionId == [] || m.executedActionId == e.target) && (m.hasActionType ==> m.actionType == e.kind))
  }

  /** What an answer that counts makes of the execution. */
  function Verdict(m: Message): ExecutionStatus {
    if m.code == OK then Succeeded else if Inconclusive(m) then Unconfirmed else Failed
  }

  /** The history has grown, and ends in this event. */
  predicate EndsIn(before: seq<Event>, after: seq<Event>, e: Event) {
    before < after && after[|after| - 1] == e
  }

  /** The execution is over with this outcome, on display from now on, and the history says so. */
  predicate Over(c: Controller, c': Controller, outcome: ExecutionStatus, cause: Cause, now: u32) {
    var e, e' := c.execution, c'.execution;
    && e'.id == "" && e'.target == [] && e'.status == outcome && e'.shown && e'.feedbackAt == now
    && EndsIn(c.log, c'.log, Ended(e.id, e.request, outcome, cause, c.session.types))
  }

  lemma TimelyTick(c: Controller, now: u32)
    requires c.execution.id != "" && Elapsed(now, c.execution.started) < EXECUTION_TIMEOUT_MS
    ensures Ticked(c, now).execution == c.execution && Ticked(c, now).session == c.session
  {}

  lemma AnswerNow(c: Controller, m: Message, now: u32)
    requires c.execution.id != "" && m.request == Some(c.execution.request) && m.execId == c.execution.id && m.request != Some(ListActions)
    ensures var (c', handled) := ReceivedNow(c, m, now);
            && handled == (Agrees(m, c.execution) && (m.code == OK ==> Shown(m, c.session.types)))
            && if handled then Over(c, c', Verdict(m), Answer(m, Elapsed(now, c.execution.started)), now) else c' == c
  {}

  lemma OverLater(c: Controller, c1: Controller, c': Controller, outcome: ExecutionStatus, cause: Cause, now: u32)
    requires c.log <= c1.log && c1.execution == c.execution && c1.session == c.session && Over(c1, c', outcome, cause, now)
    ensures Over(c, c', outcome, cause, now)
  {}

  /**
   In every run: a timely answer to the execution in the slot ends it exactly if what it names agrees with what was asked for
   and, if it claims success, shows the proof. It then succeeds, fails or stays unconfirmed as the answer says; otherwise nothing
   happens to the slot.
   */
  lemma AnswerDecides(last: u64, inputs: seq<Input>, m: Message, now: u32)
    requires var c := Run(Start(last), inputs);
             && c.session.ready && c.execution.id != "" && Elapsed(now, c.execution.started) < EXECUTION_TIMEOUT_MS
             && m.request == Some(c.execution.request) && m.execId == c.execution.id
    ensures var c, c' := Run(Start(last), inputs), Step(Run(Start(last), inputs), Arrive(true, m, now));
            if Agrees(m, c.execution) && (m.code == OK ==> Shown(m, c.session.types))
            then Over(c, c', Verdict(m), Answer(m, Elapsed(now, c.execution.started)), now) else c'.execution == c.execution
  {
    SingleSlot(last, inputs);
    AnswerToOccupant(Run(Start(last), inputs), m, now);
  }

  lemma AnswerToOccupant(c: Controller, m: Message, now: u32)
    requires SlotInv(c) && c.session.ready && c.execution.id != "" && Elapsed(now, c.execution.started) < EXECUTION_TIMEOUT_MS
    requires m.request == Some(c.execution.request) && m.execId == c.execution.id
    ensures var c' := Received(c, true, m, now).0;
            if Agrees(m, c.execution) && (m.code == OK ==> Shown(m, c.session.types))
            then Over(c, c', Verdict(m), Answer(m, Elapsed(now, c.execution.started)), now) else c'.execution == c.execution
  {
    ClaimIsExecution(c.log, Claim(c.execution.id, c.execution.request));
    TimelyTick(c, now);
    TickExtends(c, now);
    AnswerNow(Ticked(c, now), m, now);
    if Agrees(m, c.execution) && (m.code == OK ==> Shown(m, c.session.types)) {
      OverLater(c, Ticked(c, now), Received(c, true, m, now).0, Verdict(m), Answer(m, Elapsed(now, c.execution.started)), now);
    }
  }

  /** Whatever looks at the clock late finds the execution unconfirmed, and takes its request back. */
  lemma ExpiryDecides(c: Controller, now: u32)
    requires c.execution.id != "" && Elapsed(now, c.execution.started) >= EXECUTION_TIMEOUT_MS
    ensures Over(c, Step(c, Tick(now)), Unconfirmed, Expiry(Elapsed(now, c.execution.started)), now)
    ensures Cancelled(c.execution.id) in Step(c, Tick(now)).log
  {
    ExpiredSlot(DirectoryTicked(DirectoryTicked(c, Script, now), Clipboard, now), now);
  }

  lemma ExpiredSlot(c: Controller, now: u32)
    requires c.execution.id != "" && Elapsed(now, c.execution.started) >= EXECUTION_TIMEOUT_MS
    ensures Over(c, ExecutionTicked(c, now), Unconfirmed, Expiry(Elapsed(now, c.execution.started)), now)
    ensures Cancelled(c.execution.id) in ExecutionTicked(c, now).log
  {
    var log := ExecutionTicked(c, now).log;
    assert log[|log| - 2] == Cancelled(c.execution.id);
  }

  /** Feedback on a free slot goes after three seconds, and not before. */
  lemma FeedbackGoes(c: Controller, now: u32)
    requires c.execution.id == "" && c.execution.shown
    ensures Step(c, Tick(now)).execution.shown <==> Elapsed(now, c.execution.feedbackAt) < FEEDBACK_MS
  {}

  /** A page that has not come within its time is given up, and its request taken back; until then it is waited for. */
  lemma PageDeadline(c: Controller, t: ActionType, now: u32)
    requires Dir(c, t).id != ""
    ensures var c' := Step(c, Tick(now));
            if Elapsed(now, Dir(c, t).started) < DIRECTORY_TIMEOUT_MS then Dir(c', t) == Dir(c, t)
            else Dir(c', t) == Dir(c, t).(id := "", status := LoadFailed) && Cancelled(Dir(c, t).id) in c'.log
  {
    var c1 := FeedbackTicked(c, now);
    var c2 := DirectoryTicked(c1, Script, now);
    var c3 := DirectoryTicked(c2, Clipboard, now);
    PageTick(c1, Script, now);
    PageTick(c2, Clipboard, now);
    assert c2.log <= c3.log && c3.log <= ExecutionTicked(c3, now).log;
  }

  lemma PageTick(c: Controller, t: ActionType, now: u32)
    ensures Dir(c, t).id != "" && Elapsed(now, Dir(c, t).started) >= DIRECTORY_TIMEOUT_MS ==>
              Cancelled(Dir(c, t).id) in DirectoryTicked(c, t, now).log
  {
    var log := DirectoryTicked(c, t, now).log;
    assert log != [] ==> log[|log| - 1] in log;
  }

  // ---------------------------------------------------------------- pages

  /** The page asked for: of the type, at the offset and with the total known so far, and complete. */
  predicate GoodPage(d: Directory, t: ActionType, m: Message) {
    && m.code == OK && m.hasActionType && m.actionType == t && m.offset == d.targetOffset && m.offset % 8 == 0
    && (d.hasTotal ==> m.total == d.total) && (if m.total == 0 then m.offset == 0 else m.offset < m.total)
    && |m.actions| == Min(8, m.total - m.offset) && (m.hasNextOffset <==> m.offset + |m.actions| < m.total)
    && (m.hasNextOffset ==> m.nextOffset == m.offset + |m.actions|)
  }

  /** The page is on display, with the cursor at the end it was asked for from. */
  predicate Displays(d: Directory, d': Directory, m: Message) {
    && d'.status == Ready && d'.id == "" && d'.entries == m.actions && d'.offset == m.offset && d'.hasTotal && d'.total == m.total
    && d'.hasNextOffset == m.hasNextOffset && (m.hasNextOffset ==> d'.nextOffset == m.nextOffset)
    && d'.selected == if d.selectLast && m.actions != [] then |m.actions| - 1 else 0
  }

  /** The answer awaited, in time: a good page is displayed, anything else fails the request and leaves the old page. */
  lemma PageAnswerDecides(c: Controller, t: ActionType, m: Message, now: u32)
    requires c.session.ready && IdsApart(c) && Dir(c, t).id != "" && Elapsed(now, Dir(c, t).started) < DIRECTORY_TIMEOUT_MS
    requires m.request == Some(ListActions) && m.execId == Dir(c, t).id
    ensures var d, d' := Dir(c, t), Dir(Step(c, Arrive(true, m, now)), t);
            if GoodPage(d, t, m) then Displays(d, d', m) else d' == d.(id := "", status := LoadFailed)
  {
    TimelyStays(c, now, t);
  }

  /** Outside a session nothing is listened to, and in one only responses are. */
  lemma OthersIgnored(c: Controller, isResponse: bool, m: Message, now: u32)
    requires !c.session.ready || !isResponse
    ensures Step(c, Arrive(isResponse, m, now)) == c
  {}

  // ---------------------------------------------------------------- sessions

  /** Nothing is on display, asked for or waited for. */
  predicate Blank(d: Directory) {
    d.entries == [] && d.id == "" && d.offset == d.targetOffset == 0 && d.selected == 0 && !d.hasTotal && !d.selectLast && !d.hasNextOffset
  }

  /** Every request of the old session has been taken back, and what was running has ended without an outcome. */
  ghost predicate GivenUp(c: Controller, c': Controller) {
    && c.log <= c'.log && c'.last == c.last
    && c'.execution.id == "" && c'.execution.target == [] && c'.execution.status == Idle && !c'.execution.shown
    && (forall id | id in [c.script.id, c.clipboard.id, c.execution.id] && id != "" :: Cancelled(id) in c'.log)
    && (c.execution.id != "" ==>
          EndsIn(c.log, c'.log, Ended(c.execution.id, c.execution.request, Idle, Disconnect, c.session.types)))
  }

  lemma DropGivesUp(c: Controller)
    ensures GivenUp(c, Disconnected(c))
  {
    var log := Disconnected(c).log;
    forall id | id in [c.script.id, c.clipboard.id, c.execution.id] && id != "" ensures Cancelled(id) in log {
      assert Cancelled(id) in Cancels(id);
    }
    assert c.execution.id != "" ==> log[|log| - 1] == Ended(c.execution.id, c.execution.request, Idle, Disconnect, c.session.types);
  }

  /** A lost connection leaves nothing: no session, no pages, a free slot. */
  lemma SessionLost(c: Controller)
    ensures var c' := Step(c, Drop);
            && GivenUp(c, c') && !c'.session.ready && c'.session.types == []
            && forall t :: Blank(Dir(c', t)) && Dir(c', t).status == Unsupported
  {
    DropGivesUp(c);
  }

  /** The same session once more changes nothing; any other starts from nothing, with the directories it offers not loaded. */
  lemma SessionBegins(c: Controller, s: Session)
    requires s.ready
    ensures var c' := Step(c, Connect(s));
            if c.session == s then c' == c
            else
              && GivenUp(c, c') && c'.session == s
              && forall t :: Blank(Dir(c', t)) && Dir(c', t).status == if s.list && t in s.types then NotLoaded else Unsupported
  {
    DropGivesUp(c);
  }

  // ---------------------------------------------------------------- the status shown is the one recorded

  /** Whatever has ended, the slot is free and shows how. */
  ghost predicate Tells(c: Controller, c': Controller) {
    c.log <= c'.log && forall k :: |c.log| <= k < |c'.log| && c'.log[k].Ended? ==> c'.execution.id == "" && c'.execution.status == c'.log[k].outcome
  }

  ghost predicate NoEnds(c: Controller, c': Controller) {
    c.log <= c'.log && c'.execution == c.execution && forall k :: |c.log| <= k < |c'.log| ==> !c'.log[k].Ended?
  }

  lemma NoEndsThenTells(c: Controller, c1: Controller, c2: Controller)
    requires NoEnds(c, c1) && Tells(c1, c2)
    ensures Tells(c, c2)
  {
    assert forall k :: |c.log| <= k < |c1.log| ==> c2.log[k] == c1.log[k];
  }

  lemma TellsThenNoEnds(c: Controller, c1: Controller, c2: Controller)
    requires Tells(c, c1) && NoEnds(c1, c2)
    ensures Tells(c, c2)
  {
    assert forall k :: |c.log| <= k < |c1.log| ==> c2.log[k] == c1.log[k];
  }

  lemma PageTickNoEnds(c: Controller, t: ActionType, now: u32)
    ensures NoEnds(c, DirectoryTicked(c, t, now))
  {}

  lemma TickTells(c: Controller, now: u32)
    ensures Tells(c, Ticked(c, now))
  {
    var c1 := FeedbackTicked(c, now);
    var c2 := DirectoryTicked(c1, Script, now);
    var c3 := DirectoryTicked(c2, Clipboard, now);
    PageTickNoEnds(c1, Script, now);
    PageTickNoEnds(c2, Clipboard, now);
    assert Tells(c3, ExecutionTicked(c3, now));
    NoEndsThenTells(c2, c3, Ticked(c, now));
    NoEndsThenTells(c1, c2, Ticked(c, now));
  }

  lemma PageRequestNoEnds(c: Controller, t: ActionType, offset: u64, selectLast: bool, now: u32, accepted: bool)
    ensures NoEnds(c, PageRequested(c, t, offset, selectLast, now, accepted))
  {}

  lemma ReceiveNowTells(c: Controller, m: Message, now: u32)
    ensures if c.execution.id == "" then NoEnds(c, ReceivedNow(c, m, now).0) else Tells(c, ReceivedNow(c, m, now).0)
  {}

  /** After anything but an attempt to run something, the status is the outcome recorded for what has ended. */
  lemma StatusRecorded(c: Controller, input: Input)
    requires !input.Confirm? && !input.ById? && !input.ByKey?
    ensures Tells(c, Step(c, input))
  {
    match input
    case Tick(now) => TickTells(c, now);
    case Connect(s) => DisconnectTells(c);
    case Drop => DisconnectTells(c);
    case Enter(t, now, accepted) => EnterTells(c, t, now, accepted);
    case Move(t, direction, now, accepted) => MoveTells(c, t, direction, now, accepted);
    case Arrive(isResponse, m, now) => ReceiveTells(c, isResponse, m, now);
    case Elsewhere =>
  }

  lemma EnterTells(c: Controller, t: ActionType, now: u32, accepted: bool)
    ensures Tells(c, Entered(c, t, now, accepted))
  {
    TickTells(c, now);
    PageRequestNoEnds(Ticked(c, now), t, 0, false, now, accepted);
    TellsThenNoEnds(c, Ticked(c, now), Entered(c, t, now, accepted));
  }

  lemma MoveTells(c: Controller, t: ActionType, direction: Direction, now: u32, accepted: bool)
    ensures Tells(c, Moved(c, t, direction, now, accepted))
  {
    PageRequestNoEnds(c, t, PreviousOffset(Dir(c, t)), true, now, accepted);
    PageRequestNoEnds(c, t, Dir(c, t).nextOffset, false, now, accepted);
  }

  lemma DisconnectTells(c: Controller)
    ensures Tells(c, Disconnected(c))
  {}

  lemma ReceiveTells(c: Controller, isResponse: bool, m: Message, now: u32)
    ensures Tells(c, Received(c, isResponse, m, now).0)
  {
    TickTells(c, now);
    var c1 := Ticked(c, now);
    ReceiveNowTells(c1, m, now);
    if c1.execution.id == "" {
      TellsThenNoEnds(c, c1, ReceivedNow(c1, m, now).0);
    } else {
      OccupiedTickNoEnds(c, now);
      NoEndsThenTells(c, c1, ReceivedNow(c1, m, now).0);
    }
  }

  /** A tick that leaves the slot occupied has ended nothing. */
  lemma OccupiedTickNoEnds(c: Controller, now: u32)
    requires Ticked(c, now).execution.id != ""
    ensures NoEnds(c, Ticked(c, now))
  {
    TickTells(c, now);
  }
}
