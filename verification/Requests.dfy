/** What the keys make the controller send, in every run: which action Enter or a letter runs, and which page a cursor key asks for. */
module Requests {
  import opened Common
  import opened ActionRecords
  import opened MessageCodec
  import opened ExecId
  import opened ActionsController
  import opened ExecutionRuns
  import opened DirectoryRuns

  /** The last of what the history gained is this submission, and the only one. */
  ghost predicate SendsOnly(c: Controller, c': Controller, e: Event) {
    && c.log < c'.log && c'.log[|c'.log| - 1] == e
    && forall k :: |c.log| <= k < |c'.log| - 1 ==> !c'.log[k].Sent?
  }

  ghost predicate SendsNothing(c: Controller, c': Controller) {
    c.log <= c'.log && forall k :: |c.log| <= k < |c'.log| ==> !c'.log[k].Sent?
  }

  lemma NothingThenOnly(c: Controller, c1: Controller, c2: Controller, e: Event)
    requires SendsNothing(c, c1) && SendsOnly(c1, c2, e)
    ensures SendsOnly(c, c2, e)
  {
    assert forall k :: |c.log| <= k < |c1.log| ==> c2.log[k] == c1.log[k];
  }

  lemma NothingTwice(c: Controller, c1: Controller, c2: Controller)
    requires SendsNothing(c, c1) && SendsNothing(c1, c2)
    ensures SendsNothing(c, c2)
  {
    assert forall k :: |c.log| <= k < |c1.log| ==> c2.log[k] == c1.log[k];
  }

  lemma TickSends(c: Controller, now: u32)
    ensures SendsNothing(c, Ticked(c, now))
  {
    var c1 := FeedbackTicked(c, now);
    var c2 := DirectoryTicked(c1, Script, now);
    var c3 := DirectoryTicked(c2, Clipboard, now);
    assert SendsNothing(c1, c2) && SendsNothing(c2, c3) && SendsNothing(c3, ExecutionTicked(c3, now));
    NothingTwice(c1, c2, c3);
    NothingTwice(c1, c3, ExecutionTicked(c3, now));
  }

  // ---------------------------------------------------------------- executions

  /** The slot is free, or its execution has run out of time. */
  predicate Vacant(e: Execution, now: u32) { e.id == "" || Elapsed(now, e.started) >= EXECUTION_TIMEOUT_MS }

  lemma TickVacates(c: Controller, now: u32)
    ensures var c1 := Ticked(c, now);
            && (c1.execution.id == "" <==> Vacant(c.execution, now)) && c1.session == c.session && c1.last == c.last
            && c1.execution.kind == c.execution.kind
  {
    TickIds(c, now);
  }

  /** What is in the slot after a submission: that request, since now. */
  predicate Holds(e: Execution, id: string, request: Request, target: seq<byte>, now: u32) {
    && e.id == id && e.request == request && e.target == target && e.started == now && e.status == Running
    && e.shown && e.feedbackAt == now
  }

  /** The session offers it, an identity is left and the queue takes the request. */
  predicate CanSend(c: Controller, offered: bool, accepted: bool) { c.session.ready && offered && c.last < MAX_ID && accepted }

  function NextId(c: Controller): string { Printed(if c.last < MAX_ID then c.last + 1 else 0) }

  /** What is in the slot when nothing was sent: failed if that was tried, and in any case a word about it on display. */
  predicate Refuses(e: Execution, e': Execution, tried: bool, now: u32) {
    e' == e.(status := if tried then Failed else e.status, shown := true, feedbackAt := now)
  }

  /** An identity is used up by every attempt, whether the queue takes the request or not. */
  predicate Counts(c: Controller, c': Controller, tried: bool) { c'.last == if tried && c.last < MAX_ID then c.last + 1 else c.last }

  /** What a submission comes to once the clock has been looked at. */
  ghost predicate SubmitsNow(c: Controller, c': Controller, offered: bool, accepted: bool, e: Event, request: Request, target: seq<byte>, now: u32)
    requires e.Sent?
  {
    var tried := c.execution.id == "" && c.session.ready && offered;
    && Counts(c, c', tried) && c'.execution.kind == c.execution.kind
    && if tried && c.last < MAX_ID && accepted then SendsOnly(c, c', e) && Holds(c'.execution, e.id, request, target, now)
       else SendsNothing(c, c') && Refuses(c.execution, c'.execution, tried, now)
  }

  lemma SubmitNowSends(c: Controller, target: seq<byte>, key: Option<byte>, now: u32, accepted: bool, command: Command)
    requires command == if key.Some? then ExecuteKey(key.value) else ExecuteTarget(target)
    ensures var request, offered := if key.Some? then Shortcut else Execute, if key.Some? then c.session.shortcut else c.session.execute;
            var (c', sent) := SubmittedNow(c, request, target, key, now, accepted);
            && sent == (c.execution.id == "" && CanSend(c, offered, accepted))
            && SubmitsNow(c, c', offered, accepted, Sent(NextId(c), command), request, target, now)
  {}

  /** What the clock leaves of the slot: an execution that has run out of time is over, unconfirmed. */
  predicate Leaves(e: Execution, e1: Execution, now: u32) {
    if e.id != "" && Elapsed(now, e.started) >= EXECUTION_TIMEOUT_MS then e1.id == "" && e1.target == [] && e1.status == Unconfirmed
    else e1.id == e.id && e1.target == e.target && e1.status == e.status && e1.request == e.request && e1.started == e.started
  }

  lemma TickLeaves(c: Controller, now: u32)
    ensures Leaves(c.execution, Ticked(c, now).execution, now) && Ticked(c, now).execution.kind == c.execution.kind
  {
    TickVacates(c, now);
  }

  /** What the clock does before a submission. */
  ghost predicate ClockLaw(c: Controller, c1: Controller, now: u32) {
    && SendsNothing(c, c1) && (c1.execution.id == "" <==> Vacant(c.execution, now)) && Leaves(c.execution, c1.execution, now)
    && c1.session == c.session && c1.last == c.last && c1.execution.kind == c.execution.kind
  }

  lemma TickMeans(c: Controller, now: u32)
    ensures ClockLaw(c, Ticked(c, now), now)
  {
    TickSends(c, now);
    TickVacates(c, now);
    TickLeaves(c, now);
  }

  lemma SubmitAfter(c: Controller, c1: Controller, target: seq<byte>, key: Option<byte>, now: u32, accepted: bool, command: Command)
    requires ClockLaw(c, c1, now) && command == if key.Some? then ExecuteKey(key.value) else ExecuteTarget(target)
    ensures var request, offered := if key.Some? then Shortcut else Execute, if key.Some? then c.session.shortcut else c.session.execute;
            var (c', sent) := SubmittedNow(c1, request, target, key, now, accepted);
            && sent == (Vacant(c.execution, now) && CanSend(c, offered, accepted)) && c'.execution.kind == c.execution.kind
            && SubmissionLaw(c, c', offered, accepted, Sent(NextId(c), command), request, target, now)
  {
    SubmitNowSends(c1, target, key, now, accepted, command);
    var request, offered := if key.Some? then Shortcut else Execute, if key.Some? then c.session.shortcut else c.session.execute;
    var c' := SubmittedNow(c1, request, target, key, now, accepted).0;
    ThenSubmits(c, c1, c', offered, accepted, Sent(NextId(c), command), request, target, now);
  }

  lemma SubmitSends(c: Controller, target: seq<byte>, key: Option<byte>, now: u32, accepted: bool, command: Command)
    requires command == if key.Some? then ExecuteKey(key.value) else ExecuteTarget(target)
    ensures var request, offered := if key.Some? then Shortcut else Execute, if key.Some? then c.session.shortcut else c.session.execute;
            var (c', sent) := Submitted(c, request, target, key, now, accepted);
            && sent == (Vacant(c.execution, now) && CanSend(c, offered, accepted)) && c'.execution.kind == c.execution.kind
            && SubmissionLaw(c, c', offered, accepted, Sent(NextId(c), command), request, target, now)
  {
    TickMeans(c, now);
    SubmitAfter(c, Ticked(c, now), target, key, now, accepted, command);
  }

  lemma ThenSubmits(c: Controller, c1: Controller, c': Controller, offered: bool, accepted: bool, e: Event, request: Request,
                    target: seq<byte>, now: u32)
    requires e.Sent? && ClockLaw(c, c1, now) && SubmitsNow(c1, c', offered, accepted, e, request, target, now)
    ensures SubmissionLaw(c, c', offered, accepted, e, request, target, now)
  {
    if SendsOnly(c1, c', e) { NothingThenOnly(c, c1, c', e); }
    if SendsNothing(c1, c') { NothingTwice(c, c1, c'); }
  }

  /**
   An attempt to run something. It is sent if the slot is free and it can be; if the session offers it and the slot is free but it
   cannot be sent, the slot shows a failure; otherwise it shows what it showed, an execution out of time as unconfirmed.
   */
  ghost predicate SubmissionLaw(c: Controller, c': Controller, offered: bool, accepted: bool, e: Event, request: Request, target: seq<byte>, now: u32)
    requires e.Sent?
  {
    var tried := Vacant(c.execution, now) && c.session.ready && offered;
    && Counts(c, c', tried)
    && if tried && c.last < MAX_ID && accepted then SendsOnly(c, c', e) && Holds(c'.execution, e.id, request, target, now)
       else
         && SendsNothing(c, c') && c'.execution.shown && c'.execution.feedbackAt == now
         && if tried then c'.execution.id == "" && c'.execution.status == Failed
            else Leaves(c.execution, c'.execution, now)
  }

  /** A letter in either case runs the action of its lower-case form, whatever the pages show; no other character does anything. */
  lemma KeySends(c: Controller, key: byte, now: u32, accepted: bool)
    ensures var c' := Step(c, ByKey(key, now, accepted));
            var lower: byte := if 65 <= key <= 90 then key + 32 else key;
            if 97 <= lower <= 122 then
              SubmissionLaw(c, c', c.session.shortcut, accepted, Sent(NextId(c), ExecuteKey(lower)), Shortcut, [], now)
            else c' == c
  {
    if Letter(LowerCase(key)) { SubmitSends(c, [], Some(LowerCase(key)), now, accepted, ExecuteKey(LowerCase(key))); }
  }

  /** The law says nothing of the type, which only matters while the slot waits for an entry of a page. */
  lemma KindIsApart(c: Controller, c1: Controller, t: ActionType, offered: bool, accepted: bool, e: Event, target: seq<byte>, now: u32)
    requires e.Sent? && SubmissionLaw(c, c1, offered, accepted, e, Execute, target, now)
    ensures SubmissionLaw(c, c1.(execution := c1.execution.(kind := t)), offered, accepted, e, Execute, target, now)
  {}

  predicate OnDisplay(d: Directory, id: seq<byte>) { d.status == Ready && exists i :: 0 <= i < |d.entries| && d.entries[i].actionId == id }

  /** An entry of the displayed page is run under its own identity and type; nothing else can be. */
  lemma ByIdSends(c: Controller, t: ActionType, id: seq<byte>, now: u32, accepted: bool)
    ensures var (c', sent) := ExecutedById(c, t, id, now, accepted);
            if OnDisplay(Dir(c, t), id)
            then SubmissionLaw(c, c', c.session.execute, accepted, Sent(NextId(c), ExecuteTarget(id)), Execute, id, now)
                 && c'.execution.kind == if Vacant(c.execution, now) && CanSend(c, c.session.execute, accepted) then t else c.execution.kind
            else c' == c
  {
    if OnDisplay(Dir(c, t), id) {
      var c1 := Submitted(c, Execute, id, None, now, accepted).0;
      SubmitSends(c, id, None, now, accepted, ExecuteTarget(id));
      KindIsApart(c, c1, t, c.session.execute, accepted, Sent(NextId(c), ExecuteTarget(id)), id, now);
    }
  }

  // ---------------------------------------------------------------- pages

  /** One request for the page at this offset, waited for from now on. */
  ghost predicate Asks(c: Controller, c': Controller, t: ActionType, offset: nat, now: u32) {
    && c.last < MAX_ID && offset < TWO_TO_THE_64
    && SendsOnly(c, c', Sent(Printed(c.last + 1), ListPage(t, offset)))
    && Dir(c', t).id == Printed(c.last + 1) && Dir(c', t).status == Loading && Dir(c', t).started == now && Dir(c', t).targetOffset == offset
  }

  lemma RequestAsks(c: Controller, t: ActionType, offset: u64, selectLast: bool, now: u32, accepted: bool)
    requires MayRequest(c, t)
    ensures var c' := PageRequested(c, t, offset, selectLast, now, accepted);
            && Counts(c, c', true) && c'.execution == c.execution
            && if c.last < MAX_ID && accepted then Asks(c, c', t, offset, now) else SendsNothing(c, c') && Dir(c', t).status == LoadFailed
  {}

  /** The page that holds this position of the list. */
  function PageOf(at: nat): nat { at - at % PAGE_SIZE }

  lemma TargetHoldsCursor(d: Directory, cat: seq<Entry>)
    requires DirInv(d, cat)
    ensures d.status == Ready ==> d.offset == PageOf(Cursor(d, cat))
    ensures d.status != Ready ==> d.targetOffset == PageOf(Cursor(d, cat))
  {}

  // ---------------------------------------------------------------- Enter, in every run

  /**
   In every run with honest pages, Enter on a displayed page runs exactly the entry the accepted keys lead to, under its identity
   and type, if anything can be run; on a page that failed to load it runs nothing, and asks again for the page of the cursor.
   */
  lemma ConfirmRunsSelected(last: u64, inputs: seq<Input>, t: ActionType, now: u32, accepted: bool, cats: Catalogs)
    requires HonestSince(Start(last), inputs, cats)
    ensures var c, cat := Run(Start(last), inputs), Catalog(cats, t);
            ConfirmLaw(c, Step(c, Confirm(t, now, accepted)), t, now, accepted, cat, Walk(Keys(Start(last), inputs, t), |cat|))
  {
    CursorFollowsKeys(last, inputs, t, cats);
    ConfirmSends(Run(Start(last), inputs), t, now, accepted, Catalog(cats, t), Walk(Keys(Start(last), inputs, t), |Catalog(cats, t)|));
  }

  ghost predicate ConfirmLaw(c: Controller, c': Controller, t: ActionType, now: u32, accepted: bool, cat: seq<Entry>, at: nat) {
    match Dir(c, t).status
    case Ready =>
      if at >= |cat| then c' == c
      else
        && SubmissionLaw(c, c', c.session.execute, accepted, Sent(NextId(c), ExecuteTarget(cat[at].actionId)), Execute, cat[at].actionId, now)
        && c'.execution.kind == if Vacant(c.execution, now) && CanSend(c, c.session.execute, accepted) then t else c.execution.kind
    case LoadFailed =>
      c'.execution == c.execution && Counts(c, c', true)
      && if c.last < MAX_ID && accepted then Asks(c, c', t, PageOf(at), now) else SendsNothing(c, c')
    case _ => c' == c
  }

  lemma ConfirmSends(c: Controller, t: ActionType, now: u32, accepted: bool, cat: seq<Entry>, at: nat)
    requires DirOk(c, t, cat) && At(c, t, cat) == at
    ensures ConfirmLaw(c, Confirmed(c, t, now, accepted).0, t, now, accepted, cat, at)
  {
    var d := Dir(c, t);
    TargetHoldsCursor(d, cat);
    if d.status == LoadFailed {
      RequestAsks(c, t, d.targetOffset, d.selectLast, now, accepted);
    } else if d.status == Ready && d.entries != [] {
      ReadyShows(d, cat);
      ByIdSends(c, t, d.entries[d.selected].actionId, now, accepted);
    }
  }

  // ---------------------------------------------------------------- the cursor keys, in every run

  /**
   In every run with honest pages, a cursor key on a displayed page asks for another page exactly when it takes the cursor off
   that page, and then for the page the cursor goes to.
   */
  lemma MoveAsks(last: u64, inputs: seq<Input>, t: ActionType, direction: Direction, now: u32, accepted: bool, cats: Catalogs)
    requires HonestSince(Start(last), inputs, cats) && Dir(Run(Start(last), inputs), t).status == Ready
    ensures var c, cat := Run(Start(last), inputs), Catalog(cats, t);
            var at := Walk(Keys(Start(last), inputs, t), |cat|);
            MoveLaw(c, Step(c, Move(t, direction, now, accepted)), t, now, accepted, at, Shifted(at, direction, |cat|))
  {
    CursorFollowsKeys(last, inputs, t, cats);
    var cat := Catalog(cats, t);
    MoveSends(Run(Start(last), inputs), t, direction, now, accepted, cat, Walk(Keys(Start(last), inputs, t), |cat|));
  }

  ghost predicate MoveLaw(c: Controller, c': Controller, t: ActionType, now: u32, accepted: bool, at: nat, to: nat) {
    if PageOf(to) != PageOf(at) && c.last < MAX_ID && accepted then Asks(c, c', t, PageOf(to), now)
    else SendsNothing(c, c') && Dir(c', t).status == if PageOf(to) == PageOf(at) then Ready else LoadFailed
  }

  lemma MoveSends(c: Controller, t: ActionType, direction: Direction, now: u32, accepted: bool, cat: seq<Entry>, at: nat)
    requires DirOk(c, t, cat) && Dir(c, t).status == Ready && At(c, t, cat) == at
    ensures MoveLaw(c, Moved(c, t, direction, now, accepted), t, now, accepted, at, Shifted(at, direction, |cat|))
  {
    match direction
    case Up => UpSends(c, t, now, accepted, cat, at);
    case Stay =>
    case Down => DownSends(c, t, now, accepted, cat, at);
  }

  lemma OnPage(offset: nat, selected: nat)
    requires offset % PAGE_SIZE == 0 && selected < PAGE_SIZE
    ensures PageOf(offset + selected) == offset
  {}

  lemma UpSends(c: Controller, t: ActionType, now: u32, accepted: bool, cat: seq<Entry>, at: nat)
    requires DirOk(c, t, cat) && Dir(c, t).status == Ready && At(c, t, cat) == at
    ensures MoveLaw(c, Moved(c, t, Up, now, accepted), t, now, accepted, at, Shifted(at, Up, |cat|))
  {
    var d := Dir(c, t);
    OnPage(d.offset, d.selected);
    if d.selected > 0 {
      OnPage(d.offset, d.selected - 1);
    } else if d.offset > 0 {
      OnPage(d.offset - PAGE_SIZE, PAGE_SIZE - 1);
      RequestAsks(c, t, d.offset - PAGE_SIZE, true, now, accepted);
    }
  }

  lemma DownSends(c: Controller, t: ActionType, now: u32, accepted: bool, cat: seq<Entry>, at: nat)
    requires DirOk(c, t, cat) && Dir(c, t).status == Ready && At(c, t, cat) == at
    ensures MoveLaw(c, Moved(c, t, Down, now, accepted), t, now, accepted, at, Shifted(at, Down, |cat|))
  {
    var d := Dir(c, t);
    OnPage(d.offset, d.selected);
    if d.selected + 1 < |d.entries| {
      OnPage(d.offset, d.selected + 1);
    } else if d.hasNextOffset {
      NextPage(d, cat);
      OnPage(d.nextOffset, 0);
      RequestAsks(c, t, d.nextOffset, false, now, accepted);
    }
  }

  lemma NextPage(d: Directory, cat: seq<Entry>)
    requires Window(d, cat) && d.selected + 1 >= |d.entries| && d.hasNextOffset
    ensures d.nextOffset == d.offset + d.selected + 1 < |cat| && d.nextOffset % PAGE_SIZE == 0
  {}

  /** In every run with honest pages, entering a directory not loaded yet asks for its first page; any other is entered as it is. */
  lemma EnterAsks(last: u64, inputs: seq<Input>, t: ActionType, now: u32, accepted: bool, cats: Catalogs)
    requires HonestSince(Start(last), inputs, cats)
    ensures var c, c' := Run(Start(last), inputs), Step(Run(Start(last), inputs), Enter(t, now, accepted));
            if Dir(c, t).status == NotLoaded && c.last < MAX_ID && accepted then Asks(c, c', t, 0, now) else SendsNothing(c, c')
  {
    CursorFollowsKeys(last, inputs, t, cats);
    EnterSends(Run(Start(last), inputs), t, now, accepted);
  }

  lemma EnterSends(c: Controller, t: ActionType, now: u32, accepted: bool)
    requires Dir(c, t).status == NotLoaded ==> MayRequest(c, t)
    ensures var c' := Step(c, Enter(t, now, accepted));
            if Dir(c, t).status == NotLoaded && c.last < MAX_ID && accepted then Asks(c, c', t, 0, now) else SendsNothing(c, c')
  {
    TickSends(c, now);
    var c1 := Ticked(c, now);
    TickKeepsUnasked(c, now, t);
    if Dir(c, t).status == NotLoaded {
      RequestAsks(c1, t, 0, false, now, accepted);
      var c' := PageRequested(c1, t, 0, false, now, accepted);
      if c.last < MAX_ID && accepted { NothingThenOnly(c, c1, c', Sent(Printed(c.last + 1), ListPage(t, 0))); } else { NothingTwice(c, c1, c'); }
    }
  }

  lemma TickKeepsUnasked(c: Controller, now: u32, t: ActionType)
    ensures Dir(c, t).id == "" ==> Dir(Ticked(c, now), t) == Dir(c, t)
    ensures Dir(Ticked(c, now), t).status == NotLoaded ==> Dir(c, t).status == NotLoaded
    ensures Ticked(c, now).session == c.session && Ticked(c, now).last == c.last
  {
    TickIds(c, now);
  }
}
