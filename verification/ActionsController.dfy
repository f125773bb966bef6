/** The firmware's action pages and its single execution slot. Message texts and display strings are left out. */
module ActionsController {
  import opened Common
  import opened ActionRecords
  import opened MessageCodec
  import opened ExecId

  const DIRECTORY_TIMEOUT_MS: u32 := 15000
  const EXECUTION_TIMEOUT_MS: u32 := 45000
  const FEEDBACK_MS: u32 := 3000

  datatype DirectoryStatus = Unsupported | NotLoaded | Loading | Ready | LoadFailed

  /** `id` is empty unless a request is out; then it is that request's identity. */
  datatype Directory = Directory(
    status: DirectoryStatus, entries: seq<Entry>, offset: u64, total: u64, hasNextOffset: bool, nextOffset: u64,
    selected: nat, hasTotal: bool, selectLast: bool, id: string, targetOffset: u64, started: u32)

  datatype ExecutionStatus = Idle | Running | Succeeded | Failed | Unconfirmed

  /** `id` is empty while the slot is free; `target` is empty for a shortcut. `shown` says that feedback is on display. */
  datatype Execution = Execution(
    status: ExecutionStatus, id: string, request: Request, target: seq<byte>, kind: ActionType, started: u32,
    shown: bool, feedbackAt: u32)

  datatype Session = Session(ready: bool, computer: string, list: bool, execute: bool, shortcut: bool, types: seq<ActionType>)

  datatype Command = ListPage(kind: ActionType, offset: u64) | ExecuteTarget(target: seq<byte>) | ExecuteKey(key: byte)

  datatype Cause = Answer(m: Message, waited: u32) | Expiry(waited: u32) | Disconnect

  /** What the controller asked of the transport, and how each execution ended. */
  datatype Event = Sent(id: string, command: Command) | Cancelled(id: string)
    | Ended(id: string, request: Request, outcome: ExecutionStatus, cause: Cause, types: seq<ActionType>)

  /** The controller, the last identity handed out and the history so far. */
  datatype Controller = Controller(
    session: Session, script: Directory, clipboard: Directory, execution: Execution, last: u64, log: seq<Event>)

  const NO_DIRECTORY := Directory.Directory(Unsupported, [], 0, 0, false, 0, 0, false, false, "", 0, 0)
  const NO_EXECUTION := Execution.Execution(Idle, "", Execute, [], Script, 0, false, 0)
  const NO_SESSION := Session(false, "", false, false, false, [])

  function Dir(c: Controller, t: ActionType): Directory {
    if t == Script then c.script else c.clipboard
  }

  function WithDir(c: Controller, t: ActionType, d: Directory): Controller {
    if t == Script then c.(script := d) else c.(clipboard := d)
  }

  function Cancels(id: string): seq<Event> {
    if id == "" then [] else [Cancelled(id)]
  }

  // ---------------------------------------------------------------- time

  function FailedDirectory(c: Controller, t: ActionType): Controller {
    var d := Dir(c, t);
    WithDir(c, t, d.(id := "", status := LoadFailed)).(log := c.log + Cancels(d.id))
  }

  function DirectoryTicked(c: Controller, t: ActionType, now: u32): Controller {
    var d := Dir(c, t);
    if d.id != "" && Elapsed(now, d.started) >= DIRECTORY_TIMEOUT_MS then FailedDirectory(c, t) else c
  }

  function WithFeedback(e: Execution, now: u32): Execution { e.(shown := true, feedbackAt := now) }

  function Freed(e: Execution, outcome: ExecutionStatus, now: u32): Execution {
    WithFeedback(e.(id := "", target := [], status := outcome), now)
  }

  function FeedbackTicked(c: Controller, now: u32): Controller {
    if c.execution.id == "" && c.execution.shown && Elapsed(now, c.execution.feedbackAt) >= FEEDBACK_MS
    then c.(execution := c.execution.(shown := false)) else c
  }

  function ExecutionTicked(c: Controller, now: u32): Controller {
    var e := c.execution;
    var waited := Elapsed(now, e.started);
    if e.id != "" && waited >= EXECUTION_TIMEOUT_MS then
      c.(execution := Freed(e, Unconfirmed, now),
         log := c.log + [Cancelled(e.id), Ended(e.id, e.request, Unconfirmed, Expiry(waited), c.session.types)])
    else c
  }

  function Ticked(c: Controller, now: u32): Controller {
    ExecutionTicked(DirectoryTicked(DirectoryTicked(FeedbackTicked(c, now), Script, now), Clipboard, now), now)
  }

  // ---------------------------------------------------------------- session

  function Disconnected(c: Controller): Controller {
    var e := c.execution;
    Controller(NO_SESSION, NO_DIRECTORY, NO_DIRECTORY, NO_EXECUTION.(kind := e.kind, started := e.started), c.last,
               c.log + Cancels(c.script.id) + Cancels(c.clipboard.id) + Cancels(e.id)
               + if e.id == "" then [] else [Ended(e.id, e.request, Idle, Disconnect, c.session.types)])
  }

  function SessionReady(c: Controller, s: Session): Controller
    requires s.ready
  {
    if c.session == s then c
    else
      var d := Disconnected(c);
      d.(session := s,
         script := NO_DIRECTORY.(status := if s.list && Script in s.types then NotLoaded else Unsupported),
         clipboard := NO_DIRECTORY.(status := if s.list && Clipboard in s.types then NotLoaded else Unsupported))
  }

  // ---------------------------------------------------------------- pages

  predicate MayRequest(c: Controller, t: ActionType) {
    c.session.ready && c.session.list && t in c.session.types && Dir(c, t).id == ""
  }

  function PageRequested(c: Controller, t: ActionType, offset: u64, selectLast: bool, now: u32, accepted: bool): Controller {
    if !MayRequest(c, t) then c
    else
      var d := Dir(c, t).(targetOffset := offset, selectLast := selectLast);
      if c.last == MAX_ID then FailedDirectory(WithDir(c, t, d), t)
      else
        var id := Printed(c.last + 1);
        var c1 := WithDir(c, t, d).(last := c.last + 1);
        if !accepted then FailedDirectory(c1, t)
        else
          WithDir(c1, t, d.(id := id, started := now, status := Loading))
          .(log := c.log + [Sent(id, ListPage(t, offset))])
  }

  function Entered(c: Controller, t: ActionType, now: u32, accepted: bool): Controller {
    var c1 := Ticked(c, now);
    if Dir(c1, t).status == NotLoaded then PageRequested(c1, t, 0, false, now, accepted) else c1
  }

  datatype Direction = Up | Stay | Down

  /** `offset - PAGE_SIZE` wraps in the firmware; every reachable page's offset is a multiple of the page size. */
  function PreviousOffset(d: Directory): u64 {
    if d.offset >= PAGE_SIZE then d.offset - PAGE_SIZE else d.offset - PAGE_SIZE + TWO_TO_THE_64
  }

  function Moved(c: Controller, t: ActionType, direction: Direction, now: u32, accepted: bool): Controller {
    var d := Dir(c, t);
    if d.status != Ready || d.entries == [] then c
    else match direction
      case Up =>
        if d.selected > 0 then WithDir(c, t, d.(selected := d.selected - 1))
        else if d.offset > 0 then PageRequested(c, t, PreviousOffset(d), true, now, accepted)
        else c
      case Down =>
        if d.selected + 1 < |d.entries| then WithDir(c, t, d.(selected := d.selected + 1))
        else if d.hasNextOffset then PageRequested(c, t, d.nextOffset, false, now, accepted)
        else c
      case Stay => c
  }

  predicate ValidPage(d: Directory, t: ActionType, m: Message) {
    && m.hasActionType && m.actionType == t && m.offset == d.targetOffset && m.offset % PAGE_SIZE == 0
    && (d.hasTotal ==> m.total == d.total)
    && InRange(m.offset, m.total)
    && var count := Held(m.offset, m.total);
       && |m.actions| == count && (m.hasNextOffset <==> m.total - m.offset > count)
       && (m.hasNextOffset ==> m.nextOffset == m.offset + count)
  }

  function Loaded(d: Directory, m: Message): Directory {
    d.(entries := m.actions, offset := m.offset, total := m.total, hasNextOffset := m.hasNextOffset, nextOffset := m.nextOffset,
       selected := if d.selectLast && m.actions != [] then |m.actions| - 1 else 0,
       hasTotal := true, id := "", status := Ready)
  }

  predicate Awaited(c: Controller, t: ActionType, m: Message) {
    Dir(c, t).id != "" && m.request == Some(ListActions) && m.execId == Dir(c, t).id
  }

  function PageReceived(c: Controller, t: ActionType, m: Message): Controller {
    if m.code != OK || !ValidPage(Dir(c, t), t, m) then FailedDirectory(c, t) else WithDir(c, t, Loaded(Dir(c, t), m))
  }

  // ---------------------------------------------------------------- execution

  /** The submission proper, after the clock has been looked at. */
  function SubmittedNow(c: Controller, request: Request, target: seq<byte>, key: Option<byte>, now: u32, accepted: bool): (Controller, bool) {
    var e := c.execution;
    if e.id != "" || !c.session.ready || !(if key.Some? then c.session.shortcut else c.session.execute) then
      (c.(execution := WithFeedback(e, now)), false)
    else if c.last == MAX_ID then (c.(execution := WithFeedback(e.(status := Failed), now)), false)
    else
      var id := Printed(c.last + 1);
      if !accepted then (c.(last := c.last + 1, execution := WithFeedback(e.(status := Failed), now)), false)
      else
        (c.(last := c.last + 1,
            execution := WithFeedback(e.(id := id, request := request, target := target, started := now, status := Running), now),
            log := c.log + [Sent(id, if key.Some? then ExecuteKey(key.value) else ExecuteTarget(target))]), true)
  }

  function Submitted(c: Controller, request: Request, target: seq<byte>, key: Option<byte>, now: u32, accepted: bool): (Controller, bool) {
    SubmittedNow(Ticked(c, now), request, target, key, now, accepted)
  }

  predicate Listed(d: Directory, id: seq<byte>) {
    d.status == Ready && exists i :: 0 <= i < |d.entries| && d.entries[i].actionId == id
  }

  function ExecutedById(c: Controller, t: ActionType, id: seq<byte>, now: u32, accepted: bool): (Controller, bool) {
    if !Listed(Dir(c, t), id) then (c, false)
    else
      var (c1, sent) := Submitted(c, Execute, id, None, now, accepted);
      (if sent then c1.(execution := c1.execution.(kind := t)) else c1, sent)
  }

  function LowerCase(key: byte): byte {
    if 'A' as int <= key <= 'Z' as int then key + ('a' as int - 'A' as int) else key
  }

  function ExecutedByKey(c: Controller, key: byte, now: u32, accepted: bool): (Controller, bool) {
    if !Letter(LowerCase(key)) then (c, false) else Submitted(c, Shortcut, [], Some(LowerCase(key)), now, accepted)
  }

  function Confirmed(c: Controller, t: ActionType, now: u32, accepted: bool): (Controller, bool) {
    var d := Dir(c, t);
    if d.status == LoadFailed then
      (PageRequested(c, t, d.targetOffset, d.selectLast, now, accepted), MayRequest(c, t) && c.last != MAX_ID && accepted)
    else if d.status != Ready || d.entries == [] || d.selected >= |d.entries| then (c, false)
    else ExecutedById(c, t, d.entries[d.selected].actionId, now, accepted)
  }

  /** The fields that prove a success: the exit status of a script, both steps of a paste. */
  predicate Proves(m: Message, types: seq<ActionType>) {
    && m.hasActionType && m.actionType in types && m.executedActionId != [] && m.executedName != []
    && if m.actionType == Script then m.hasExitCode && m.exitCode == 0
       else !m.hasExitCode && m.written == Some(true) && m.sent == Some(true)
  }

  function OutcomeOf(m: Message): ExecutionStatus {
    if m.code == OK then Succeeded
    else if m.code == TIMEOUT || m.reason == Ascii("UNCONFIRMED") then Unconfirmed
    else Failed
  }

  /** The response ends the execution in the slot. */
  predicate Settles(c: Controller, m: Message) {
    var e := c.execution;
    && e.id != "" && m.request == Some(e.request) && m.execId == e.id
    && (e.target == [] || m.executedActionId == [] || m.executedActionId == e.target)
    && (m.hasActionType && e.target != [] ==> m.actionType == e.kind)
    && (m.code == OK ==> Proves(m, c.session.types))
  }

  function Settled(c: Controller, m: Message, now: u32): Controller {
    c.(execution := Freed(c.execution, OutcomeOf(m), now),
       log := c.log + [Ended(c.execution.id, c.execution.request, OutcomeOf(m), Answer(m, Elapsed(now, c.execution.started)), c.session.types)])
  }

  /** The response proper, after the clock has been looked at. */
  function ReceivedNow(c: Controller, m: Message, now: u32): (Controller, bool) {
    if Awaited(c, Script, m) then (PageReceived(c, Script, m), true)
    else if Awaited(c, Clipboard, m) then (PageReceived(c, Clipboard, m), true)
    else if Settles(c, m) then (Settled(c, m, now), true)
    else (c, false)
  }

  function Received(c: Controller, isResponse: bool, m: Message, now: u32): (Controller, bool) {
    if !c.session.ready || !isResponse then (c, false) else ReceivedNow(Ticked(c, now), m, now)
  }

  predicate Selectable(d: Directory) { d.entries == [] || d.selected < |d.entries| }

  class ActionsController {
    const ids: ExecIdGenerator
    var session: Session
    var script: Directory
    var clipboard: Directory
    var execution: Execution
    ghost var log: seq<Event>

    ghost function State(): Controller
      reads this, ids
    {
      Controller(session, script, clipboard, execution, ids.last, log)
    }

    /** The selection lies on the page. */
    predicate Valid()
      reads this
    {
      Selectable(script) && Selectable(clipboard)
    }

    constructor (ids: ExecIdGenerator)
      ensures Valid()
      ensures this.ids == ids && State() == Controller(NO_SESSION, NO_DIRECTORY, NO_DIRECTORY, NO_EXECUTION, ids.last, [])
    {
      this.ids := ids;
      session, script, clipboard, execution, log := NO_SESSION, NO_DIRECTORY, NO_DIRECTORY, NO_EXECUTION, [];
    }

    function DirectoryOf(t: ActionType): Directory
      reads this
    {
      if t == Script then script else clipboard
    }

    method Store(t: ActionType, d: Directory)
      requires Valid() && Selectable(d)
      modifies this
      ensures Valid()
      ensures State() == WithDir(old(State()), t, d)
    {
      if t == Script {
        script := d;
      } else {
        clipboard := d;
      }
    }

    method CancelRequest(id: string)
      modifies this`log
      ensures log == old(log) + Cancels(id)
    {
      log := log + Cancels(id);
    }

    method FailDirectory(t: ActionType)
      requires Valid()
      modifies this
      ensures Valid()
      ensures State() == FailedDirectory(old(State()), t)
    {
      var d := DirectoryOf(t);
      if d.id != "" {
        CancelRequest(d.id);
      }
      Store(t, d.(id := "", status := LoadFailed));
    }

    method Tick(now: u32)
      requires Valid()
      modifies this
      ensures Valid()
      ensures State() == Ticked(old(State()), now)
    {
      if execution.id == "" && execution.shown && Elapsed(now, execution.feedbackAt) >= FEEDBACK_MS {
        execution := execution.(shown := false);
      }
      if script.id != "" && Elapsed(now, script.started) >= DIRECTORY_TIMEOUT_MS {
        FailDirectory(Script);
      }
      if clipboard.id != "" && Elapsed(now, clipboard.started) >= DIRECTORY_TIMEOUT_MS {
        FailDirectory(Clipboard);
      }
      if execution.id != "" && Elapsed(now, execution.started) >= EXECUTION_TIMEOUT_MS {
        log := log + [Cancelled(execution.id), Ended(execution.id, execution.request, Unconfirmed, Expiry(Elapsed(now, execution.started)), session.types)];
        execution := Freed(execution, Unconfirmed, now);
      }
    }

    method OnDisconnect()
      requires Valid()
      modifies this
      ensures Valid()
      ensures State() == Disconnected(old(State()))
    {
      CancelRequest(script.id);
      CancelRequest(clipboard.id);
      CancelRequest(execution.id);
      if execution.id != "" {
        log := log + [Ended(execution.id, execution.request, Idle, Disconnect, session.types)];
      }
      script, clipboard := NO_DIRECTORY, NO_DIRECTORY;
      execution := NO_EXECUTION.(kind := execution.kind, started := execution.started);
      session := NO_SESSION;
    }

    method OnSessionReady(s: Session)
      requires Valid()
      requires s.ready
      modifies this
      ensures Valid()
      ensures State() == SessionReady(old(State()), s)
    {
      if session == s {
        return;
      }
      OnDisconnect();
      session := s;
      script := script.(status := if s.list && Script in s.types then NotLoaded else Unsupported);
      clipboard := clipboard.(status := if s.list && Clipboard in s.types then NotLoaded else Unsupported);
    }

    method RequestPage(t: ActionType, offset: u64, selectLast: bool, now: u32, accepted: bool) returns (ok: bool)
      requires Valid()
      modifies this, ids
      ensures Valid()
      ensures State() == PageRequested(old(State()), t, offset, selectLast, now, accepted)
      ensures ok <==> old(MayRequest(State(), t) && ids.last != MAX_ID) && accepted
    {
      if !session.ready || !session.list || t !in session.types || DirectoryOf(t).id != "" {
        return false;
      }
      Store(t, DirectoryOf(t).(targetOffset := offset, selectLast := selectLast));
      var id := ids.Next();
      if id.None? || !accepted {
        FailDirectory(t);
        return false;
      }
      log := log + [Sent(id.value, ListPage(t, offset))];
      Store(t, DirectoryOf(t).(id := id.value, started := now, status := Loading));
      return true;
    }

    method Enter(t: ActionType, now: u32, accepted: bool)
      requires Valid()
      modifies this, ids
      ensures Valid()
      ensures State() == Entered(old(State()), t, now, accepted)
    {
      Tick(now);
      if DirectoryOf(t).status == NotLoaded {
        var _ := RequestPage(t, 0, false, now, accepted);
      }
    }

    method MoveSelection(t: ActionType, direction: Direction, now: u32, accepted: bool)
      requires Valid()
      modifies this, ids
      ensures Valid()
      ensures State() == Moved(old(State()), t, direction, now, accepted)
    {
      var d := DirectoryOf(t);
      if d.status != Ready || d.entries == [] {
        return;
      }
      match direction
      case Up =>
        if d.selected > 0 {
          Store(t, d.(selected := d.selected - 1));
        } else if d.offset > 0 {
          var _ := RequestPage(t, PreviousOffset(d), true, now, accepted);
        }
      case Down =>
        if d.selected + 1 < |d.entries| {
          Store(t, d.(selected := d.selected + 1));
        } else if d.hasNextOffset {
          var _ := RequestPage(t, d.nextOffset, false, now, accepted);
        }
      case Stay =>
    }

    method SubmitExecution(request: Request, target: seq<byte>, key: Option<byte>, now: u32, accepted: bool) returns (sent: bool)
      requires Valid()
      modifies this, ids
      ensures Valid()
      ensures (State(), sent) == Submitted(old(State()), request, target, key, now, accepted)
    {
      Tick(now);
      if execution.id != "" {
        execution := WithFeedback(execution, now);
        return false;
      }
      if !session.ready || (if key.Some? then !session.shortcut else !session.execute) {
        execution := WithFeedback(execution, now);
        return false;
      }
      var id := ids.Next();
      if id.None? || !accepted {
        execution := WithFeedback(execution.(status := Failed), now);
        return false;
      }
      log := log + [Sent(id.value, if key.Some? then ExecuteKey(key.value) else ExecuteTarget(target))];
      execution := WithFeedback(execution.(id := id.value, request := request, target := target, started := now, status := Running), now);
      return true;
    }

    method ExecuteById(t: ActionType, actionId: seq<byte>, now: u32, accepted: bool) returns (sent: bool)
      requires Valid()
      modifies this, ids
      ensures Valid()
      ensures (State(), sent) == ExecutedById(old(State()), t, actionId, now, accepted)
    {
      if !Listed(DirectoryOf(t), actionId) {
        return false;
      }
      sent := SubmitExecution(Execute, actionId, None, now, accepted);
      if sent {
        execution := execution.(kind := t);
      }
    }

    method ExecuteByKey(key: byte, now: u32, accepted: bool) returns (sent: bool)
      requires Valid()
      modifies this, ids
      ensures Valid()
      ensures (State(), sent) == ExecutedByKey(old(State()), key, now, accepted)
    {
      var lower := LowerCase(key);
      if !Letter(lower) {
        return false;
      }
      sent := SubmitExecution(Shortcut, [], Some(lower), now, accepted);
    }

    method Confirm(t: ActionType, now: u32, accepted: bool) returns (done: bool)
      requires Valid()
      modifies this, ids
      ensures Valid()
      ensures (State(), done) == Confirmed(old(State()), t, now, accepted)
    {
      var d := DirectoryOf(t);
      if d.status == LoadFailed {
        done := RequestPage(t, d.targetOffset, d.selectLast, now, accepted);
        return;
      }
      if d.status != Ready || d.entries == [] {
        return false;
      }
      done := ExecuteById(t, d.entries[d.selected].actionId, now, accepted);
    }

    method ReceivePage(t: ActionType, m: Message)
      requires Valid()
      modifies this
      ensures Valid()
      ensures State() == PageReceived(old(State()), t, m)
    {
      var d := DirectoryOf(t);
      if m.code != OK || !ValidPage(d, t, m) {
        FailDirectory(t);
        return;
      }
      Store(t, Loaded(d, m));
    }

    method OnMessage(isResponse: bool, m: Message, now: u32) returns (handled: bool)
      requires Valid()
      modifies this
      ensures Valid()
      ensures (State(), handled) == Received(old(State()), isResponse, m, now)
    {
      if !session.ready || !isResponse {
        return false;
      }
      Tick(now);
      if script.id != "" && m.request == Some(ListActions) && m.execId == script.id {
        ReceivePage(Script, m);
        return true;
      }
      if clipboard.id != "" && m.request == Some(ListActions) && m.execId == clipboard.id {
        ReceivePage(Clipboard, m);
        return true;
      }
      if execution.id == "" || m.request != Some(execution.request) || m.execId != execution.id {
        return false;
      }
      if execution.target != [] && m.executedActionId != [] && m.executedActionId != execution.target {
        return false;
      }
      if m.hasActionType && execution.target != [] && m.actionType != execution.kind {
        return false;
      }
      if m.code == OK && !Proves(m, session.types) {
        return false;
      }
      log := log + [Ended(execution.id, execution.request, OutcomeOf(m), Answer(m, Elapsed(now, execution.started)), session.types)];
      execution := Freed(execution, OutcomeOf(m), now);
      return true;
    }
  }
}
