/**
 The desktop's requests as tasks on one event loop: each step is what runs between two awaits. Requests of one connection
 share the set of pending identities, the runner's busy flag and the send lock.
 */
module DesktopSession {
  import opened Common
  import opened ResponseLine
  import opened HandlerReplies
  import Desktop = ActionsModule
  import Records = ActionRecords
  import Utf8

  // ---------------------------------------------------------------- pending identities

  datatype Session = Session(connected: bool, pending: set<Text>)

  function Begun(s: Session, id: Text): (Session, bool) {
    if !s.connected || id in s.pending then (s, false) else (s.(pending := s.pending + {id}), true)
  }

  function Completed(s: Session, id: Text): (Session, bool) {
    if id !in s.pending then (s, false) else (s.(pending := s.pending - {id}), true)
  }

  class ConnectionSession {
    var connected: bool
    var pendingExecIds: set<Text>

    ghost function State(): Session
      reads this
    {
      Session(connected, pendingExecIds)
    }

    constructor ()
      ensures State() == Session(false, {})
    {
      connected, pendingExecIds := false, {};
    }

    method Disconnect()
      modifies this
      ensures State() == Session(false, {})
    {
      connected := false;
      pendingExecIds := {};
    }

    method Connect()
      modifies this
      ensures State() == Session(true, {})
    {
      Disconnect();
      connected := true;
    }

    method BeginRequest(execId: Text) returns (owned: bool)
      modifies this
      ensures (State(), owned) == Begun(old(State()), execId)
    {
      if !connected || execId in pendingExecIds {
        return false;
      }
      pendingExecIds := pendingExecIds + {execId};
      return true;
    }

    method CompleteRequest(execId: Text) returns (removed: bool)
      modifies this
      ensures (State(), removed) == Completed(old(State()), execId)
    {
      if execId !in pendingExecIds {
        return false;
      }
      pendingExecIds := pendingExecIds - {execId};
      return true;
    }
  }

  // ---------------------------------------------------------------- routing

  datatype Handled = Replied(r: Response) | Raised | NoHandler

  /** The router hands on only a response that names its own request; everything else becomes an error naming it. */
  function Routed(request: Request, handled: Handled): (r: Response)
    ensures r.actionId == request.actionId && r.execId == request.execId
  {
    match handled
    case Replied(r) => if r.actionId == request.actionId && r.execId == request.execId then r else Refused(request, Mismatched)
    case Raised => Refused(request, HandlerFailed)
    case NoHandler => Refused(request, UnknownAction)
  }

  // ---------------------------------------------------------------- tasks

  /** `Cleanup`: cancelled, but the adapter is still ending what it started. */
  datatype Phase = Created | Handling(runner: bool) | Cleanup(runner: bool) | Waiting | Sending(count: nat) | Done(delivered: bool)

  /** `line`: the encoded response, from the moment it is encoded. */
  datatype Task = Task(request: Request, owns: bool, reply: Response, line: seq<byte>, phase: Phase)

  /** Byte `index` of the response line of a task. */
  datatype Piece = Piece(task: nat, index: nat)

  /** `spoiled`: tasks cancelled, or whose send the transport failed. `entered`: tasks in the order their handlers were entered. */
  datatype World = World(session: Session, busy: bool, locked: bool, tasks: seq<Task>, wire: seq<Piece>, spoiled: set<nat>, entered: seq<nat>)

  /** How a handler starts: done at once, waiting for something else, or wanting the runner, with its answer should that be busy. */
  datatype First = AtOnce(handled: Handled) | Suspends | WantsRunner(otherwise: Handled)

  datatype Op = Connect
    | Create(request: Request)
    | Start(i: nat, first: First)
    | Resume(i: nat, handled: Handled)
    | Acquire(i: nat)
    | Write(i: nat)
    | Finish(i: nat)
    | Fail(i: nat)
    | Cancel(i: nat)
    | CleanedUp(i: nat)
    | Disconnect

  function With(w: World, i: nat, t: Task): World
    requires i < |w.tasks|
  {
    w.(tasks := w.tasks[i := t])
  }

  function NoReply(request: Request): Response { Response(request.actionId, request.execId, [], [], []) }

  function Size(t: Task): nat { |t.line| }

  /** The task is over: its identity is released if it owned it. */
  function Ended(w: World, i: nat, delivered: bool): World
    requires i < |w.tasks|
  {
    var t := w.tasks[i];
    With(w, i, t.(phase := Done(delivered))).(session := if t.owns then Completed(w.session, t.request.execId).0 else w.session)
  }

  /** Over by cancellation or by the transport's failure. */
  function Lost(w: World, i: nat): World
    requires i < |w.tasks|
  {
    Ended(w, i, false).(spoiled := w.spoiled + {i})
  }

  function Started(w: World, i: nat, first: First): World
    requires i < |w.tasks|
  {
    var t := w.tasks[i];
    var (session, owns) := Begun(w.session, t.request.execId);
    if !owns then With(w, i, t.(owns := false, reply := Refused(t.request, AlreadyActive), phase := Waiting))
    else
      var w := w.(session := session, entered := w.entered + [i]);
      match first
      case AtOnce(handled) => With(w, i, Answering(t, handled))
      case Suspends => With(w, i, t.(owns := true, phase := Handling(false)))
      case WantsRunner(otherwise) =>
        if w.busy then With(w, i, Answering(t, otherwise)) else With(w, i, t.(owns := true, phase := Handling(true))).(busy := true)
  }

  function Answering(t: Task, handled: Handled): Task {
    t.(owns := true, reply := Routed(t.request, handled), phase := Waiting)
  }

  /** With the lock in hand the response is encoded; if that raises, the task ends there and the lock is free again. */
  function Acquired(w: World, i: nat): World
    requires i < |w.tasks|
  {
    var line := Line(w.tasks[i].reply);
    if line == [] then Ended(w, i, false) else With(w, i, w.tasks[i].(line := line, phase := Sending(0))).(locked := true)
  }

  /** One more byte of the line. */
  function Wrote(w: World, i: nat): World
    requires i < |w.tasks| && w.tasks[i].phase.Sending?
  {
    var n := w.tasks[i].phase.count;
    With(w, i, w.tasks[i].(phase := Sending(n + 1))).(wire := w.wire + [Piece(i, n)])
  }

  /** Cancellation at an await: a task not yet started never starts, and a handler winds down before it ends. */
  function Cancelled(w: World, i: nat): World
    requires i < |w.tasks|
  {
    match w.tasks[i].phase
    case Created => Lost(w, i)
    case Handling(runner) => With(w, i, w.tasks[i].(phase := Cleanup(runner))).(spoiled := w.spoiled + {i})
    case Waiting => Lost(w, i)
    case Sending(_) => Lost(w, i).(locked := false)
    case Cleanup(_) => w
    case Done(_) => w
  }

  /** One step; a step that does not apply changes nothing. */
  function Step(w: World, op: Op): World {
    match op
    case Connect =>
      if !w.session.connected && AllDone(w.tasks) then w.(session := Session(true, {})) else w
    case Create(request) =>
      if w.session.connected && Acceptable(request) then w.(tasks := w.tasks + [Task(request, false, NoReply(request), [], Created)]) else w
    case Start(i, first) =>
      if i < |w.tasks| && w.tasks[i].phase.Created? then Started(w, i, first) else w
    case Resume(i, handled) =>
      if i < |w.tasks| && w.tasks[i].phase.Handling? then
        var t := w.tasks[i];
        With(w, i, t.(reply := Routed(t.request, handled), phase := Waiting)).(busy := w.busy && !t.phase.runner)
      else w
    case Acquire(i) =>
      if i < |w.tasks| && w.tasks[i].phase.Waiting? && !w.locked then Acquired(w, i) else w
    case Write(i) =>
      if i < |w.tasks| && w.tasks[i].phase.Sending? && w.tasks[i].phase.count < Size(w.tasks[i]) then Wrote(w, i) else w
    case Finish(i) =>
      if i < |w.tasks| && w.tasks[i].phase == Sending(Size(w.tasks[i])) then Ended(w, i, true).(locked := false) else w
    case Fail(i) =>
      if i < |w.tasks| && w.tasks[i].phase.Sending? then Lost(w, i).(locked := false) else w
    case Cancel(i) =>
      if i >= |w.tasks| then w else Cancelled(w, i)
    case CleanedUp(i) =>
      if i < |w.tasks| && w.tasks[i].phase.Cleanup? then Ended(w, i, false).(busy := w.busy && !w.tasks[i].phase.runner) else w
    case Disconnect =>
      if AllDone(w.tasks) then w.(session := Session(false, {})) else w
  }

  predicate AllDone(tasks: seq<Task>) { forall i :: 0 <= i < |tasks| ==> tasks[i].phase.Done? }

  const START := World(Session(false, {}), false, false, [], [], {}, [])

  function Run(ops: seq<Op>): World {
    if ops == [] then START else Step(Run(ops[..|ops| - 1]), ops[|ops| - 1])
  }

  // ---------------------------------------------------------------- invariants

  /** The task owns its identity and is not over. */
  predicate Active(t: Task) { t.owns && !t.phase.Done? }

  predicate HasRunner(t: Task) { (t.phase.Handling? || t.phase.Cleanup?) && t.phase.runner }

  /** The pending identities are those of the active tasks, no two of which share one. */
  ghost predicate PendingInv(tasks: seq<Task>, pending: set<Text>) {
    && (forall i :: 0 <= i < |tasks| && Active(tasks[i]) ==> tasks[i].request.execId in pending)
    && (forall id :: id in pending ==> exists i :: 0 <= i < |tasks| && Active(tasks[i]) && tasks[i].request.execId == id)
    && (forall i, j :: 0 <= i < j < |tasks| && Active(tasks[i]) && Active(tasks[j]) ==> tasks[i].request.execId != tasks[j].request.execId)
  }

  ghost predicate RunnerInv(tasks: seq<Task>, busy: bool) {
    && (busy <==> exists i :: 0 <= i < |tasks| && HasRunner(tasks[i]))
    && (forall i, j :: 0 <= i < j < |tasks| ==> !(HasRunner(tasks[i]) && HasRunner(tasks[j])))
  }

  ghost predicate LockInv(tasks: seq<Task>, locked: bool) {
    && (locked <==> exists i :: 0 <= i < |tasks| && tasks[i].phase.Sending?)
    && (forall i, j :: 0 <= i < j < |tasks| ==> !(tasks[i].phase.Sending? && tasks[j].phase.Sending?))
  }

  predicate Encoded(t: Task) { t.line == Line(t.reply) != [] }

  ghost predicate TaskInv(t: Task) {
    && t.reply.actionId == t.request.actionId && t.reply.execId == t.request.execId
    && (t.phase.Created? ==> !t.owns) && (t.phase.Handling? || t.phase.Cleanup? ==> t.owns)
    && (t.phase.Sending? ==> t.phase.count <= Size(t)) && (t.phase.Sending? || t.phase == Done(true) ==> Encoded(t))
    && (BeforeSending(t) ==> t.line == [])
  }

  /** Cancelled, failed by the transport, or refused by the encoder. */
  ghost predicate Excused(t: Task, i: nat, spoiled: set<nat>) {
    (t.phase == Done(false) ==> i in spoiled || Line(t.reply) == [] == t.line) && (t.phase.Cleanup? ==> i in spoiled)
  }

  ghost predicate TasksInv(tasks: seq<Task>, spoiled: set<nat>) {
    && (forall i :: 0 <= i < |tasks| ==> TaskInv(tasks[i]))
    && (forall i :: 0 <= i < |tasks| ==> Excused(tasks[i], i, spoiled))
  }

  predicate BeforeSending(t: Task) { t.phase.Created? || t.phase.Handling? || t.phase.Cleanup? || t.phase.Waiting? }

  /** Each piece follows the one before it in its line, and no line begins twice. */
  ghost predicate PiecesInv(wire: seq<Piece>) {
    && (forall p :: 0 <= p < |wire| && wire[p].index > 0 ==> p > 0 && wire[p - 1] == Piece(wire[p].task, wire[p].index - 1))
    && (forall p, q :: 0 <= p < q < |wire| && wire[p].index == 0 && wire[q].index == 0 ==> wire[p].task != wire[q].task)
  }

  /** A byte of a task's line. */
  predicate Placed(tasks: seq<Task>, piece: Piece) { piece.task < |tasks| && piece.index < Size(tasks[piece.task]) }

  /** Only tasks that have the lock, or had it, have bytes on the wire; and none that has just taken it. */
  ghost predicate Begins(tasks: seq<Task>, wire: seq<Piece>) {
    && (forall p :: 0 <= p < |wire| ==> Placed(tasks, wire[p]) && !BeforeSending(tasks[wire[p].task]))
    && (forall i, p :: 0 <= i < |tasks| && tasks[i].phase == Sending(0) && 0 <= p < |wire| ==> wire[p].task != i)
  }

  ghost predicate Continues(tasks: seq<Task>, wire: seq<Piece>) {
    forall i :: 0 <= i < |tasks| && tasks[i].phase.Sending? && tasks[i].phase.count > 0 ==>
      wire != [] && wire[|wire| - 1] == Piece(i, tasks[i].phase.count - 1)
  }

  ghost predicate Completes(tasks: seq<Task>, wire: seq<Piece>) {
    forall i :: 0 <= i < |tasks| && tasks[i].phase == Done(true) ==> Size(tasks[i]) > 0 && Piece(i, Size(tasks[i]) - 1) in wire
  }

  ghost predicate WireInv(tasks: seq<Task>, wire: seq<Piece>) {
    PiecesInv(wire) && Begins(tasks, wire) && Continues(tasks, wire) && Completes(tasks, wire)
  }

  ghost predicate SessionInv(w: World) {
    PendingInv(w.tasks, w.session.pending) && (!w.session.connected ==> AllDone(w.tasks))
  }

  ghost predicate Inv(w: World) {
    SessionInv(w) && RunnerInv(w.tasks, w.busy) && LockInv(w.tasks, w.locked) && TasksInv(w.tasks, w.spoiled) && WireInv(w.tasks, w.wire)
  }

  // ---------------------------------------------------------------- one task changes

  lemma PendingSame(tasks: seq<Task>, i: nat, t: Task, pending: set<Text>)
    requires i < |tasks| && PendingInv(tasks, pending)
    requires t.request == tasks[i].request && (Active(t) <==> Active(tasks[i]))
    ensures PendingInv(tasks[i := t], pending)
  {
    var after := tasks[i := t];
    forall id | id in pending ensures exists k :: 0 <= k < |after| && Active(after[k]) && after[k].request.execId == id {
      var k :| 0 <= k < |tasks| && Active(tasks[k]) && tasks[k].request.execId == id;
      assert Active(after[k]) && after[k].request.execId == id;
    }
  }

  lemma PendingAdded(tasks: seq<Task>, i: nat, t: Task, pending: set<Text>)
    requires i < |tasks| && PendingInv(tasks, pending) && !Active(tasks[i])
    requires t.request == tasks[i].request && Active(t) && t.request.execId !in pending
    ensures PendingInv(tasks[i := t], pending + {t.request.execId})
  {
    var after := tasks[i := t];
    forall id | id in pending + {t.request.execId} ensures exists k :: 0 <= k < |after| && Active(after[k]) && after[k].request.execId == id {
      if id in pending {
        var k :| 0 <= k < |tasks| && Active(tasks[k]) && tasks[k].request.execId == id;
        assert Active(after[k]) && after[k].request.execId == id;
      } else {
        assert Active(after[i]);
      }
    }
  }

  lemma PendingRemoved(tasks: seq<Task>, i: nat, t: Task, pending: set<Text>)
    requires i < |tasks| && PendingInv(tasks, pending) && Active(tasks[i])
    requires t.request == tasks[i].request && !Active(t)
    ensures PendingInv(tasks[i := t], pending - {t.request.execId})
  {
    var after := tasks[i := t];
    forall id | id in pending - {t.request.execId} ensures exists k :: 0 <= k < |after| && Active(after[k]) && after[k].request.execId == id {
      var k :| 0 <= k < |tasks| && Active(tasks[k]) && tasks[k].request.execId == id;
      assert Active(after[k]) && after[k].request.execId == id;
    }
  }

  lemma RunnerUpdate(tasks: seq<Task>, i: nat, t: Task, busy: bool, busy': bool)
    requires i < |tasks| && RunnerInv(tasks, busy)
    requires HasRunner(t) == HasRunner(tasks[i]) ==> busy' == busy
    requires HasRunner(t) && !HasRunner(tasks[i]) ==> !busy && busy'
    requires !HasRunner(t) && HasRunner(tasks[i]) ==> !busy'
    ensures RunnerInv(tasks[i := t], busy')
  {
    var after := tasks[i := t];
    if HasRunner(t) {
      assert HasRunner(after[i]);
    } else if busy && !HasRunner(tasks[i]) {
      var k :| 0 <= k < |tasks| && HasRunner(tasks[k]);
      assert HasRunner(after[k]);
    }
  }

  lemma LockUpdate(tasks: seq<Task>, i: nat, t: Task, locked: bool, locked': bool)
    requires i < |tasks| && LockInv(tasks, locked)
    requires t.phase.Sending? == tasks[i].phase.Sending? ==> locked' == locked
    requires t.phase.Sending? && !tasks[i].phase.Sending? ==> !locked && locked'
    requires !t.phase.Sending? && tasks[i].phase.Sending? ==> !locked'
    ensures LockInv(tasks[i := t], locked')
  {
    var after := tasks[i := t];
    if t.phase.Sending? {
      assert after[i].phase.Sending?;
    } else if locked && !tasks[i].phase.Sending? {
      var k :| 0 <= k < |tasks| && tasks[k].phase.Sending?;
      assert after[k].phase.Sending?;
    }
  }

  lemma TasksUpdate(tasks: seq<Task>, i: nat, t: Task, spoiled: set<nat>, spoiled': set<nat>)
    requires i < |tasks| && TasksInv(tasks, spoiled) && TaskInv(t) && spoiled <= spoiled' && Excused(t, i, spoiled')
    ensures TasksInv(tasks[i := t], spoiled')
  {}

  /** A task that has put nothing on the wire, and does not now, may change at will. */
  lemma WireUnsent(tasks: seq<Task>, i: nat, t: Task, wire: seq<Piece>)
    requires i < |tasks| && WireInv(tasks, wire) && BeforeSending(tasks[i])
    requires BeforeSending(t) || t.phase == Sending(0) || t.phase == Done(false)
    ensures WireInv(tasks[i := t], wire)
  {}

  lemma WireOver(tasks: seq<Task>, i: nat, t: Task, wire: seq<Piece>, locked: bool)
    requires i < |tasks| && WireInv(tasks, wire) && tasks[i].phase.Sending? && t.line == tasks[i].line
    requires t.phase == Done(false) || (t.phase == Done(true) && tasks[i].phase.count == Size(t) > 0)
    ensures WireInv(tasks[i := t], wire)
  {
    if t.phase == Done(true) {
      assert wire[|wire| - 1] == Piece(i, Size(t) - 1);
    }
  }

  lemma PieceAppended(wire: seq<Piece>, i: nat, n: nat)
    requires PiecesInv(wire)
    requires if n == 0 then forall p :: 0 <= p < |wire| ==> wire[p].task != i else wire != [] && wire[|wire| - 1] == Piece(i, n - 1)
    ensures PiecesInv(wire + [Piece(i, n)])
  {
    var after := wire + [Piece(i, n)];
    assert forall p :: 0 <= p < |wire| ==> after[p] == wire[p];
  }

  lemma OnlySender(tasks: seq<Task>, i: nat, locked: bool)
    requires i < |tasks| && LockInv(tasks, locked) && tasks[i].phase.Sending?
    ensures forall k :: 0 <= k < |tasks| && k != i ==> !tasks[k].phase.Sending?
  {}

  lemma WireWritten(tasks: seq<Task>, i: nat, t: Task, wire: seq<Piece>, locked: bool)
    requires i < |tasks| && WireInv(tasks, wire) && LockInv(tasks, locked) && tasks[i].phase.Sending? && t.line == tasks[i].line
    requires tasks[i].phase.count < Size(t) && t.phase == Sending(tasks[i].phase.count + 1)
    ensures WireInv(tasks[i := t], wire + [Piece(i, tasks[i].phase.count)])
  {
    var n := tasks[i].phase.count;
    OnlySender(tasks, i, locked);
    PieceAppended(wire, i, n);
    BeginsWritten(tasks, i, t, wire, n);
    assert Continues(tasks[i := t], wire + [Piece(i, n)]);
    CompletesWritten(tasks, i, t, wire, n);
  }

  lemma BeginsWritten(tasks: seq<Task>, i: nat, t: Task, wire: seq<Piece>, n: nat)
    requires i < |tasks| && Begins(tasks, wire) && !BeforeSending(t) && t.phase != Sending(0) && t.line == tasks[i].line && n < Size(t)
    requires forall k :: 0 <= k < |tasks| && k != i ==> !tasks[k].phase.Sending?
    ensures Begins(tasks[i := t], wire + [Piece(i, n)])
  {
    var after := wire + [Piece(i, n)];
    forall p | 0 <= p < |after| ensures Placed(tasks[i := t], after[p]) && !BeforeSending(tasks[i := t][after[p].task]) {
      if p < |wire| { assert Placed(tasks, wire[p]); }
    }
  }

  lemma CompletesWritten(tasks: seq<Task>, i: nat, t: Task, wire: seq<Piece>, n: nat)
    requires i < |tasks| && Completes(tasks, wire) && t.phase.Sending?
    ensures Completes(tasks[i := t], wire + [Piece(i, n)])
  {
    assert forall x :: x in wire ==> x in wire + [Piece(i, n)];
  }

  // ---------------------------------------------------------------- every step keeps it

  lemma EndKeepsSession(w: World, i: nat, delivered: bool)
    requires i < |w.tasks| && SessionInv(w) && !w.tasks[i].phase.Done?
    ensures SessionInv(Ended(w, i, delivered))
  {
    var t := w.tasks[i].(phase := Done(delivered));
    if w.tasks[i].owns {
      PendingRemoved(w.tasks, i, t, w.session.pending);
    } else {
      PendingSame(w.tasks, i, t, w.session.pending);
    }
  }

  /** Cancelling or failing a task that sends, and finishing one. */
  lemma EndSendingKeeps(w: World, i: nat, delivered: bool, spoiled: set<nat>)
    requires Inv(w) && i < |w.tasks| && w.tasks[i].phase.Sending? && w.spoiled <= spoiled
    requires if delivered then w.tasks[i].phase.count == Size(w.tasks[i]) else i in spoiled
    ensures Inv(Ended(w, i, delivered).(locked := false, spoiled := spoiled))
  {
    var t := w.tasks[i].(phase := Done(delivered));
    EndKeepsSession(w, i, delivered);
    RunnerUpdate(w.tasks, i, t, w.busy, w.busy);
    LockUpdate(w.tasks, i, t, w.locked, false);
    TasksUpdate(w.tasks, i, t, w.spoiled, spoiled);
    WireOver(w.tasks, i, t, w.wire, w.locked);
  }

  lemma EndUnsentKeeps(w: World, i: nat, busy: bool, spoiled: set<nat>)
    requires Inv(w) && i < |w.tasks| && BeforeSending(w.tasks[i]) && busy == (w.busy && !HasRunner(w.tasks[i]))
    requires w.spoiled <= spoiled && (i in spoiled || Line(w.tasks[i].reply) == [])
    ensures Inv(Ended(w, i, false).(busy := busy, spoiled := spoiled))
  {
    var t := w.tasks[i].(phase := Done(false));
    EndKeepsSession(w, i, false);
    RunnerUpdate(w.tasks, i, t, w.busy, busy);
    LockUpdate(w.tasks, i, t, w.locked, w.locked);
    TasksUpdate(w.tasks, i, t, w.spoiled, spoiled);
    WireUnsent(w.tasks, i, t, w.wire);
  }

  /** A change that touches neither the pending identities nor the wire. */
  lemma QuietKeeps(w: World, i: nat, t: Task, busy: bool, locked: bool, spoiled: set<nat>)
    requires Inv(w) && i < |w.tasks| && BeforeSending(w.tasks[i]) && (BeforeSending(t) || t.phase == Sending(0))
    requires t.request == w.tasks[i].request && (Active(t) <==> Active(w.tasks[i])) && TaskInv(t) && w.spoiled <= spoiled && Excused(t, i, spoiled)
    requires HasRunner(t) == HasRunner(w.tasks[i]) ==> busy == w.busy
    requires HasRunner(t) ==> HasRunner(w.tasks[i])
    requires !HasRunner(t) && HasRunner(w.tasks[i]) ==> !busy
    requires if t.phase.Sending? then !w.locked && locked else locked == w.locked
    ensures Inv(With(w, i, t).(busy := busy, locked := locked, spoiled := spoiled))
  {
    PendingSame(w.tasks, i, t, w.session.pending);
    RunnerUpdate(w.tasks, i, t, w.busy, busy);
    LockUpdate(w.tasks, i, t, w.locked, locked);
    TasksUpdate(w.tasks, i, t, w.spoiled, spoiled);
    WireUnsent(w.tasks, i, t, w.wire);
  }

  lemma OwnedKeeps(w: World, i: nat, t: Task, busy: bool, entered: seq<nat>)
    requires Inv(w) && i < |w.tasks| && w.tasks[i].phase.Created? && w.session.connected && w.tasks[i].request.execId !in w.session.pending
    requires t.request == w.tasks[i].request && t.owns && TaskInv(t) && (t.phase.Waiting? || t.phase.Handling?)
    requires if HasRunner(t) then !w.busy && busy else busy == w.busy
    ensures Inv(With(w, i, t).(session := Begun(w.session, t.request.execId).0, busy := busy, entered := entered))
  {
    PendingAdded(w.tasks, i, t, w.session.pending);
    RunnerUpdate(w.tasks, i, t, w.busy, busy);
    LockUpdate(w.tasks, i, t, w.locked, w.locked);
    TasksUpdate(w.tasks, i, t, w.spoiled, w.spoiled);
    WireUnsent(w.tasks, i, t, w.wire);
  }

  lemma StartKeeps(w: World, i: nat, first: First)
    requires Inv(w) && i < |w.tasks| && w.tasks[i].phase.Created?
    ensures Inv(Started(w, i, first))
  {
    var t := w.tasks[i];
    if !Begun(w.session, t.request.execId).1 {
      QuietKeeps(w, i, t.(owns := false, reply := Refused(t.request, AlreadyActive), phase := Waiting), w.busy, w.locked, w.spoiled);
    } else {
      var t' := match first
        case AtOnce(handled) => Answering(t, handled)
        case Suspends => t.(owns := true, phase := Handling(false))
        case WantsRunner(otherwise) => if w.busy then Answering(t, otherwise) else t.(owns := true, phase := Handling(true));
      OwnedKeeps(w, i, t', w.busy || HasRunner(t'), w.entered + [i]);
    }
  }

  lemma PendingGrows(tasks: seq<Task>, t: Task, pending: set<Text>)
    requires PendingInv(tasks, pending) && !Active(t)
    ensures PendingInv(tasks + [t], pending)
  {
    var after := tasks + [t];
    forall id | id in pending ensures exists k :: 0 <= k < |after| && Active(after[k]) && after[k].request.execId == id {
      var k :| 0 <= k < |tasks| && Active(tasks[k]) && tasks[k].request.execId == id;
      assert Active(after[k]);
    }
  }

  lemma RunnerGrows(tasks: seq<Task>, t: Task, busy: bool)
    requires RunnerInv(tasks, busy) && !HasRunner(t)
    ensures RunnerInv(tasks + [t], busy)
  {
    if busy {
      var k :| 0 <= k < |tasks| && HasRunner(tasks[k]);
      assert HasRunner((tasks + [t])[k]);
    }
  }

  lemma LockGrows(tasks: seq<Task>, t: Task, locked: bool)
    requires LockInv(tasks, locked) && !t.phase.Sending?
    ensures LockInv(tasks + [t], locked)
  {
    if locked {
      var k :| 0 <= k < |tasks| && tasks[k].phase.Sending?;
      assert (tasks + [t])[k].phase.Sending?;
    }
  }

  lemma WireGrows(tasks: seq<Task>, t: Task, wire: seq<Piece>)
    requires WireInv(tasks, wire) && t.phase.Created?
    ensures WireInv(tasks + [t], wire)
  {}

  lemma CreateKeeps(w: World, request: Request)
    requires Inv(w) && w.session.connected
    ensures Inv(w.(tasks := w.tasks + [Task(request, false, NoReply(request), [], Created)]))
  {
    var t := Task(request, false, NoReply(request), [], Created);
    PendingGrows(w.tasks, t, w.session.pending);
    RunnerGrows(w.tasks, t, w.busy);
    LockGrows(w.tasks, t, w.locked);
    WireGrows(w.tasks, t, w.wire);
    assert TasksInv(w.tasks + [t], w.spoiled);
  }

  /** A task that goes on sending changes nothing but the wire. */
  lemma SendingOn(w: World, i: nat, t: Task)
    requires Inv(w) && i < |w.tasks| && w.tasks[i].phase.Sending?
    requires t == w.tasks[i].(phase := t.phase) && t.phase.Sending? && t.phase.count <= Size(t)
    ensures PendingInv(w.tasks[i := t], w.session.pending) && RunnerInv(w.tasks[i := t], w.busy)
    ensures LockInv(w.tasks[i := t], w.locked) && TasksInv(w.tasks[i := t], w.spoiled)
    ensures !w.session.connected ==> AllDone(w.tasks[i := t])
  {
    PendingSame(w.tasks, i, t, w.session.pending);
    RunnerUpdate(w.tasks, i, t, w.busy, w.busy);
    LockUpdate(w.tasks, i, t, w.locked, w.locked);
    assert TaskInv(w.tasks[i]);
    TasksUpdate(w.tasks, i, t, w.spoiled, w.spoiled);
  }

  /** The parts of the invariant, put together again. */
  lemma WroteInv(w: World, i: nat, t: Task)
    requires i < |w.tasks| && w.tasks[i].phase.Sending? && t == w.tasks[i].(phase := Sending(w.tasks[i].phase.count + 1))
    requires PendingInv(w.tasks[i := t], w.session.pending) && RunnerInv(w.tasks[i := t], w.busy)
    requires LockInv(w.tasks[i := t], w.locked) && TasksInv(w.tasks[i := t], w.spoiled)
    requires !w.session.connected ==> AllDone(w.tasks[i := t])
    requires WireInv(w.tasks[i := t], w.wire + [Piece(i, w.tasks[i].phase.count)])
    ensures Inv(Wrote(w, i))
  {}

  lemma WriteKeeps(w: World, i: nat)
    requires Inv(w) && i < |w.tasks| && w.tasks[i].phase.Sending? && w.tasks[i].phase.count < Size(w.tasks[i])
    ensures Inv(Wrote(w, i))
  {
    var t := w.tasks[i].(phase := Sending(w.tasks[i].phase.count + 1));
    SendingOn(w, i, t);
    WireWritten(w.tasks, i, t, w.wire, w.locked);
    WroteInv(w, i, t);
  }

  lemma SessionEdgeKeeps(w: World, connected: bool)
    requires Inv(w) && AllDone(w.tasks)
    ensures Inv(w.(session := Session(connected, {})))
  {}

  lemma CancelKeeps(w: World, i: nat)
    requires Inv(w) && i < |w.tasks|
    ensures Inv(Cancelled(w, i))
  {
    var t := w.tasks[i];
    match t.phase
    case Created => EndUnsentKeeps(w, i, w.busy, w.spoiled + {i});
    case Handling(runner) => QuietKeeps(w, i, t.(phase := Cleanup(runner)), w.busy, w.locked, w.spoiled + {i});
    case Waiting => EndUnsentKeeps(w, i, w.busy, w.spoiled + {i});
    case Sending(_) => EndSendingKeeps(w, i, false, w.spoiled + {i});
    case Cleanup(_) =>
    case Done(_) =>
  }

  lemma ResumeKeeps(w: World, i: nat, handled: Handled)
    requires Inv(w) && i < |w.tasks| && w.tasks[i].phase.Handling?
    ensures Inv(Step(w, Resume(i, handled)))
  {
    var t := w.tasks[i];
    QuietKeeps(w, i, t.(reply := Routed(t.request, handled), phase := Waiting), w.busy && !t.phase.runner, w.locked, w.spoiled);
  }

  lemma AcquireKeeps(w: World, i: nat)
    requires Inv(w) && i < |w.tasks| && w.tasks[i].phase.Waiting? && !w.locked
    ensures Inv(Acquired(w, i))
  {
    var line := Line(w.tasks[i].reply);
    if line == [] {
      EndUnsentKeeps(w, i, w.busy, w.spoiled);
    } else {
      QuietKeeps(w, i, w.tasks[i].(line := line, phase := Sending(0)), w.busy, true, w.spoiled);
    }
  }

  lemma EndingKeeps(w: World, op: Op)
    requires Inv(w) && (op.Finish? || op.Fail? || op.Cancel? || op.CleanedUp?)
    ensures Inv(Step(w, op))
  {
    match op
    case Finish(i) => if i < |w.tasks| && w.tasks[i].phase == Sending(Size(w.tasks[i])) { EndSendingKeeps(w, i, true, w.spoiled); }
    case Fail(i) => if i < |w.tasks| && w.tasks[i].phase.Sending? { EndSendingKeeps(w, i, false, w.spoiled + {i}); }
    case Cancel(i) => if i < |w.tasks| { CancelKeeps(w, i); }
    case CleanedUp(i) =>
      if i < |w.tasks| && w.tasks[i].phase.Cleanup? { EndUnsentKeeps(w, i, w.busy && !w.tasks[i].phase.runner, w.spoiled); }
  }

  lemma StepKeeps(w: World, op: Op)
    requires Inv(w)
    ensures Inv(Step(w, op))
  {
    match op
    case Connect => if AllDone(w.tasks) { SessionEdgeKeeps(w, true); }
    case Create(request) => if w.session.connected { CreateKeeps(w, request); }
    case Start(i, first) => if i < |w.tasks| && w.tasks[i].phase.Created? { StartKeeps(w, i, first); }
    case Resume(i, handled) => if i < |w.tasks| && w.tasks[i].phase.Handling? { ResumeKeeps(w, i, handled); }
    case Acquire(i) => if i < |w.tasks| && w.tasks[i].phase.Waiting? && !w.locked { AcquireKeeps(w, i); }
    case Write(i) =>
      if i < |w.tasks| && w.tasks[i].phase.Sending? && w.tasks[i].phase.count < Size(w.tasks[i]) { WriteKeeps(w, i); }
    case Disconnect => if AllDone(w.tasks) { SessionEdgeKeeps(w, false); }
    case _ => EndingKeeps(w, op);
  }

  /**
   In every interleaving: the busy flag is up exactly while one task runs or winds down the runner, and never two; the lock is
   held exactly by one sending task; the pending identities are those of the unfinished owners, all different; every response
   names its request; and the wire obeys WireInv.
   */
  lemma {:induction false} Concurrency(ops: seq<Op>)
    ensures Inv(Run(ops))
  {
    if ops != [] {
      Concurrency(ops[..|ops| - 1]);
      StepKeeps(Run(ops[..|ops| - 1]), ops[|ops| - 1]);
    }
  }

  // ---------------------------------------------------------------- consequences

  /** A handler is entered only when every other task of the same identity that was let in has sent its response or is over. */
  lemma NoDuplicateEntry(ops: seq<Op>, i: nat, first: First, k: nat)
    requires i < |Run(ops).tasks| && k < |Run(ops).tasks| && k != i
    requires Run(ops).tasks[k].request.execId == Run(ops).tasks[i].request.execId
    requires Step(Run(ops), Start(i, first)).entered != Run(ops).entered
    ensures !Active(Run(ops).tasks[k])
  {
    Concurrency(ops);
  }

  /** The runner stays occupied until the task that took it resumes or has been wound down. */
  lemma RunnerHeld(ops: seq<Op>, op: Op, i: nat)
    requires i < |Run(ops).tasks| && HasRunner(Run(ops).tasks[i])
    ensures var w' := Step(Run(ops), op);
            i < |w'.tasks| && (w'.busy || op == CleanedUp(i) || (op.Resume? && op.i == i))
  {
    Concurrency(ops);
    StepKeeps(Run(ops), op);
    if !(op == CleanedUp(i)) && !(op.Resume? && op.i == i) { RunnerOf(Run(ops), op, i); }
    StepKeepsTasks(Run(ops), op);
  }

  lemma StepKeepsTasks(w: World, op: Op)
    ensures |w.tasks| <= |Step(w, op).tasks|
  {}

  lemma RunnerOf(w: World, op: Op, i: nat)
    requires i < |w.tasks| && HasRunner(w.tasks[i]) && !(op == CleanedUp(i)) && !(op.Resume? && op.i == i)
    ensures i < |Step(w, op).tasks| && HasRunner(Step(w, op).tasks[i])
  {
    match op
    case Start(k, first) => StartSpares(w, k, first, i);
    case Cancel(k) => if k < |w.tasks| { CancelSpares(w, k, i); }
    case _ =>
  }

  lemma StartSpares(w: World, k: nat, first: First, i: nat)
    requires i < |w.tasks| && HasRunner(w.tasks[i])
    ensures var w' := Step(w, Start(k, first)); i < |w'.tasks| && HasRunner(w'.tasks[i])
  {}

  lemma CancelSpares(w: World, k: nat, i: nat)
    requires i < |w.tasks| && k < |w.tasks| && HasRunner(w.tasks[i])
    ensures i < |Cancelled(w, k).tasks| && HasRunner(Cancelled(w, k).tasks[i])
  {}

  /** The pieces of one line are one block, from its first byte on. */
  lemma {:induction false} Block(wire: seq<Piece>, p: nat)
    requires PiecesInv(wire) && p < |wire|
    ensures wire[p].index <= p
    ensures forall k :: 0 <= k <= wire[p].index ==> wire[p - wire[p].index + k] == Piece(wire[p].task, k)
    decreases p
  {
    if wire[p].index > 0 {
      Block(wire, p - 1);
    }
  }

  lemma Positions(wire: seq<Piece>, p: nat, q: nat)
    requires PiecesInv(wire) && p < |wire| && q < |wire| && wire[p].task == wire[q].task
    ensures wire[p].index <= p && wire[q].index <= q && p - wire[p].index == q - wire[q].index
  {
    Block(wire, p);
    Block(wire, q);
    var a, b := p - wire[p].index, q - wire[q].index;
    assert wire[a] == Piece(wire[p].task, 0) && wire[b] == Piece(wire[p].task, 0);
  }

  lemma OneBlock(wire: seq<Piece>, p: nat, q: nat, r: nat)
    requires PiecesInv(wire) && p <= q <= r < |wire| && wire[p].task == wire[r].task
    ensures wire[q].task == wire[p].task
  {
    Positions(wire, p, r);
    Block(wire, r);
    var base := r - wire[r].index;
    assert wire[base + (q - base)] == Piece(wire[r].task, q - base);
  }

  /** No other task's bytes fall inside a line. */
  lemma Contiguous(ops: seq<Op>, p: nat, q: nat, r: nat)
    requires p <= q <= r < |Run(ops).wire| && Run(ops).wire[p].task == Run(ops).wire[r].task
    ensures Run(ops).wire[q].task == Run(ops).wire[p].task
  {
    Concurrency(ops);
    OneBlock(Run(ops).wire, p, q, r);
  }

  /** The n bytes of line i stand on the wire from `at` on, and nowhere else. */
  ghost predicate LineOf(wire: seq<Piece>, i: nat, n: nat, at: nat) {
    && at + n <= |wire|
    && (forall k :: 0 <= k < n ==> wire[at + k] == Piece(i, k))
    && (forall p :: 0 <= p < |wire| && wire[p].task == i ==> at <= p < at + n)
  }

  /** What has gone out, byte by byte. */
  function Bytes(tasks: seq<Task>, wire: seq<Piece>): seq<byte>
    requires forall p :: 0 <= p < |wire| ==> Placed(tasks, wire[p])
  {
    seq(|wire|, p requires 0 <= p < |wire| && Placed(tasks, wire[p]) => tasks[wire[p].task].line[wire[p].index])
  }

  lemma BytesOfLine(tasks: seq<Task>, wire: seq<Piece>, i: nat, line: seq<byte>, at: nat)
    requires WireInv(tasks, wire) && i < |tasks| && line == tasks[i].line && LineOf(wire, i, |line|, at)
    ensures Bytes(tasks, wire)[at..at + |line|] == line
  {
    var out := Bytes(tasks, wire);
    forall k | 0 <= k < |line| ensures out[at..at + |line|][k] == line[k] {
      assert wire[at + k] == Piece(i, k);
    }
  }

  /** The line stands on the wire at `at`, in one piece, and nowhere else. */
  ghost predicate OnWire(tasks: seq<Task>, wire: seq<Piece>, i: nat, line: seq<byte>, at: nat)
    requires forall p :: 0 <= p < |wire| ==> Placed(tasks, wire[p])
  {
    line != [] && LineOf(wire, i, |line|, at) && Bytes(tasks, wire)[at..at + |line|] == line
  }

  predicate Silent(wire: seq<Piece>, i: nat) { forall p :: 0 <= p < |wire| ==> wire[p].task != i }

  /**
   A task over without having been cancelled or failed by the transport has put its whole line on the wire exactly when its
   response encodes within the limit, and otherwise nothing at all; the response names its request.
   */
  lemma OneWholeResponse(ops: seq<Op>, i: nat) returns (at: nat)
    requires i < |Run(ops).tasks| && Run(ops).tasks[i].phase.Done? && i !in Run(ops).spoiled
    ensures WireInv(Run(ops).tasks, Run(ops).wire)
    ensures var w := Run(ops);
            var t := w.tasks[i];
            && t.reply.actionId == t.request.actionId && t.reply.execId == t.request.execId
            && if Encode(t.reply).Encoded? then OnWire(w.tasks, w.wire, i, Line(t.reply), at) else Silent(w.wire, i)
  {
    Concurrency(ops);
    at := Delivered(Run(ops), i);
  }

  lemma Delivered(w: World, i: nat) returns (at: nat)
    requires Inv(w) && i < |w.tasks| && w.tasks[i].phase.Done? && i !in w.spoiled
    ensures var t := w.tasks[i];
            && t.reply.actionId == t.request.actionId && t.reply.execId == t.request.execId
            && if Encode(t.reply).Encoded? then OnWire(w.tasks, w.wire, i, Line(t.reply), at) else Silent(w.wire, i)
  {
    at := 0;
    assert TaskInv(w.tasks[i]) && Excused(w.tasks[i], i, w.spoiled);
    if w.tasks[i].phase.delivered {
      at := DeliveredAt(w.tasks, w.wire, i, w.tasks[i].line);
    } else {
      UnencodedSilent(w.tasks, w.wire, i);
    }
  }

  lemma DeliveredAt(tasks: seq<Task>, wire: seq<Piece>, i: nat, line: seq<byte>) returns (at: nat)
    requires WireInv(tasks, wire) && i < |tasks| && tasks[i].phase == Done(true) && line == tasks[i].line != []
    ensures OnWire(tasks, wire, i, line, at)
  {
    var p := LastPiece(tasks, wire, i, |line|);
    at := LineAt(wire, i, |line|, p);
    BytesOfLine(tasks, wire, i, line, at);
  }

  lemma UnencodedSilent(tasks: seq<Task>, wire: seq<Piece>, i: nat)
    requires WireInv(tasks, wire) && i < |tasks| && tasks[i].line == []
    ensures Silent(wire, i)
  {
    forall p | 0 <= p < |wire| ensures wire[p].task != i {
      assert Placed(tasks, wire[p]);
    }
  }

  lemma LastPiece(tasks: seq<Task>, wire: seq<Piece>, i: nat, n: nat) returns (p: nat)
    requires WireInv(tasks, wire) && i < |tasks| && tasks[i].phase == Done(true) && n == Size(tasks[i])
    ensures PiecesInv(wire) && p < |wire| && wire[p] == Piece(i, n - 1)
    ensures forall q :: 0 <= q < |wire| && wire[q].task == i ==> wire[q].index < n
  {
    p :| 0 <= p < |wire| && wire[p] == Piece(i, n - 1);
  }

  lemma LineAt(wire: seq<Piece>, i: nat, n: nat, p: nat) returns (at: nat)
    requires PiecesInv(wire) && 0 < n && p < |wire| && wire[p] == Piece(i, n - 1)
    requires forall q :: 0 <= q < |wire| && wire[q].task == i ==> wire[q].index < n
    ensures LineOf(wire, i, n, at)
  {
    Block(wire, p);
    at := p - (n - 1);
    forall q | 0 <= q < |wire| && wire[q].task == i ensures at <= q < at + n {
      Positions(wire, p, q);
    }
  }

  // ---------------------------------------------------------------- which requests are answered

  /** Every reply is one the time or the actions module builds, or an error; or it leaves room for the identities, as one of Codex may. */
  ghost predicate HandlersBounded(ops: seq<Op>) { forall k :: 0 <= k < |ops| ==> BoundedOp(ops[k]) }

  ghost predicate Bounded(handled: Handled) { handled.Replied? ==> OfModule(handled.r) || Benign(handled.r) }

  ghost predicate BoundedOp(op: Op) {
    match op
    case Start(_, first) => (first.AtOnce? ==> Bounded(first.handled)) && (first.WantsRunner? ==> Bounded(first.otherwise))
    case Resume(_, handled) => Bounded(handled)
    case _ => true
  }

  ghost predicate BenignTask(t: Task) {
    Acceptable(t.request) && Benign(t.reply)
  }

  ghost predicate BenignTasks(tasks: seq<Task>) { forall i :: 0 <= i < |tasks| ==> BenignTask(tasks[i]) }

  lemma RoutedBenign(request: Request, handled: Handled)
    requires Acceptable(request) && Bounded(handled)
    ensures Benign(Routed(request, handled))
  {
    if handled.Replied? && Routed(request, handled) == handled.r && OfModule(handled.r) { OfModuleBenign(handled.r); }
    RefusedBenign(request, Mismatched);
    RefusedBenign(request, HandlerFailed);
    RefusedBenign(request, UnknownAction);
  }

  lemma NoReplyBenign(request: Request)
    requires Acceptable(request)
    ensures Benign(NoReply(request))
  {
    QuotedLength([]);
    PlainLength([]);
  }

  lemma UpdateBenign(tasks: seq<Task>, i: nat, t: Task)
    requires BenignTasks(tasks) && i < |tasks| && BenignTask(t)
    ensures BenignTasks(tasks[i := t])
  {}

  /** What a start makes of the task. */
  lemma StartedTask(w: World, i: nat, first: First) returns (t: Task)
    requires i < |w.tasks|
    ensures t.request == w.tasks[i].request && Started(w, i, first).tasks == w.tasks[i := t]
    ensures || t.reply == w.tasks[i].reply || t.reply == Refused(t.request, AlreadyActive)
            || (first.AtOnce? && t.reply == Routed(t.request, first.handled))
            || (first.WantsRunner? && t.reply == Routed(t.request, first.otherwise))
  {
    t := Started(w, i, first).tasks[i];
  }

  lemma StartBenign(w: World, i: nat, first: First)
    requires BenignTasks(w.tasks) && i < |w.tasks| && BoundedOp(Start(i, first))
    ensures BenignTasks(Started(w, i, first).tasks)
  {
    var t := StartedTask(w, i, first);
    assert BenignTask(w.tasks[i]);
    RefusedBenign(t.request, AlreadyActive);
    if first.AtOnce? { RoutedBenign(t.request, first.handled); }
    if first.WantsRunner? { RoutedBenign(t.request, first.otherwise); }
    UpdateBenign(w.tasks, i, t);
  }

  /** Only a handler's return sets a reply. */
  lemma RepliesStay(w: World, op: Op, i: nat)
    requires !op.Create? && !op.Start? && !op.Resume?
    ensures |Step(w, op).tasks| == |w.tasks|
    ensures i < |w.tasks| ==> Step(w, op).tasks[i].request == w.tasks[i].request && Step(w, op).tasks[i].reply == w.tasks[i].reply
  {
    match op
    case Cancel(k) => if k < |w.tasks| { CancelStays(w, k, i); }
    case Acquire(_) =>
    case Write(_) =>
    case _ =>
  }

  lemma CancelStays(w: World, k: nat, i: nat)
    requires k < |w.tasks|
    ensures |Cancelled(w, k).tasks| == |w.tasks|
    ensures i < |w.tasks| ==> Cancelled(w, k).tasks[i].request == w.tasks[i].request && Cancelled(w, k).tasks[i].reply == w.tasks[i].reply
  {}

  lemma QuietBenign(w: World, op: Op)
    requires BenignTasks(w.tasks) && !op.Create? && !op.Start? && !op.Resume?
    ensures BenignTasks(Step(w, op).tasks)
  {
    var w' := Step(w, op);
    forall i | 0 <= i < |w'.tasks| ensures BenignTask(w'.tasks[i]) {
      RepliesStay(w, op, i);
      assert BenignTask(w.tasks[i]);
    }
  }

  lemma ResumeBenign(w: World, i: nat, handled: Handled)
    requires BenignTasks(w.tasks) && Bounded(handled)
    ensures BenignTasks(Step(w, Resume(i, handled)).tasks)
  {
    if i < |w.tasks| {
      assert BenignTask(w.tasks[i]);
      RoutedBenign(w.tasks[i].request, handled);
    }
  }

  lemma StepBenign(w: World, op: Op)
    requires BenignTasks(w.tasks) && BoundedOp(op)
    ensures BenignTasks(Step(w, op).tasks)
  {
    match op
    case Create(request) => if Acceptable(request) { NoReplyBenign(request); }
    case Start(i, first) => if i < |w.tasks| { StartBenign(w, i, first); }
    case Resume(i, handled) => ResumeBenign(w, i, handled);
    case _ => QuietBenign(w, op);
  }

  lemma {:induction false} RunBenign(ops: seq<Op>)
    requires HandlersBounded(ops)
    ensures BenignTasks(Run(ops).tasks)
  {
    if ops != [] {
      RunBenign(ops[..|ops| - 1]);
      StepBenign(Run(ops[..|ops| - 1]), ops[|ops| - 1]);
    }
  }

  /**
   As long as what Codex reports of its usage leaves room, a request over without cancellation or transport failure is answered, with its
   whole line, exactly when neither of its identities holds a lone surrogate.
   */
  lemma AnsweredExactly(ops: seq<Op>, i: nat) returns (at: nat)
    requires HandlersBounded(ops) && i < |Run(ops).tasks| && Run(ops).tasks[i].phase.Done? && i !in Run(ops).spoiled
    ensures WireInv(Run(ops).tasks, Run(ops).wire)
    ensures var w := Run(ops);
            var t := w.tasks[i];
            if Desktop.Encodable(t.request.actionId) && Desktop.Encodable(t.request.execId)
            then OnWire(w.tasks, w.wire, i, Line(t.reply), at) else Silent(w.wire, i)
  {
    at := OneWholeResponse(ops, i);
    RunBenign(ops);
    assert BenignTask(Run(ops).tasks[i]);
    IdentitiesDecide(Run(ops).tasks[i].reply);
  }

  const LONE: Request := Request(Records.Ascii("actions.list"), [0xD800])

  lemma RunSnoc(ops: seq<Op>, op: Op)
    ensures Run(ops + [op]) == Step(Run(ops), op)
  {
    assert (ops + [op])[..|ops + [op]| - 1] == ops;
  }

  lemma LoneCreated()
    ensures Run([Connect, Create(LONE)]) == World(Session(true, {}), false, false, [Task(LONE, false, NoReply(LONE), [], Created)], [], {}, [])
  {
    LoneAcceptable();
    RunSnoc([], Connect);
    assert [] + [Connect] == [Connect];
    RunSnoc([Connect], Create(LONE));
    assert [Connect] + [Create(LONE)] == [Connect, Create(LONE)];
  }

  lemma LoneHandled(handled: Handled)
    ensures Run([Connect, Create(LONE), Start(0, AtOnce(handled))])
         == World(Session(true, {LONE.execId}), false, false, [Task(LONE, true, Routed(LONE, handled), [], Waiting)], [], {}, [0])
  {
    LoneCreated();
    RunSnoc([Connect, Create(LONE)], Start(0, AtOnce(handled)));
    assert [Connect, Create(LONE)] + [Start(0, AtOnce(handled))] == [Connect, Create(LONE), Start(0, AtOnce(handled))];
    assert {} + {LONE.execId} == {LONE.execId};
  }

  /** A request whose identity is a lone surrogate is accepted and handled, and never answered, whatever its handler does. */
  lemma SurrogateUnanswered(handled: Handled)
    ensures var w := Run([Connect, Create(LONE), Start(0, AtOnce(handled)), Acquire(0)]);
            && |w.tasks| == 1 && w.tasks[0].request == LONE && w.tasks[0].phase == Done(false)
            && w.entered == [0] && w.spoiled == {} && w.wire == []
  {
    LoneHandled(handled);
    RunSnoc([Connect, Create(LONE), Start(0, AtOnce(handled))], Acquire(0));
    assert [Connect, Create(LONE), Start(0, AtOnce(handled))] + [Acquire(0)]
        == [Connect, Create(LONE), Start(0, AtOnce(handled)), Acquire(0)];
    LoneRaises(Routed(LONE, handled));
  }

  lemma LoneAcceptable()
    ensures Acceptable(LONE)
  {
    assert !Utf8.PythonSpace(LONE.actionId[0]) && !Utf8.PythonSpace(LONE.execId[0]);
  }

  lemma LoneRaises(r: Response)
    requires r.execId == LONE.execId
    ensures Line(r) == []
  {
    assert !Utf8.Scalar(r.execId[0]);
  }

  /**
   Nothing is stuck: a task that is not over waits for its handler or its winding down, or the loop can take a step that changes
   something. A response the encoder refuses ends its task as soon as the lock is free.
   */
  lemma Progress(ops: seq<Op>, i: nat) returns (op: Op)
    requires i < |Run(ops).tasks| && !Run(ops).tasks[i].phase.Done?
    requires !Run(ops).tasks[i].phase.Handling? && !Run(ops).tasks[i].phase.Cleanup?
    ensures Step(Run(ops), op) != Run(ops) && (op.Start? || op.Acquire? || op.Write? || op.Finish?)
  {
    Concurrency(ops);
    op := NextStep(Run(ops), i);
  }

  lemma NextStep(w: World, i: nat) returns (op: Op)
    requires LockInv(w.tasks, w.locked) && TasksInv(w.tasks, w.spoiled)
    requires i < |w.tasks| && !w.tasks[i].phase.Done? && !w.tasks[i].phase.Handling? && !w.tasks[i].phase.Cleanup?
    ensures Step(w, op) != w && (op.Start? || op.Acquire? || op.Write? || op.Finish?)
  {
    if w.tasks[i].phase.Created? {
      op := Start(i, Suspends);
      assert Step(w, op).tasks[i] != w.tasks[i];
    } else if w.tasks[i].phase.Waiting? && !w.locked {
      op := Acquire(i);
      assert Step(w, op).tasks[i] != w.tasks[i];
    } else if w.tasks[i].phase.Waiting? {
      var k: nat :| k < |w.tasks| && w.tasks[k].phase.Sending?;
      op := SendingStep(w, k);
    } else {
      op := SendingStep(w, i);
    }
  }

  lemma SendingStep(w: World, k: nat) returns (op: Op)
    requires k < |w.tasks| && w.tasks[k].phase.Sending? && w.tasks[k].phase.count <= Size(w.tasks[k])
    ensures Step(w, op) != w && (op.Write? || op.Finish?)
  {
    op := if w.tasks[k].phase.count < Size(w.tasks[k]) then Write(k) else Finish(k);
    assert Step(w, op).tasks[k] != w.tasks[k];
  }
}
