/**
 Whole runs of time synchronisation in true time. A world is the controller's state together with the unbounded
 times behind its 32-bit stamps and the log of every time request handed to the transmit queue.
 */
module TimeSyncRuns {
  import opened Common
  import opened ExecId
  import opened TimeSync
  import Scheduler

  /** `failedAt` is the time of the last failure before this request. */
  datatype Submission = Submission(at: nat, round: nat, attempt: nat, failedAt: nat)

  datatype World = World(s: Sync, clock: nat, ageAt: nat, sinceAt: nat, failedAt: nat, successAt: nat,
                         round: nat, log: seq<Submission>)

  const START := World(INITIAL, 0, 0, 0, 0, 0, 0, [])

  /**
   `sent`: the transmit queue's answer, should this event submit a request. `Elsewhere`: another module takes an identity from
   the shared generator.
   */
  datatype Event =
    | BeginTask
    | Hello(computer: string, supported: bool, sent: bool)
    | Lost
    | Tick(sent: bool)
    | SchedulerTick(sent: bool)
    | Answer(execId: string, ok: bool, applied: bool)
    | Toggle(enabled: bool)
    | Elsewhere

  datatype Timed = Timed(at: nat, event: Event)

  function Attempt(w: World, at: nat, sent: bool): World {
    var refused := w.s.lastId == MAX_ID || !sent;
    w.(s := Attempted(w.s, Millis(at), sent), failedAt := if refused then at else w.failedAt,
       log := if w.s.lastId == MAX_ID then w.log
              else w.log + [Submission(at, w.round, w.s.attempts + 1, w.failedAt)])
  }

  function Round(w: World, at: nat, sent: bool): World {
    var s := w.s.(needsSync := true);
    if StartsRound(s) then Attempt(w.(s := s.(attempts := 0), round := w.round + 1), at, sent) else w.(s := s)
  }

  function Dispatch(w: World, at: nat, sent: bool): World
    requires w.s.task.Some?
  {
    if w.s.task.value.enabled
    then Round(w.(s := w.s.(task := Some(SyncTask(true, Millis(at)))), sinceAt := at), at, sent)
    else Round(w, at, sent)
  }

  function Step(w: World, t: Timed): World {
    var now := Millis(t.at);
    var v := w.(clock := t.at);
    match t.event
    case BeginTask =>
      if w.s.task.Some? then v else v.(s := Begun(w.s, now), ageAt := t.at, sinceAt := t.at)
    case Hello(computer, supported, sent) =>
      var g := v.(s := Greeted(w.s, computer, supported, now), ageAt := t.at);
      if GreetingTriggers(w.s, computer, supported, now) then Dispatch(g, t.at, sent) else g
    case Lost => v.(s := Disconnected(w.s))
    case Tick(sent) =>
      var timeout := w.s.inFlight != "" && Elapsed(now, w.s.startedAt) >= REQUEST_TIMEOUT_MS;
      var e := v.(s := Expired(w.s, now), ageAt := t.at, failedAt := if timeout then t.at else w.failedAt);
      if RetryDue(e.s, now) then Attempt(e.(s := e.s.(retryPending := false)), t.at, sent) else e
    case SchedulerTick(sent) => if TaskDue(w.s, now) then Dispatch(v, t.at, sent) else v
    case Answer(execId, ok, applied) =>
      var a := v.(s := Answered(w.s, execId, ok, applied, now));
      if Succeeds(w.s, execId, ok, applied, now) then a.(ageAt := t.at, sinceAt := t.at, successAt := t.at)
      else if Matches(w.s, execId) then a.(failedAt := t.at)
      else a
    case Toggle(enabled) =>
      v.(s := TaskToggled(w.s, enabled, now),
         sinceAt := if w.s.task.Some? && enabled && !w.s.task.value.enabled then t.at else w.sinceAt)
    case Elsewhere => v.(s := Passed(w.s))
  }

  function Passed(s: Sync): Sync { if s.lastId < MAX_ID then s.(lastId := s.lastId + 1) else s }

  /** The world follows the controller. */
  lemma StepFollows(w: World, t: Timed)
    ensures Step(w, t).s == match t.event
                            case BeginTask => Begun(w.s, Millis(t.at))
                            case Hello(computer, supported, sent) => SessionReady(w.s, computer, supported, Millis(t.at), sent)
                            case Lost => Disconnected(w.s)
                            case Tick(sent) => Ticked(w.s, Millis(t.at), sent)
                            case SchedulerTick(sent) => SchedulerTicked(w.s, Millis(t.at), sent)
                            case Answer(execId, ok, applied) => Answered(w.s, execId, ok, applied, Millis(t.at))
                            case Toggle(enabled) => TaskToggled(w.s, enabled, Millis(t.at))
                            case Elsewhere => Passed(w.s)
  {}

  ghost predicate Ordered(from: nat, events: seq<Timed>) {
    forall i :: 0 <= i < |events| ==> from <= events[i].at && (i > 0 ==> events[i - 1].at <= events[i].at)
  }

  function Run(w: World, events: seq<Timed>): World {
    if events == [] then w else Step(Run(w, events[..|events| - 1]), events[|events| - 1])
  }

  // ---------------------------------------------------------------- rounds

  ghost predicate RoundInv(s: Sync) {
    && s.attempts <= MAX_ATTEMPTS && s.successAge <= SYNC_INTERVAL_MS
    && (s.inFlight != "" ==> !s.retryPending && 1 <= s.attempts && s.ready && s.supported && s.task.Some?)
    && (s.retryPending ==> 1 <= s.attempts < MAX_ATTEMPTS)
    && (s.synced ==> s.task.Some?)
  }

  ghost predicate StampInv(w: World) {
    && w.ageAt <= w.clock && w.sinceAt <= w.clock && w.failedAt <= w.clock && w.successAt <= w.clock
    && w.s.failedAt == Millis(w.failedAt) && w.s.lastAgeTick == Millis(w.ageAt)
    && (w.s.task.Some? ==> w.s.task.value.since == Millis(w.sinceAt))
  }

  predicate Before(a: Submission, b: Submission) {
    a.at <= b.at && (a.round < b.round || (a.round == b.round && a.attempt < b.attempt))
  }

  predicate WellSpaced(a: Submission) {
    1 <= a.attempt <= MAX_ATTEMPTS && (a.attempt > 1 ==> a.failedAt + RETRY_DELAY_MS <= a.at)
  }

  ghost predicate LogInv(w: World) {
    && (forall i, j :: 0 <= i < j < |w.log| ==> Before(w.log[i], w.log[j]))
    && (forall i :: 0 <= i < |w.log| ==>
          && WellSpaced(w.log[i]) && w.log[i].at <= w.clock
          && (w.log[i].round < w.round || (w.log[i].round == w.round && w.log[i].attempt <= w.s.attempts)))
  }

  ghost predicate Inv(w: World) { RoundInv(w.s) && StampInv(w) && LogInv(w) }

  lemma AttemptInv(w: World, at: nat, sent: bool)
    requires Inv(w) && w.clock == at && w.s.inFlight == "" && !w.s.retryPending && w.s.attempts < MAX_ATTEMPTS
    requires w.s.ready && w.s.supported && w.s.task.Some?
    requires w.s.attempts > 0 ==> w.failedAt + RETRY_DELAY_MS <= at
    ensures Inv(Attempt(w, at, sent))
  {
    HexNonEmpty(w.s.lastId);
  }

  lemma HexNonEmpty(n: u64)
    ensures n < MAX_ID ==> Printed(n + 1) != ""
  {}

  lemma RoundKeeps(w: World, at: nat, sent: bool)
    requires Inv(w) && w.clock == at
    ensures Inv(Round(w, at, sent))
  {
    var s := w.s.(needsSync := true);
    if StartsRound(s) {
      AttemptInv(w.(s := s.(attempts := 0), round := w.round + 1), at, sent);
    }
  }

  lemma DispatchKeeps(w: World, at: nat, sent: bool)
    requires Inv(w) && w.clock == at && w.s.task.Some?
    ensures Inv(Dispatch(w, at, sent))
  {
    if w.s.task.value.enabled {
      RoundKeeps(w.(s := w.s.(task := Some(SyncTask(true, Millis(at)))), sinceAt := at), at, sent);
    } else {
      RoundKeeps(w, at, sent);
    }
  }

  lemma TickKeeps(w: World, at: nat, sent: bool)
    requires Inv(w) && w.clock <= at
    ensures Inv(Step(w, Timed(at, Tick(sent))))
  {
    var now := Millis(at);
    var timeout := w.s.inFlight != "" && Elapsed(now, w.s.startedAt) >= REQUEST_TIMEOUT_MS;
    var e := w.(clock := at, s := Expired(w.s, now), ageAt := at, failedAt := if timeout then at else w.failedAt);
    assert Inv(e);
    if RetryDue(e.s, now) {
      ElapsedAtMost(at, e.failedAt);
      AttemptInv(e.(s := e.s.(retryPending := false)), at, sent);
    }
  }

  lemma StepKeeps(w: World, t: Timed)
    requires Inv(w) && w.clock <= t.at
    ensures Inv(Step(w, t))
  {
    match t.event
    case Hello(computer, supported, sent) => HelloKeeps(w, t.at, computer, supported, sent);
    case Tick(sent) => TickKeeps(w, t.at, sent);
    case SchedulerTick(sent) =>
      if TaskDue(w.s, Millis(t.at)) { DispatchKeeps(w.(clock := t.at), t.at, sent); }
    case _ => CalmKeeps(w, t);
  }

  lemma HelloKeeps(w: World, at: nat, computer: string, supported: bool, sent: bool)
    requires Inv(w) && w.clock <= at
    ensures Inv(Step(w, Timed(at, Hello(computer, supported, sent))))
  {
    var g := w.(clock := at, s := Greeted(w.s, computer, supported, Millis(at)), ageAt := at);
    assert Inv(g);
    if GreetingTriggers(w.s, computer, supported, Millis(at)) { DispatchKeeps(g, at, sent); }
  }

  /** Events that never submit anything. */
  lemma CalmKeeps(w: World, t: Timed)
    requires Inv(w) && w.clock <= t.at && (t.event.BeginTask? || t.event.Lost? || t.event.Answer? || t.event.Toggle? || t.event.Elsewhere?)
    ensures Inv(Step(w, t))
  {
    var w' := Step(w, t);
    assert w'.log == w.log && w'.round == w.round && w'.s.attempts == w.s.attempts;
    assert RoundInv(w'.s);
    assert StampInv(w');
  }

  lemma {:induction false} RunKeeps(w: World, events: seq<Timed>)
    requires Inv(w) && Ordered(w.clock, events)
    ensures Inv(Run(w, events)) && Run(w, events).clock == if events == [] then w.clock else events[|events| - 1].at
  {
    if events != [] {
      var n := |events| - 1;
      RunKeeps(w, events[..n]);
      StepKeeps(Run(w, events[..n]), events[n]);
      StepClock(Run(w, events[..n]), events[n]);
    }
  }

  lemma StepClock(w: World, t: Timed)
    ensures Step(w, t).clock == t.at
  {}

  /**
   In every run: a request is in flight or a retry is pending, never both; requests are grouped in rounds of at
   most three, numbered in order; and a repeated attempt comes at least three seconds of true time after the
   failure before it.
   */
  lemma RoundsAreBounded(events: seq<Timed>)
    requires Ordered(0, events)
    ensures var w := Run(START, events);
            && !(w.s.inFlight != "" && w.s.retryPending)
            && (forall i, j :: 0 <= i < j < |w.log| ==> Before(w.log[i], w.log[j]))
            && (forall i :: 0 <= i < |w.log| ==> WellSpaced(w.log[i]))
            && (forall i :: 0 <= i < |w.log| - 3 ==> w.log[i].round < w.log[i + 3].round)
  {
    RunKeeps(START, events);
    var log := Run(START, events).log;
    forall i | 0 <= i < |log| - 3 ensures log[i].round < log[i + 3].round {
      assert Before(log[i], log[i + 1]) && Before(log[i + 1], log[i + 2]) && Before(log[i + 2], log[i + 3]);
    }
  }

  // ---------------------------------------------------------------- the quiet hour

  /** Since the success at `from`, nothing has happened that could submit a request within the hour. */
  ghost predicate Quiet(w: World, computer: string, from: nat) {
    && Inv(w) && from <= w.clock
    && w.s.synced && w.s.computer == w.s.successComputer == computer
    && w.s.inFlight == "" && !w.s.retryPending && !w.s.needsSync
    && from <= w.ageAt && w.s.successAge <= w.ageAt - from && from <= w.sinceAt
  }

  predicate SameComputer(event: Event, computer: string) {
    event.Hello? ==> event.computer == computer
  }

  lemma QuietStep(w: World, t: Timed, computer: string, from: nat)
    requires Quiet(w, computer, from) && w.clock <= t.at < from + SYNC_INTERVAL_MS && SameComputer(t.event, computer)
    ensures Quiet(Step(w, t), computer, from) && Step(w, t).log == w.log
  {
    StepKeeps(w, t);
    ElapsedAtMost(t.at, w.ageAt);
    ElapsedAtMost(t.at, w.sinceAt);
    match t.event
    case BeginTask =>
    case Hello(_, supported, sent) =>
    case Lost =>
    case Tick(sent) =>
    case SchedulerTick(sent) =>
    case Answer(execId, ok, applied) =>
    case Toggle(enabled) =>
    case Elsewhere =>
  }

  lemma {:induction false} QuietRun(w: World, events: seq<Timed>, computer: string, from: nat)
    requires Quiet(w, computer, from) && Ordered(w.clock, events)
    requires forall i :: 0 <= i < |events| ==> events[i].at < from + SYNC_INTERVAL_MS && SameComputer(events[i].event, computer)
    ensures Quiet(Run(w, events), computer, from) && Run(w, events).log == w.log
  {
    if events != [] {
      QuietRun(w, events[..|events| - 1], computer, from);
      RunKeeps(w, events[..|events| - 1]);
      QuietStep(Run(w, events[..|events| - 1]), events[|events| - 1], computer, from);
    }
  }

  /**
   Whenever, in any run, an answer succeeds, no request is submitted for an hour of true time, through any
   number of disconnections, capability changes, late answers, ticks and hellos of the same computer.
   `w` is the world before the successful answer and `w'` the world after it.
   */
  lemma QuietHour(before: seq<Timed>, w: World, success: Timed, w': World, events: seq<Timed>)
    requires Ordered(0, before) && w == Run(START, before)
    requires w.clock <= success.at && w' == Step(w, success) && Ordered(success.at, events)
    requires success.event.Answer?
             && Succeeds(w.s, success.event.execId, success.event.ok, success.event.applied, Millis(success.at))
    requires forall i :: 0 <= i < |events| ==>
               events[i].at < success.at + SYNC_INTERVAL_MS && SameComputer(events[i].event, w.s.computer)
    ensures Run(w', events).log == w.log
  {
    RunKeeps(START, before);
    SuccessIsQuiet(w, success);
    QuietRun(w', events, w.s.computer, success.at);
  }

  lemma SuccessIsQuiet(w: World, t: Timed)
    requires Inv(w) && w.clock <= t.at && t.event.Answer?
    requires Succeeds(w.s, t.event.execId, t.event.ok, t.event.applied, Millis(t.at))
    ensures Quiet(Step(w, t), w.s.computer, t.at) && Step(w, t).log == w.log
  {
    StepKeeps(w, t);
  }

  // ---------------------------------------------------------------- the age of the last success

  /** At the last update, the age was the true time since the success, capped; at the cap a sync stays needed. */
  ghost predicate AgeExact(w: World) {
    w.s.synced ==>
      && w.successAt <= w.ageAt
      && w.s.successAge == Min(w.ageAt - w.successAt, SYNC_INTERVAL_MS)
      && (w.s.successAge == SYNC_INTERVAL_MS ==> w.s.needsSync)
  }

  lemma AgeStep(w: World, t: Timed)
    requires Inv(w) && AgeExact(w) && w.clock <= t.at < w.ageAt + TWO_TO_THE_32
    ensures AgeExact(Step(w, t))
  {
    ElapsedExact(t.at, w.ageAt);
    var u := UpdatedAge(w.s, Millis(t.at));
    assert w.s.synced ==> u.successAge == Min(t.at - w.successAt, SYNC_INTERVAL_MS);
    match t.event
    case Hello(computer, supported, sent) => AgeSame(w, t, u);
    case Tick(sent) => AgeSame(w, t, u);
    case _ =>
  }

  /** What hello and tick do after the update leaves the age alone and never clears a needed sync. */
  lemma AgeSame(w: World, t: Timed, u: Sync)
    requires RoundInv(w.s) && (t.event.Hello? || t.event.Tick?) && u == UpdatedAge(w.s, Millis(t.at))
    ensures var w' := Step(w, t);
            && w'.s.synced == w.s.synced && w'.s.successAge == u.successAge && w'.ageAt == t.at
            && w'.successAt == w.successAt && (u.needsSync ==> w'.s.needsSync)
  {
    match t.event
    case Hello(computer, supported, sent) =>
      var g := w.(clock := t.at, s := Greeted(w.s, computer, supported, Millis(t.at)), ageAt := t.at);
      if GreetingTriggers(w.s, computer, supported, Millis(t.at)) { DispatchAge(g, t.at, sent); }
    case Tick(sent) =>
  }

  lemma DispatchAge(w: World, at: nat, sent: bool)
    requires w.s.task.Some?
    ensures var w' := Dispatch(w, at, sent);
            && w'.s.synced == w.s.synced && w'.s.successAge == w.s.successAge && w'.ageAt == w.ageAt
            && w'.successAt == w.successAt && w'.s.needsSync
  {}


  /** Each event comes less than one turn of the clock after the age was last updated. */
  ghost predicate Frequent(w: World, events: seq<Timed>) {
    forall i :: 0 <= i < |events| ==> events[i].at < Run(w, events[..i]).ageAt + TWO_TO_THE_32
  }

  /**
   With updates less than 2^32 ms apart the age is exact in every run, however many times the 32-bit clock wraps, and
   reaching the cap keeps a sync needed until the next success.
   */
  lemma {:induction false} AgeIsTrueTime(events: seq<Timed>)
    requires Ordered(0, events) && Frequent(START, events)
    ensures AgeExact(Run(START, events))
  {
    if events != [] {
      var before, t := events[..|events| - 1], events[|events| - 1];
      assert forall i :: 0 <= i < |before| ==> before[..i] == events[..i];
      AgeIsTrueTime(before);
      RunKeeps(START, before);
      assert events[|events| - 1].at < Run(START, events[..|events| - 1]).ageAt + TWO_TO_THE_32;
      AgeStep(Run(START, before), t);
    }
  }

  /** Without that bound an update is exact if and only if the gap is short, or the wrapped gap still reaches the cap. */
  lemma AgeUpdateExactIff(s: Sync, ageAt: nat, at: nat)
    requires s.synced && s.successAge <= SYNC_INTERVAL_MS && ageAt <= at && s.lastAgeTick == Millis(ageAt)
    ensures UpdatedAge(s, Millis(at)).successAge == Min(s.successAge + (at - ageAt), SYNC_INTERVAL_MS)
       <==> at - ageAt < TWO_TO_THE_32 || s.successAge + (at - ageAt) % TWO_TO_THE_32 >= SYNC_INTERVAL_MS
  {
    ElapsedIsTimeModWrap(at, ageAt);
  }

  // ---------------------------------------------------------------- the scheduler underneath

  const TIME_SYNC_ID := 0

  /** What the controller sees of its slot. */
  function Seen(slots: Scheduler.State): Option<SyncTask> {
    if Scheduler.Has(slots, TIME_SYNC_ID)
    then Some(SyncTask(Scheduler.Get(slots, TIME_SYNC_ID).config.enabled, Scheduler.Get(slots, TIME_SYNC_ID).since)) else None
  }

  /**
   The abstract slot is the real one: whatever the other callbacks do to the rest of the scheduler, one tick of it runs the
   sync task exactly when `SchedulerTicked` starts a round, and leaves the slot as that says.
   */
  lemma SlotIsTheTask(slots: Scheduler.State, now: u32, scripts: nat -> Scheduler.Script, s: Sync, sent: bool)
    requires Scheduler.Inv(slots) && !slots.dispatching && Scheduler.Has(slots, TIME_SYNC_ID) && Scheduler.Spares(scripts, TIME_SYNC_ID)
    requires Scheduler.Get(slots, TIME_SYNC_ID).config.intervalMs == SYNC_INTERVAL_MS && s.task == Seen(slots)
    ensures var (slots', ran) := Scheduler.Ticked(slots, now, scripts);
            && Seen(slots') == SchedulerTicked(s, now, sent).task
            && (TaskDue(s, now) <==> Scheduler.RanTask(ran, TIME_SYNC_ID))
  {
    Scheduler.UntouchedTask(slots, now, scripts, TIME_SYNC_ID);
  }
}
