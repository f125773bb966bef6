/**
 Whole runs of the Wi-Fi service over an adapter whose every call may fail. `Radio` is what may still be going on in
 the hardware by the adapter's contract: a start may leave anything on, a cleanup step that answers true ended it.
 */
module WifiRuns {
  import opened Common
  import opened Wifi
  import opened ScanMerge

  datatype Radio = Radio(scanning: bool, credentials: bool, on: bool)

  const QUIET := Radio(false, false, false)

  /** The number of an automatic retry within its request, when it ran and when the attempt before it had ended. */
  datatype Retry = Retry(requestId: u64, number: int, at: nat, previousEnd: nat)

  datatype World = World(s: Service, radio: Radio, clock: nat, releasedAt: nat, log: seq<Retry>)

  const START := World(INITIAL, QUIET, 0, 0, [])

  /** What the three cleanup calls answer, and how long they take. */
  datatype Hardware = Hardware(scanStopped: bool, disconnected: bool, off: bool, took: nat)

  datatype Event =
    | StartRequest(operation: Operation, config: WifiConfig, started: bool)
    | Close(id: u64)
    | Tick(poll: int, snap: Snapshot)

  datatype Timed = Timed(at: nat, event: Event, hw: Hardware)

  function Clean(hw: Hardware, at: nat): Cleanup {
    Cleanup(hw.scanStopped, hw.disconnected, hw.off, Millis(at + hw.took))
  }

  function Serviced(s: Service, t: Timed): Service {
    var c := Clean(t.hw, t.at);
    match t.event
    case StartRequest(operation, config, started) =>
      if Available(s) != Ready || operation == NoOperation then s
      else Started(s, operation, config, Millis(t.at), started, c)
    case Close(id) => Closed(s, id, c)
    case Tick(poll, snap) => Ticked(s, poll, snap, Millis(t.at), c)
  }

  predicate IsStart(s: Service, t: Timed) {
    t.event.StartRequest? && Available(s) == Ready && t.event.operation != NoOperation
  }

  /** The adapter shows this very request connected, with a usable address. */
  predicate Up(s: Service, snap: Snapshot) { snap.requestId == s.requestId && snap.link == LinkConnected && HasIp(snap.ip) }

  /** The adapter shows this very request failed. */
  predicate Down(s: Service, snap: Snapshot) { snap.requestId == s.requestId && snap.link == LinkFailed }

  /** Whether this event performs the cleanup calls. */
  predicate Releases(s: Service, t: Timed) {
    match t.event
    case StartRequest(_, _, started) => IsStart(s, t) && !started
    case Close(id) => id != 0 && id == s.requestId && s.phase != Off
    case Tick(poll, snap) =>
      match s.phase
      case ReleaseFailed => RetryDue(s, Millis(t.at))
      case Scanning => poll != -1 || Elapsed(Millis(t.at), s.since) >= SCAN_TIMEOUT_MS
      case Connecting =>
        if Up(s, snap) then s.operation == Test else Down(s, snap) || Elapsed(Millis(t.at), s.since) >= CONNECT_TIMEOUT_MS
      case Connected => if Up(s, snap) then s.operation == Test else true
      case Off => false
      case Releasing => false
  }

  predicate IsRetry(s: Service, t: Timed) { t.event.Tick? && RetryDue(s, Millis(t.at)) }

  /** A scan is stopped only for scan requests; each step that answers true ends what it is about. */
  function AfterCleanup(r: Radio, operation: Operation, hw: Hardware): Radio {
    Radio(r.scanning && !(operation == Scan && hw.scanStopped), r.credentials && !hw.disconnected, r.on && !hw.off)
  }

  function AfterStart(r: Radio, operation: Operation): Radio {
    if operation == Scan then r.(scanning := true, on := true) else r.(credentials := true, on := true)
  }

  function Step(w: World, t: Timed): World {
    var s' := Serviced(w.s, t);
    var radio := if IsStart(w.s, t) then AfterStart(w.radio, t.event.operation) else w.radio;
    var releases := Releases(w.s, t);
    World(s',
          if releases then AfterCleanup(radio, s'.operation, t.hw) else radio,
          if releases then t.at + t.hw.took else t.at,
          if releases then t.at + t.hw.took else w.releasedAt,
          if IsRetry(w.s, t) then w.log + [Retry(w.s.requestId, RELEASE_RETRIES + 1 - w.s.retriesLeft, t.at, w.releasedAt)] else w.log)
  }

  function Run(w: World, events: seq<Timed>): World {
    if events == [] then w else Step(Run(w, events[..|events| - 1]), events[|events| - 1])
  }

  /** Each event comes no earlier than the end of the call before it. */
  ghost predicate Ordered(w: World, events: seq<Timed>) {
    forall i :: 0 <= i < |events| ==> Run(w, events[..i]).clock <= events[i].at
  }

  // ---------------------------------------------------------------- what every step keeps

  ghost predicate PhaseInv(s: Service) {
    && s.requestId == s.lastId && s.phase != Releasing
    && (s.requestId == 0 ==> s.phase == Off && s.outcome == NoOutcome)
    && (s.requestId != 0 ==> s.operation != NoOperation)
    && (s.phase == Scanning ==> s.operation == Scan && s.outcome == NoOutcome)
    && (s.phase == Connecting ==> s.operation != Scan && s.outcome == NoOutcome)
    && (s.phase == Connected ==> s.operation == Module && s.outcome == Succeeded)
    && ((s.phase == Off || s.phase == ReleaseFailed) && s.requestId != 0 ==> s.outcome != NoOutcome)
  }

  ghost predicate BudgetInv(s: Service) {
    && s.retriesLeft <= RELEASE_RETRIES
    && (s.phase == ReleaseFailed ==> s.retryRequestId == s.requestId)
    && (s.phase != ReleaseFailed ==> s.retryRequestId == 0 && s.retriesLeft == 0)
    && (s.retryPending <==> s.phase == ReleaseFailed && s.retriesLeft > 0)
  }

  /** Off means that everything the last request could have left running was ended; a scan only ever runs for a scan request. */
  ghost predicate RadioInv(w: World) {
    && (w.s.phase == Off ==> w.radio == QUIET)
    && (w.radio.scanning ==> w.s.operation == Scan)
  }

  predicate Before(a: Retry, b: Retry) {
    a.requestId < b.requestId || (a.requestId == b.requestId && a.number < b.number)
  }

  predicate WellSpaced(a: Retry) {
    1 <= a.number <= RELEASE_RETRIES && a.previousEnd + RELEASE_RETRY_MS <= a.at
  }

  ghost predicate LogInv(w: World) {
    && (forall i, j :: 0 <= i < j < |w.log| ==> Before(w.log[i], w.log[j]))
    && (forall i :: 0 <= i < |w.log| ==>
          && WellSpaced(w.log[i]) && w.log[i].requestId <= w.s.requestId
          && (w.log[i].requestId == w.s.requestId ==>
                w.s.phase in {Off, ReleaseFailed} && (w.s.phase == ReleaseFailed ==> w.log[i].number <= RELEASE_RETRIES - w.s.retriesLeft)))
  }

  ghost predicate Inv(w: World) {
    && PhaseInv(w.s) && BudgetInv(w.s) && RadioInv(w) && LogInv(w)
    && w.releasedAt <= w.clock && w.s.lastReleaseMs == Millis(w.releasedAt)
  }

  /** The fates of one request. */
  predicate OutcomeMay(before: Outcome, after: Outcome) {
    before == after || before == NoOutcome || (before == Succeeded && after == Disconnected)
  }

  /** One event seen from outside. */
  ghost predicate Lawful(s: Service, t: Timed, s': Service) {
    && (IsStart(s, t) ==> s.phase == Off && s'.requestId == s.requestId + 1 && s'.outcome in {NoOutcome, Failed})
    && (!IsStart(s, t) ==> s'.requestId == s.requestId && OutcomeMay(s.outcome, s'.outcome))
    && (!IsStart(s, t) && s.outcome == NoOutcome ==> s'.outcome != Disconnected)
    && (t.event.Close? && (t.event.id == 0 || t.event.id != s.requestId) ==> s' == s)
    && (s.phase == Off && !IsStart(s, t) ==> s' == s)
  }

  lemma ServicedInv(s: Service, t: Timed)
    requires PhaseInv(s) && BudgetInv(s)
    ensures PhaseInv(Serviced(s, t)) && BudgetInv(Serviced(s, t)) && Lawful(s, t, Serviced(s, t))
  {
    match t.event
    case StartRequest(operation, config, started) =>
    case Close(id) =>
    case Tick(poll, snap) => TickInv(s, poll, snap, Millis(t.at), Clean(t.hw, t.at));
  }

  lemma TickInv(s: Service, poll: int, snap: Snapshot, now: u32, c: Cleanup)
    requires PhaseInv(s) && BudgetInv(s)
    ensures var s' := Ticked(s, poll, snap, now, c);
            && PhaseInv(s') && BudgetInv(s') && s'.requestId == s.requestId && OutcomeMay(s.outcome, s'.outcome)
            && (s.outcome == NoOutcome ==> s'.outcome != Disconnected) && (s.phase == Off ==> s' == s)
  {}

  lemma RadioStep(w: World, t: Timed)
    requires Inv(w)
    ensures RadioInv(Step(w, t))
  {
    ServicedInv(w.s, t);
    ReleaseShape(w.s, t);
  }

  /** A service that has just released is off exactly if its cleanup succeeded; otherwise an off service did nothing. */
  lemma ReleaseShape(s: Service, t: Timed)
    requires PhaseInv(s) && BudgetInv(s)
    ensures var s' := Serviced(s, t);
            && (Releases(s, t) ==> (s'.lastReleaseMs == Millis(t.at + t.hw.took)
                                    && s'.phase == if CleanedUp(s', Clean(t.hw, t.at)) then Off else ReleaseFailed))
            && (!Releases(s, t) ==> s'.lastReleaseMs == s.lastReleaseMs && (s'.phase == Off ==> s' == s))
            && (IsStart(s, t) ==> s'.operation == t.event.operation)
            && (!IsStart(s, t) ==> s'.operation == s.operation)
            && (IsRetry(s, t) ==> Releases(s, t))
  {
    match t.event
    case StartRequest(operation, config, started) =>
    case Close(id) =>
    case Tick(poll, snap) =>
  }

  lemma LogStep(w: World, t: Timed)
    requires Inv(w) && w.clock <= t.at
    ensures LogInv(Step(w, t))
  {
    ServicedInv(w.s, t);
    if IsRetry(w.s, t) {
      ElapsedAtMost(t.at, w.releasedAt);
    }
    BudgetStep(w.s, t);
  }

  /** What remains of a budget only shrinks, by one with every automatic retry. */
  lemma BudgetStep(s: Service, t: Timed)
    requires PhaseInv(s) && BudgetInv(s)
    ensures var s' := Serviced(s, t);
            && (IsRetry(s, t) ==> s.phase == ReleaseFailed && s'.phase in {Off, ReleaseFailed})
            && (IsRetry(s, t) && s'.phase == ReleaseFailed ==> s'.retriesLeft == s.retriesLeft - 1)
            && (!IsRetry(s, t) && !IsStart(s, t) && s.phase == ReleaseFailed ==>
                  s'.phase in {Off, ReleaseFailed} && (s'.phase == ReleaseFailed ==> s'.retriesLeft == s.retriesLeft))
            && (s.phase == Off && !IsStart(s, t) ==> s' == s)
  {
    match t.event
    case StartRequest(operation, config, started) =>
    case Close(id) =>
    case Tick(poll, snap) =>
  }

  lemma StepInv(w: World, t: Timed)
    requires Inv(w) && w.clock <= t.at
    ensures Inv(Step(w, t)) && Lawful(w.s, t, Step(w, t).s)
  {
    ServicedInv(w.s, t);
    ReleaseShape(w.s, t);
    RadioStep(w, t);
    LogStep(w, t);
  }

  lemma {:induction false} RunInv(w: World, events: seq<Timed>)
    requires Inv(w) && Ordered(w, events)
    ensures Inv(Run(w, events))
  {
    if events != [] {
      var before := events[..|events| - 1];
      assert forall i :: 0 <= i < |before| ==> before[..i] == events[..i];
      RunInv(w, before);
      assert Run(w, events[..|events| - 1]).clock <= events[|events| - 1].at;
      StepInv(Run(w, before), events[|events| - 1]);
    }
  }

  // ---------------------------------------------------------------- what every run guarantees

  /**
   Ownership, in every run over any adapter: a start is issued only from the off phase; off means that nothing a request
   started can still be running; ids grow by one per start and stale or zero ids change nothing; and each event moves
   an outcome only as `Lawful` says.
   */
  lemma Ownership(events: seq<Timed>, t: Timed)
    requires Ordered(START, events) && Run(START, events).clock <= t.at
    ensures var w := Run(START, events);
            && (w.s.phase == Off ==> w.radio == QUIET)
            && Lawful(w.s, t, Step(w, t).s)
            && (w.s.retryPending <==> w.s.phase == ReleaseFailed && w.s.retriesLeft > 0)
  {
    RunInv(START, events);
    StepInv(Run(START, events), t);
  }

  /** As long as a request stays the latest, its outcome goes from none to one fate, or to success and then disconnection. */
  lemma {:induction false} OutcomeHistory(w: World, events: seq<Timed>)
    requires Inv(w) && Ordered(w, events)
    requires Run(w, events).s.requestId == w.s.requestId
    ensures OutcomeMay(w.s.outcome, Run(w, events).s.outcome)
  {
    IdsGrow(w, events);
    if events != [] {
      var before := events[..|events| - 1];
      assert forall i :: 0 <= i < |before| ==> before[..i] == events[..i];
      IdsGrow(w, before);
      var v := Run(w, before);
      assert Run(w, events[..|events| - 1]).clock <= events[|events| - 1].at;
      RunInv(w, before);
      StepInv(v, events[|events| - 1]);
      OutcomeHistory(w, before);
    }
  }

  lemma {:induction false} IdsGrow(w: World, events: seq<Timed>)
    requires Inv(w) && Ordered(w, events)
    ensures w.s.requestId <= Run(w, events).s.requestId
  {
    if events != [] {
      var before := events[..|events| - 1];
      assert forall i :: 0 <= i < |before| ==> before[..i] == events[..i];
      IdsGrow(w, before);
      RunInv(w, before);
      assert Run(w, events[..|events| - 1]).clock <= events[|events| - 1].at;
      StepInv(Run(w, before), events[|events| - 1]);
    }
  }

  /**
   The release budget, in every run: automatic retries are numbered 1 to at most 3 within their request, whatever
   manual closes come between, and each starts at least 1000 ms of true time after the previous attempt ended.
   */
  lemma ReleaseBudget(events: seq<Timed>)
    requires Ordered(START, events)
    ensures var log := Run(START, events).log;
            && (forall i, j :: 0 <= i < j < |log| ==> Before(log[i], log[j]))
            && (forall i :: 0 <= i < |log| ==> WellSpaced(log[i]))
            && (forall i :: 0 <= i < |log| - RELEASE_RETRIES ==> log[i].requestId < log[i + RELEASE_RETRIES].requestId)
  {
    RunInv(START, events);
    var log := Run(START, events).log;
    forall i | 0 <= i < |log| - RELEASE_RETRIES ensures log[i].requestId < log[i + RELEASE_RETRIES].requestId {
      assert Before(log[i], log[i + 1]) && Before(log[i + 1], log[i + 2]) && Before(log[i + 2], log[i + 3]);
    }
  }
}
