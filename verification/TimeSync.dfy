/**
 Time synchronisation: bounded retry rounds over the scheduler's hourly task, and the age of the last success.
 The 32-bit stamps of the controller are followed by unbounded times in `World`, so that statements about
 an hour, or about three seconds, hold in true time however often the clock wraps.
 */
module TimeSync {
  import opened Common
  import opened ExecId

  const SYNC_INTERVAL_MS: u32 := 3_600_000
  const REQUEST_TIMEOUT_MS := 15_000
  const RETRY_DELAY_MS := 3_000
  const MAX_ATTEMPTS := 3

  /** The scheduler's slot of this task; `Scheduler.UntouchedTask` is what a tick does with it. */
  datatype SyncTask = SyncTask(enabled: bool, since: u32)

  datatype Sync = Sync(
    computer: string, successComputer: string, inFlight: string,
    ready: bool, supported: bool, needsSync: bool, retryPending: bool,
    startedAt: u32, failedAt: u32, lastAgeTick: u32, successAge: u32, attempts: nat,
    synced: bool, task: Option<SyncTask>, lastId: u64)

  const INITIAL := Sync("", "", "", false, false, true, false, 0, 0, 0, 0, 0, false, None, 0)

  predicate TaskEnabled(s: Sync) { s.task.Some? && s.task.value.enabled }

  function Begun(s: Sync, now: u32): Sync {
    if s.task.Some? then s else s.(task := Some(SyncTask(true, now)), lastAgeTick := now)
  }

  function UpdatedAge(s: Sync, now: u32): Sync {
    var age := if !s.synced || s.successAge > SYNC_INTERVAL_MS then s.successAge
               else s.successAge + Min(Elapsed(now, s.lastAgeTick), SYNC_INTERVAL_MS - s.successAge);
    s.(successAge := age, needsSync := s.needsSync || (s.synced && age == SYNC_INTERVAL_MS), lastAgeTick := now)
  }

  function Failed(s: Sync, now: u32): Sync {
    s.(inFlight := "", needsSync := true, failedAt := now, retryPending := s.attempts < MAX_ATTEMPTS)
  }

  /** One attempt; `sent` is the queue's answer. A rejected submission counts too. */
  function Attempted(s0: Sync, now: u32, sent: bool): Sync {
    var s := s0.(attempts := s0.attempts + 1);
    if s.lastId == MAX_ID then Failed(s, now)
    else
      var s' := s.(lastId := s.lastId + 1);
      if !sent then Failed(s', now) else s'.(inFlight := Printed(s'.lastId), startedAt := now)
  }

  predicate StartsRound(s: Sync) {
    TaskEnabled(s) && s.ready && s.supported && s.inFlight == "" && !s.retryPending
  }

  function RoundStarted(s0: Sync, now: u32, sent: bool): Sync {
    var s := s0.(needsSync := true);
    if StartsRound(s) then Attempted(s.(attempts := 0), now, sent) else s
  }

  function Disconnected(s: Sync): Sync {
    s.(needsSync := s.needsSync || s.inFlight != "", inFlight := "", retryPending := false, ready := false, supported := false)
  }

  /** A valid hello, up to the decision whether to start a round at once. */
  function Greeted(s0: Sync, computer: string, supported: bool, now: u32): Sync {
    var s := UpdatedAge(s0, now);
    var s1 := if s.computer != computer || (s.supported && !supported) then Disconnected(s) else s;
    s1.(ready := true, supported := supported, computer := computer,
        needsSync := s1.needsSync || !s1.synced || s1.successComputer != computer)
  }

  /** A hello of another computer, or one that takes the capability away, disconnects first. */
  function RecalledByHello(s: Sync, computer: string, supported: bool): seq<string> {
    if s.computer != computer || (s.supported && !supported) then Recalled(s) else []
  }

  predicate GreetingTriggers(s: Sync, computer: string, supported: bool, now: u32) {
    var changed := !s.ready || s.computer != computer || (!s.supported && supported);
    var s' := Greeted(s, computer, supported, now);
    changed && s'.needsSync && s'.supported && TaskEnabled(s')
  }

  /** Triggering dispatches the task: it restarts the interval, then starts a round. */
  function Dispatched(s: Sync, now: u32, sent: bool): Sync
    requires s.task.Some?
  {
    RoundStarted(if s.task.value.enabled then s.(task := Some(SyncTask(true, now))) else s, now, sent)
  }

  function SessionReady(s: Sync, computer: string, supported: bool, now: u32, sent: bool): Sync {
    var s' := Greeted(s, computer, supported, now);
    if GreetingTriggers(s, computer, supported, now) then Dispatched(s', now, sent) else s'
  }

  predicate TimedOut(s: Sync, now: u32) { s.inFlight != "" && Elapsed(now, s.startedAt) >= REQUEST_TIMEOUT_MS }

  /** In every run (TimeSyncRuns.RoundsAreBounded): never both. */
  predicate RequestOrRetry(s: Sync) { s.inFlight == "" || !s.retryPending }

  /** The controller's tick before a due retry. */
  function Expired(s0: Sync, now: u32): Sync {
    var s := UpdatedAge(s0, now);
    var s1 := if TimedOut(s, now) then Failed(s, now) else s;
    if TaskEnabled(s1) then s1 else s1.(retryPending := false)
  }

  predicate RetryDue(s: Sync, now: u32) {
    s.retryPending && s.ready && s.supported && Elapsed(now, s.failedAt) >= RETRY_DELAY_MS
  }

  function Ticked(s0: Sync, now: u32, sent: bool): Sync {
    var s := Expired(s0, now);
    if RetryDue(s, now) then Attempted(s.(retryPending := false), now, sent) else s
  }

  predicate TaskDue(s: Sync, now: u32) {
    TaskEnabled(s) && Elapsed(now, s.task.value.since) >= SYNC_INTERVAL_MS
  }

  function SchedulerTicked(s: Sync, now: u32, sent: bool): Sync {
    if TaskDue(s, now) then Dispatched(s, now, sent) else s
  }

  function TaskToggled(s: Sync, enabled: bool, now: u32): Sync {
    if s.task.None? || s.task.value.enabled == enabled then s
    else s.(task := Some(SyncTask(enabled, if enabled then now else s.task.value.since)))
  }

  predicate Matches(s: Sync, execId: string) { s.inFlight != "" && execId == s.inFlight }

  /** The request to take back from the transmit queue, if one is in flight. */
  function Recalled(s: Sync): seq<string> { if s.inFlight == "" then [] else [s.inFlight] }

  predicate Succeeds(s: Sync, execId: string, ok: bool, applied: bool, now: u32) {
    Matches(s, execId) && Elapsed(now, s.startedAt) < REQUEST_TIMEOUT_MS && ok && applied
  }

  /** A time response; `applied` is whether the platform clock took the time. */
  function Answered(s: Sync, execId: string, ok: bool, applied: bool, now: u32): Sync {
    if !Matches(s, execId) then s
    else if !Succeeds(s, execId, ok, applied, now) then Failed(s, now)
    else Synced(s, now)
  }

  function Synced(s: Sync, now: u32): Sync { Rescheduled(Applied(s, now), now) }

  /** The request is over, and the age of its success starts now. */
  function Applied(s: Sync, now: u32): Sync {
    s.(inFlight := "", needsSync := false, retryPending := false, successComputer := s.computer, successAge := 0, lastAgeTick := now,
       synced := true)
  }

  /** The task's interval starts again. */
  function Rescheduled(s: Sync, now: u32): Sync {
    if s.task.Some? then s.(task := Some(SyncTask(s.task.value.enabled, now))) else s
  }

  // ---------------------------------------------------------------- the controller in place

  class TimeSyncController {
    var computer: string
    var successComputer: string
    var inFlight: string
    var ready: bool
    var supported: bool
    var needsSync: bool
    var retryPending: bool
    var startedAt: u32
    var failedAt: u32
    var lastAgeTick: u32
    var successAge: u32
    var attempts: nat
    var hasSynced: bool
    var task: Option<SyncTask>
    const ids: ExecIdGenerator
    /** The identities whose requests were taken back, in order. */
    ghost var recalled: seq<string>

    function Model(): Sync
      reads this, ids
    {
      Sync(computer, successComputer, inFlight, ready, supported, needsSync, retryPending,
           startedAt, failedAt, lastAgeTick, successAge, attempts, hasSynced, task, ids.last)
    }

    ghost predicate Valid()
      reads this
    {
      successAge <= SYNC_INTERVAL_MS
    }

    constructor (ids: ExecIdGenerator)
      ensures this.ids == ids && Valid() && Model() == INITIAL.(lastId := ids.last) && recalled == []
    {
      computer, successComputer, inFlight := "", "", "";
      ready, supported, needsSync, retryPending := false, false, true, false;
      startedAt, failedAt, lastAgeTick, successAge, attempts := 0, 0, 0, 0, 0;
      hasSynced, task := false, None;
      this.ids := ids;
      recalled := [];
    }

    method Begin(now: u32) returns (registered: bool)
      requires Valid()
      modifies this
      ensures Valid() && Model() == Begun(old(Model()), now) && registered == old(task).None? && recalled == old(recalled)
    {
      registered := task.None?;
      if registered {
        task := Some(SyncTask(true, now));
        lastAgeTick := now;
      }
    }

    method UpdateAge(now: u32)
      requires Valid()
      modifies this
      ensures Valid() && Model() == UpdatedAge(old(Model()), now) && recalled == old(recalled)
    {
      if hasSynced {
        successAge := successAge + Min(Elapsed(now, lastAgeTick), SYNC_INTERVAL_MS - successAge);
        if successAge == SYNC_INTERVAL_MS {
          needsSync := true;
        }
      }
      lastAgeTick := now;
    }

    method Disconnect()
      requires Valid()
      modifies this
      ensures Valid() && Model() == Disconnected(old(Model()))
      ensures recalled == old(recalled) + Recalled(old(Model()))
    {
      if inFlight != "" {
        recalled := recalled + [inFlight];
        needsSync := true;
      }
      inFlight := "";
      retryPending := false;
      ready := false;
      supported := false;
    }

    method Fail(now: u32)
      requires Valid()
      modifies this
      ensures Valid() && Model() == Failed(old(Model()), now)
      ensures recalled == old(recalled) + Recalled(old(Model()))
    {
      if inFlight != "" {
        recalled := recalled + [inFlight];
      }
      inFlight := "";
      needsSync := true;
      failedAt := now;
      retryPending := attempts < MAX_ATTEMPTS;
    }

    method Attempt(now: u32, sent: bool)
      requires Valid()
      modifies this, ids
      ensures Valid() && Model() == Attempted(old(Model()), now, sent)
      ensures old(inFlight) == "" ==> recalled == old(recalled)
    {
      var id := CountAttempt();
      if id.None? || !sent {
        Fail(now);
        return;
      }
      inFlight := id.value;
      startedAt := now;
    }

    /** The attempt counts before its request has an identity. */
    method CountAttempt() returns (id: Option<string>)
      requires Valid()
      modifies this`attempts, ids
      ensures Valid() && id == if old(ids.last) == MAX_ID then None else Some(Printed(ids.last))
      ensures Model() == old(Model()).(attempts := old(attempts) + 1, lastId := ids.last)
      ensures ids.last == if id.None? then old(ids.last) else old(ids.last) + 1
    {
      attempts := attempts + 1;
      id := ids.Next();
    }

    method StartRound(now: u32, sent: bool)
      requires Valid()
      modifies this, ids
      ensures Valid() && Model() == RoundStarted(old(Model()), now, sent) && recalled == old(recalled)
    {
      needsSync := true;
      if task.None? || !task.value.enabled || !ready || !supported || inFlight != "" || retryPending {
        return;
      }
      attempts := 0;
      Attempt(now, sent);
    }

    method OnSessionReady(helloComputer: string, helloSupported: bool, now: u32, sent: bool)
      requires Valid()
      modifies this, ids
      ensures Valid() && Model() == SessionReady(old(Model()), helloComputer, helloSupported, now, sent)
      ensures recalled == old(recalled) + RecalledByHello(old(Model()), helloComputer, helloSupported)
    {
      var changed := Greet(helloComputer, helloSupported, now);
      if changed && needsSync && supported && task.Some? && task.value.enabled {
        task := Some(SyncTask(true, now));
        StartRound(now, sent);
      }
    }

    method Greet(helloComputer: string, helloSupported: bool, now: u32) returns (changed: bool)
      requires Valid()
      modifies this
      ensures Valid() && Model() == Greeted(old(Model()), helloComputer, helloSupported, now)
      ensures recalled == old(recalled) + RecalledByHello(old(Model()), helloComputer, helloSupported)
      ensures changed == (!old(ready) || old(computer) != helloComputer || (!old(supported) && helloSupported))
    {
      UpdateAge(now);
      changed := !ready || computer != helloComputer || (!supported && helloSupported);
      if computer != helloComputer || (supported && !helloSupported) {
        Disconnect();
      }
      ready := true;
      supported := helloSupported;
      computer := helloComputer;
      if !hasSynced || successComputer != helloComputer {
        needsSync := true;
      }
    }

    method Tick(now: u32, sent: bool)
      requires Valid()
      modifies this, ids
      ensures Valid() && Model() == Ticked(old(Model()), now, sent)
      ensures old(RequestOrRetry(Model())) ==> recalled == old(recalled) + if old(TimedOut(Model(), now)) then old(Recalled(Model())) else []
    {
      UpdateAge(now);
      if inFlight != "" && Elapsed(now, startedAt) >= REQUEST_TIMEOUT_MS {
        Fail(now);
      }
      if task.None? || !task.value.enabled {
        retryPending := false;
        return;
      }
      if retryPending && ready && supported && Elapsed(now, failedAt) >= RETRY_DELAY_MS {
        retryPending := false;
        Attempt(now, sent);
      }
    }

    /** `isTimeResponse`: the message is a response to the time action. */
    method OnMessage(isTimeResponse: bool, execId: string, ok: bool, applied: bool, now: u32) returns (taken: bool)
      requires Valid()
      modifies this
      ensures Valid() && Model() == if isTimeResponse then Answered(old(Model()), execId, ok, applied, now) else old(Model())
      ensures taken == (isTimeResponse && Matches(old(Model()), execId) && Elapsed(now, old(startedAt)) < REQUEST_TIMEOUT_MS)
      ensures recalled == old(recalled) + if isTimeResponse && Matches(old(Model()), execId) && !Succeeds(old(Model()), execId, ok, applied, now)
                                          then [execId] else []
    {
      if !isTimeResponse {
        return false;
      }
      if inFlight == "" || execId != inFlight {
        return false;
      }
      if Elapsed(now, startedAt) >= REQUEST_TIMEOUT_MS {
        Fail(now);
        return false;
      }
      if !ok || !applied {
        Fail(now);
        return true;
      }
      Succeed(now);
      return true;
    }

    /** Only an applied time sets the next hourly deadline. */
    method Succeed(now: u32)
      requires Valid()
      modifies this
      ensures Valid() && Model() == Synced(old(Model()), now) && recalled == old(recalled)
    {
      Apply(now);
      Reschedule(now);
    }

    method Apply(now: u32)
      requires Valid()
      modifies this
      ensures Valid() && Model() == Applied(old(Model()), now) && recalled == old(recalled)
    {
      hasSynced, inFlight, needsSync, retryPending := true, "", false, false;
      successComputer, successAge, lastAgeTick := computer, 0, now;
    }

    method Reschedule(now: u32)
      requires Valid()
      modifies this`task
      ensures Valid() && Model() == Rescheduled(old(Model()), now)
    {
      if task.Some? {
        task := Some(SyncTask(task.value.enabled, now));
      }
    }
  }
}
