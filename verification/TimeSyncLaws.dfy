/** What each event makes the controller do: exactly when a time request is submitted, and what its end means. */
module TimeSyncLaws {
  import opened Common
  import opened ExecId
  import opened TimeSync
  import opened TimeSyncRuns

  /** A sync is due: never done for this computer, asked for, or an hour old. */
  predicate Wanted(s: Sync, computer: string, now: u32) {
    !s.synced || s.successComputer != computer || s.needsSync || s.successAge + Elapsed(now, s.lastAgeTick) >= 3_600_000
  }

  /** This event submits attempt number `attempt` of that round, under the next identity, and nothing else. */
  predicate Submits(w: World, w': World, at: nat, round: nat, attempt: nat, sent: bool) {
    && w.s.lastId < MAX_ID && w'.s.lastId == w.s.lastId + 1 && w'.round == round && w'.s.attempts == attempt
    && w'.log == w.log + [Submission(at, round, attempt, w.failedAt)]
    && if sent then w'.s.inFlight == Printed(w.s.lastId + 1) && w'.s.startedAt == Millis(at) && !w'.s.retryPending
       else GivesUp(w', at, attempt)
  }

  /** The attempt is over without success; another follows unless it was the third. */
  predicate GivesUp(w': World, at: nat, attempt: nat) {
    w'.s.inFlight == "" && w'.s.needsSync && w'.failedAt == at && w'.s.retryPending == (attempt < 3)
  }

  predicate Quietly(w: World, w': World) { w'.log == w.log && w'.round <= w.round + 1 }

  /** The session is that of this hello. */
  predicate InSession(s: Sync, computer: string, supported: bool) { s.ready && s.computer == computer && s.supported == supported }

  /**
   A hello starts a round at once if it is the first, of another computer or brings the capability, a sync is due and nothing is
   under way that it leaves alone.
   */
  predicate HelloLaw(w: World, w': World, at: nat, computer: string, supported: bool, sent: bool) {
    var s, now := w.s, Millis(at);
    var ends, news := Ends(s, computer, supported), News(s, computer, supported);
    var idle := ends || (s.inFlight == "" && !s.retryPending);
    && InSession(w'.s, computer, supported)
    && if news && supported && TaskEnabled(s) && idle && (Wanted(s, computer, now) || (ends && s.inFlight != "")) && s.lastId < MAX_ID
       then Submits(w, w', at, w.round + 1, 1, sent)
       else Quietly(w, w') && (s.lastId < MAX_ID ==> w'.s.inFlight == (if ends then "" else s.inFlight) && w'.s.retryPending == (!ends && s.retryPending))
  }

  /** A tick gives up a request after fifteen seconds, and repeats a failed one three seconds after its failure. */
  predicate TickLaw(w: World, w': World, at: nat, sent: bool) {
    var s, now := w.s, Millis(at);
    if s.inFlight != "" then
      Quietly(w, w') && w'.s.lastId == s.lastId
      && if Elapsed(now, s.startedAt) >= 15_000
         then w'.s.inFlight == "" && w'.s.needsSync && w'.failedAt == at && w'.s.retryPending == (TaskEnabled(s) && s.attempts < 3)
         else w'.s.inFlight == s.inFlight && w'.s.startedAt == s.startedAt
    else if s.retryPending && TaskEnabled(s) && s.ready && s.supported && Elapsed(now, s.failedAt) >= 3_000 && s.lastId < MAX_ID
    then Submits(w, w', at, w.round, s.attempts + 1, sent)
    else Quietly(w, w') && w'.s.inFlight == ""
  }

  /** The task starts a round every hour of its interval if it can. */
  predicate SchedulerLaw(w: World, w': World, at: nat, sent: bool) {
    var s, now := w.s, Millis(at);
    var due := TaskEnabled(s) && Elapsed(now, s.task.value.since) >= 3_600_000;
    && (due ==> w'.s.task == Some(SyncTask(true, now)) && w'.s.needsSync)
    && if due && s.ready && s.supported && s.inFlight == "" && !s.retryPending && s.lastId < MAX_ID
       then Submits(w, w', at, w.round + 1, 1, sent) else Quietly(w, w') && w'.s.lastId == s.lastId
  }

  /** Only the answer to the request in flight counts; in time, OK and taken over it is a success, otherwise the attempt is over. */
  predicate AnswerLaw(w: World, w': World, at: nat, execId: string, ok: bool, applied: bool) {
    var s, now := w.s, Millis(at);
    && Quietly(w, w')
    && if s.inFlight == "" || execId != s.inFlight then w'.s == s
       else if Elapsed(now, s.startedAt) < 15_000 && ok && applied then
         && w'.s.inFlight == "" && !w'.s.retryPending && !w'.s.needsSync && w'.s.synced && w'.s.successComputer == s.computer
         && w'.s.successAge == 0 && w'.successAt == at && (TaskEnabled(s) ==> w'.s.task == Some(SyncTask(true, now)))
       else GivesUp(w', at, s.attempts) && w'.s.synced == s.synced && w'.s.successComputer == s.successComputer
  }

  predicate EventLaw(w: World, w': World, t: Timed) {
    match t.event
    case BeginTask =>
      Quietly(w, w') && w'.s.task == if w.s.task.Some? then w.s.task else Some(SyncTask(true, Millis(t.at)))
    case Hello(computer, supported, sent) => HelloLaw(w, w', t.at, computer, supported, sent)
    case Lost => Quietly(w, w') && !w'.s.ready && !w'.s.supported && w'.s.inFlight == "" && !w'.s.retryPending
                 && (w'.s.needsSync <==> w.s.needsSync || w.s.inFlight != "")
    case Tick(sent) => TickLaw(w, w', t.at, sent)
    case SchedulerTick(sent) => SchedulerLaw(w, w', t.at, sent)
    case Answer(execId, ok, applied) => AnswerLaw(w, w', t.at, execId, ok, applied)
    case Toggle(enabled) =>
      && Quietly(w, w')
      && w'.s.task == if w.s.task.Some? && enabled != w.s.task.value.enabled
                      then Some(SyncTask(enabled, if enabled then Millis(t.at) else w.s.task.value.since)) else w.s.task
    case Elsewhere => Quietly(w, w') && w'.s == w.s.(lastId := w'.s.lastId)
  }

  /** The hello ends what was under way, and it is news. */
  predicate Ends(s: Sync, computer: string, supported: bool) { s.computer != computer || (s.supported && !supported) }

  predicate News(s: Sync, computer: string, supported: bool) { !s.ready || s.computer != computer || (!s.supported && supported) }

  lemma GreetingMeans(s: Sync, computer: string, supported: bool, now: u32)
    requires RoundInv(s)
    ensures GreetingTriggers(s, computer, supported, now) <==>
              && News(s, computer, supported) && supported && TaskEnabled(s)
              && (Wanted(s, computer, now) || (Ends(s, computer, supported) && s.inFlight != ""))
    ensures var g := Greeted(s, computer, supported, now);
            && InSession(g, computer, supported) && g.task == s.task && g.lastId == s.lastId
            && g.inFlight == (if Ends(s, computer, supported) then "" else s.inFlight)
            && g.retryPending == (!Ends(s, computer, supported) && s.retryPending)
  {}

  lemma HelloMeans(w: World, at: nat, computer: string, supported: bool, sent: bool)
    requires Inv(w)
    ensures HelloLaw(w, Step(w, Timed(at, Hello(computer, supported, sent))), at, computer, supported, sent)
  {
    var g := w.(clock := at, s := Greeted(w.s, computer, supported, Millis(at)), ageAt := at);
    GreetingMeans(w.s, computer, supported, Millis(at));
    if GreetingTriggers(w.s, computer, supported, Millis(at)) { DispatchMeans(g, at, sent); }
  }

  lemma DispatchMeans(w: World, at: nat, sent: bool)
    requires TaskEnabled(w.s)
    ensures var w' := Dispatch(w, at, sent);
            && w'.s.ready == w.s.ready && w'.s.computer == w.s.computer && w'.s.supported == w.s.supported
            && if w.s.ready && w.s.supported && w.s.inFlight == "" && !w.s.retryPending && w.s.lastId < MAX_ID
               then Submits(w, w', at, w.round + 1, 1, sent)
               else Quietly(w, w') && (w.s.lastId < MAX_ID ==> w'.s.inFlight == w.s.inFlight && w'.s.retryPending == w.s.retryPending)
  {}

  lemma TickMeans(w: World, at: nat, sent: bool)
    requires Inv(w)
    ensures TickLaw(w, Step(w, Timed(at, Tick(sent))), at, sent)
  {}

  lemma SchedulerMeans(w: World, at: nat, sent: bool)
    requires Inv(w)
    ensures SchedulerLaw(w, Step(w, Timed(at, SchedulerTick(sent))), at, sent)
  {}

  lemma AnswerMeans(w: World, at: nat, execId: string, ok: bool, applied: bool)
    requires Inv(w)
    ensures AnswerLaw(w, Step(w, Timed(at, Answer(execId, ok, applied))), at, execId, ok, applied)
  {}

  lemma OtherMeans(w: World, t: Timed)
    requires Inv(w) && (t.event.BeginTask? || t.event.Lost? || t.event.Toggle? || t.event.Elsewhere?)
    ensures EventLaw(w, Step(w, t), t)
  {}

  lemma EventMeans(w: World, t: Timed)
    requires Inv(w)
    ensures EventLaw(w, Step(w, t), t)
  {
    match t.event
    case Hello(computer, supported, sent) => HelloMeans(w, t.at, computer, supported, sent);
    case Tick(sent) => TickMeans(w, t.at, sent);
    case SchedulerTick(sent) => SchedulerMeans(w, t.at, sent);
    case Answer(execId, ok, applied) => AnswerMeans(w, t.at, execId, ok, applied);
    case _ => OtherMeans(w, t);
  }

  /** In every run, every event does what the laws say: a request is submitted exactly when they say so. */
  lemma EveryEventMeans(events: seq<Timed>, t: Timed)
    requires Ordered(0, events)
    ensures EventLaw(Run(START, events), Step(Run(START, events), t), t)
  {
    RunKeeps(START, events);
    EventMeans(Run(START, events), t);
  }
}
