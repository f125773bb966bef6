/**
 What every event means for the request: each outcome has its cause, a module's connection is kept, and the radio is cleaned up
 exactly when a request is over.
 */
module WifiLaws {
  import opened Common
  import opened Wifi
  import opened WifiRuns

  /** The cleanup of a request of this kind was a success. */
  predicate Clears(operation: Operation, hw: Hardware) { (operation == Scan ==> hw.scanStopped) && hw.disconnected && hw.off }

  /** The request is over with this outcome, and everything it may have left running has been cleaned up as far as the hardware would. */
  predicate Ends(w: World, w': World, t: Timed, outcome: Outcome, ip: seq<byte>, budget: nat) {
    && w'.s.outcome == outcome && w'.s.ip == ip && w'.s.operation == w.s.operation && w'.s.requestId == w.s.requestId
    && CleansUp(w.radio, w', w.s.operation, t, budget)
  }

  /** The three cleanup calls were made, and did what they say; credentials and tries are kept only for another try. */
  predicate CleansUp(radio: Radio, w': World, operation: Operation, t: Timed, budget: nat) {
    && w'.s.phase == (if Clears(operation, t.hw) then Off else ReleaseFailed)
    && (w'.s.phase == Off ==> w'.s.attempt == NO_CONFIG) && w'.s.retriesLeft == (if w'.s.phase == Off then 0 else budget)
    && w'.radio.scanning == (radio.scanning && !(operation == Scan && t.hw.scanStopped))
    && w'.radio.credentials == (radio.credentials && !t.hw.disconnected) && w'.radio.on == (radio.on && !t.hw.off)
    && w'.s.lastReleaseMs == Millis(t.at + t.hw.took) && w'.releasedAt == w'.clock == t.at + t.hw.took
  }

  /** No cleanup call is made, and the request is what it was but for the link. */
  predicate Stays(w: World, w': World, t: Timed) { w'.radio == w.radio && w'.releasedAt == w.releasedAt && w'.clock == t.at }

  /** A tick while a link is being made or is there. */
  predicate LinkLaw(w: World, w': World, t: Timed, snap: Snapshot) {
    if Up(w.s, snap) then
      if w.s.operation == Test then Ends(w, w', t, Succeeded, snap.ip, 3)
      else w'.s == w.s.(phase := Connected, outcome := Succeeded, ip := snap.ip) && Stays(w, w', t)
    else if w.s.phase == Connected then Ends(w, w', t, Disconnected, w.s.ip, 3)
    else if Down(w.s, snap) then Ends(w, w', t, Failed, w.s.ip, 3)
    else if Elapsed(Millis(t.at), w.s.since) >= 30_000 then Ends(w, w', t, Outcome.TimedOut, w.s.ip, 3)
    else w'.s == w.s && Stays(w, w', t)
  }

  /** A tick while a scan runs; `poll` is the number of results, -1 while it goes on, another negative number if it failed. */
  predicate ScanLaw(w: World, w': World, t: Timed, poll: int) {
    if poll >= 0 then Ends(w, w', t, Succeeded, w.s.ip, 3)
    else if poll < -1 then Ends(w, w', t, Failed, w.s.ip, 3)
    else if Elapsed(Millis(t.at), w.s.since) >= 15_000 then Ends(w, w', t, Outcome.TimedOut, w.s.ip, 3)
    else w'.s == w.s && Stays(w, w', t)
  }

  /** After a failed cleanup: another try, at most three times and a second after the last, changes nothing else of the request. */
  predicate RetryLaw(w: World, w': World, t: Timed) {
    if w.s.retriesLeft > 0 && Elapsed(Millis(t.at), w.s.lastReleaseMs) >= 1000 then
      Ends(w, w', t, w.s.outcome, w.s.ip, w.s.retriesLeft - 1)
    else w'.s == w.s && Stays(w, w', t)
  }

  predicate TickLaw(w: World, w': World, t: Timed, poll: int, snap: Snapshot) {
    match w.s.phase
    case Off => w'.s == w.s && Stays(w, w', t)
    case Scanning => ScanLaw(w, w', t, poll)
    case Connecting => LinkLaw(w, w', t, snap)
    case Connected => LinkLaw(w, w', t, snap)
    case Releasing => false
    case ReleaseFailed => RetryLaw(w, w', t)
  }

  /** A start makes a new request of what was asked for; one the adapter refuses has failed at once. */
  predicate StartLaw(w: World, w': World, t: Timed, operation: Operation, config: WifiConfig, started: bool) {
    if w.s.phase != Off || w.s.lastId == LAST_ID || operation == NoOperation then w'.s == w.s && Stays(w, w', t)
    else
      && w'.s.requestId == w.s.requestId + 1 && w'.s.operation == operation && w'.s.ssid == config.ssid && w'.s.ip == []
      && if started then
           && w'.s.phase == (if operation == Scan then Scanning else Connecting) && w'.s.outcome == NoOutcome && w'.s.attempt == config
           && w'.s.since == Millis(t.at) && w'.releasedAt == w.releasedAt && w'.clock == t.at
           && w'.radio == Radio(operation == Scan || w.radio.scanning, operation != Scan || w.radio.credentials, true)
         else
           w'.s.outcome == Failed
           && CleansUp(Radio(operation == Scan || w.radio.scanning, operation != Scan || w.radio.credentials, true), w', operation, t, 3)
  }

  /** Closing the current request cancels it if nothing has been decided, and cleans up; any other identity does nothing. */
  predicate CloseLaw(w: World, w': World, t: Timed, id: u64) {
    if id == 0 || id != w.s.requestId || w.s.phase == Off then w'.s == w.s && Stays(w, w', t)
    else Ends(w, w', t, if w.s.outcome == NoOutcome then Cancelled else w.s.outcome, w.s.ip,
              if w.s.phase == ReleaseFailed then w.s.retriesLeft else 3)
  }

  predicate EventLaw(w: World, w': World, t: Timed) {
    match t.event
    case StartRequest(operation, config, started) => StartLaw(w, w', t, operation, config, started)
    case Close(id) => CloseLaw(w, w', t, id)
    case Tick(poll, snap) => TickLaw(w, w', t, poll, snap)
  }

  /** What a caller is told before anything is started. */
  lemma AvailabilityMeans(s: Service)
    requires PhaseInv(s)
    ensures match Available(s)
            case Ready => s.phase == Off && s.lastId < LAST_ID
            case IdsExhausted => s.phase == Off && s.lastId == LAST_ID
            case Busy => s.phase == Scanning || s.phase == Connecting || s.phase == Connected
            case ReleaseFailedNow => s.phase == ReleaseFailed
            case _ => false
  {}

  lemma StartMeans(w: World, t: Timed)
    requires Inv(w) && t.event.StartRequest?
    ensures EventLaw(w, Step(w, t), t)
  {}

  lemma CloseMeans(w: World, t: Timed)
    requires Inv(w) && t.event.Close?
    ensures EventLaw(w, Step(w, t), t)
  {}

  lemma LinkMeans(w: World, t: Timed)
    requires Inv(w) && t.event.Tick? && (w.s.phase == Connecting || w.s.phase == Connected)
    ensures LinkLaw(w, Step(w, t), t, t.event.snap)
  {}

  lemma ScanMeans(w: World, t: Timed)
    requires Inv(w) && t.event.Tick? && w.s.phase == Scanning
    ensures ScanLaw(w, Step(w, t), t, t.event.poll)
  {}

  lemma RetryMeans(w: World, t: Timed)
    requires Inv(w) && t.event.Tick? && w.s.phase == ReleaseFailed
    ensures RetryLaw(w, Step(w, t), t)
  {}

  lemma EventMeans(w: World, t: Timed)
    requires Inv(w)
    ensures EventLaw(w, Step(w, t), t)
  {
    match t.event
    case StartRequest(_, _, _) => StartMeans(w, t);
    case Close(_) => CloseMeans(w, t);
    case Tick(_, _) =>
      if w.s.phase == Scanning { ScanMeans(w, t); }
      if w.s.phase == Connecting || w.s.phase == Connected { LinkMeans(w, t); }
      if w.s.phase == ReleaseFailed { RetryMeans(w, t); }
  }

  /** In every run over any adapter, every event does what the laws say and nothing else. */
  lemma EveryEventMeans(events: seq<Timed>, t: Timed)
    requires Ordered(START, events)
    ensures EventLaw(Run(START, events), Step(Run(START, events), t), t)
  {
    RunInv(START, events);
    EventMeans(Run(START, events), t);
  }

  /** Ticks, all of which find the request connected. */
  ghost predicate AllUp(s: Service, ticks: seq<Timed>) {
    forall i :: 0 <= i < |ticks| ==> ticks[i].event.Tick? && Up(s, ticks[i].event.snap)
  }

  /** Since w the request has only been found connected, last at this address. */
  predicate Kept(w: World, v: World) {
    && v.radio == w.radio && v.releasedAt == w.releasedAt
    && (v.s == w.s || v.s == w.s.(phase := Connected, outcome := Succeeded, ip := v.s.ip))
  }

  lemma KeptOnce(w: World, v: World, t: Timed)
    requires w.s.operation == Module && (w.s.phase == Connecting || w.s.phase == Connected) && Kept(w, v) && Inv(v)
    requires t.event.Tick? && Up(w.s, t.event.snap)
    ensures Kept(w, Step(v, t)) && Step(v, t).s.phase == Connected && Step(v, t).s.outcome == Succeeded && Step(v, t).s.ip == t.event.snap.ip
  {
    LinkMeans(v, t);
  }

  /** A module's request keeps its connection, its credentials and the radio for as long as the adapter shows it up. */
  lemma {:induction false} ConnectionKept(w: World, ticks: seq<Timed>)
    requires Inv(w) && Ordered(w, ticks) && w.s.operation == Module && (w.s.phase == Connecting || w.s.phase == Connected) && AllUp(w.s, ticks)
    ensures var v := Run(w, ticks);
            && Kept(w, v)
            && (ticks != [] ==> v.s.phase == Connected && v.s.outcome == Succeeded && v.s.ip == ticks[|ticks| - 1].event.snap.ip)
  {
    if ticks != [] {
      var n := |ticks| - 1;
      assert forall i :: 0 <= i < n ==> ticks[..n][..i] == ticks[..i];
      ConnectionKept(w, ticks[..n]);
      RunInv(w, ticks[..n]);
      KeptOnce(w, Run(w, ticks[..n]), ticks[n]);
    }
  }
}
