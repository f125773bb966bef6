/**
 The Wi-Fi service: one owner at a time over a fallible adapter. Replies of the adapter are parameters; what it
 is asked to do, and whether anything may still be running, is followed by `Radio`.
 */
module Wifi {
  import opened Common
  import opened ScanMerge
  import opened Utf8
  import opened Framing

  const SCAN_TIMEOUT_MS := 15_000
  const CONNECT_TIMEOUT_MS := 30_000
  const RELEASE_RETRY_MS := 1_000
  const RELEASE_RETRIES := 3

  datatype WifiConfig = WifiConfig(ssid: seq<byte>, username: seq<byte>, password: seq<byte>)

  const NO_CONFIG := WifiConfig([], [], [])

  predicate HexDigit(c: byte) { 48 <= c <= 57 || 97 <= c <= 102 || 65 <= c <= 70 }

  /** Enterprise accounts need a password; personal ones 8 to 63 printable ASCII bytes, or 64 hex digits, or none. */
  ghost predicate ValidConfig(c: WifiConfig) {
    && c.ssid != [] && IsText(c.ssid, 32) && IsText(c.username, 64) && IsText(c.password, 64)
    && if c.username != [] then c.password != []
       else c.password == []
            || (|c.password| == 64 && forall i :: 0 <= i < 64 ==> HexDigit(c.password[i]))
            || (8 <= |c.password| < 64 && forall i :: 0 <= i < |c.password| ==> 32 <= c.password[i] <= 126)
  }

  /** `WifiConfig::valid`. */
  method CheckConfig(c: WifiConfig) returns (valid: bool)
    ensures valid <==> ValidConfig(c)
  {
    var ssid := ValidText(c.ssid, 32);
    var username := ValidText(c.username, 64);
    var password := ValidText(c.password, 64);
    if c.ssid == [] || !ssid || !username || !password {
      return false;
    }
    if c.username != [] {
      return c.password != [];
    }
    if c.password == [] {
      return true;
    }
    var i := 0;
    if |c.password| == 64 {
      while i < 64
        invariant i <= 64 && forall k :: 0 <= k < i ==> HexDigit(c.password[k])
      {
        if !HexDigit(c.password[i]) {
          return false;
        }
        i := i + 1;
      }
      return true;
    }
    if |c.password| < 8 {
      return false;
    }
    while i < |c.password|
      invariant i <= |c.password| && forall k :: 0 <= k < i ==> 32 <= c.password[k] <= 126
    {
      if c.password[i] < 32 || c.password[i] > 126 {
        return false;
      }
      i := i + 1;
    }
    return true;
  }

  datatype Availability = Ready | NotConfigured | InvalidConfig | StorageError | Busy | ReleaseFailedNow | IdsExhausted
  datatype Phase = Off | Scanning | Connecting | Connected | Releasing | ReleaseFailed
  datatype Operation = NoOperation | Module | Test | Scan
  datatype Outcome = NoOutcome | Succeeded | Failed | TimedOut | Disconnected | Cancelled
  datatype Link = LinkConnecting | LinkConnected | LinkFailed | LinkDown

  datatype Snapshot = Snapshot(requestId: u64, link: Link, ip: seq<byte>)

  /** The answers to the three cleanup calls, and the clock after them. */
  datatype Cleanup = Cleanup(scanStopped: bool, disconnected: bool, off: bool, finishedMs: u32)

  datatype Service = Service(
    requestId: u64, operation: Operation, phase: Phase, outcome: Outcome, retryPending: bool,
    ssid: seq<byte>, ip: seq<byte>, attempt: WifiConfig,
    lastId: u64, since: u32, retryRequestId: u64, lastReleaseMs: u32, retriesLeft: nat)

  const INITIAL := Service(0, NoOperation, Off, NoOutcome, false, [], [], NO_CONFIG, 0, 0, 0, 0, 0)

  const LAST_ID: u64 := TWO_TO_THE_64 - 1

  function Available(s: Service): Availability {
    if s.phase == ReleaseFailed then ReleaseFailedNow
    else if s.phase != Off then Busy
    else if s.lastId == LAST_ID then IdsExhausted
    else Ready
  }

  predicate CleanedUp(s: Service, c: Cleanup) {
    (s.operation != Scan || c.scanStopped) && c.disconnected && c.off
  }

  /** All cleanup steps are attempted; the budget of a request is granted at its first release only. */
  function Released(s0: Service, c: Cleanup): Service {
    var s := if s0.retryRequestId != s0.requestId then s0.(retryRequestId := s0.requestId, retriesLeft := RELEASE_RETRIES)
             else s0;
    if CleanedUp(s, c) then
      s.(phase := Off, lastReleaseMs := c.finishedMs, retryPending := false,
         attempt := NO_CONFIG, retryRequestId := 0, retriesLeft := 0)
    else s.(phase := ReleaseFailed, lastReleaseMs := c.finishedMs, retryPending := s.retriesLeft > 0)
  }

  function Started(s: Service, operation: Operation, config: WifiConfig, now: u32, started: bool, c: Cleanup): Service
    requires s.lastId < LAST_ID
  {
    var t := Service(s.lastId + 1, operation, if operation == Scan then Scanning else Connecting, NoOutcome, false,
                     config.ssid, [], config, s.lastId + 1, now, 0, s.lastReleaseMs, 0);
    if started then t else Released(t.(outcome := Failed), c)
  }

  function Closed(s: Service, id: u64, c: Cleanup): Service {
    if id == 0 || id != s.requestId || s.phase == Off then s
    else Released(if s.outcome == NoOutcome then s.(outcome := Cancelled) else s, c)
  }

  predicate RetryDue(s: Service, now: u32) {
    s.phase == ReleaseFailed && s.retryRequestId == s.requestId && s.retriesLeft > 0
    && Elapsed(now, s.lastReleaseMs) >= RELEASE_RETRY_MS
  }

  /** A scanning tick; `poll` is -1 while running, other negatives on failure, else the number of results. */
  function ScanTicked(s: Service, poll: int, now: u32, c: Cleanup): Service {
    if poll >= 0 then Released(s.(outcome := Succeeded), c)
    else if poll != -1 then Released(s.(outcome := Failed), c)
    else if Elapsed(now, s.since) >= SCAN_TIMEOUT_MS then Released(s.(outcome := Outcome.TimedOut), c)
    else s
  }

  function LinkTicked(s: Service, snap: Snapshot, now: u32, c: Cleanup): Service {
    if snap.requestId == s.requestId && snap.link == LinkConnected && HasIp(snap.ip) then
      var t := s.(ip := snap.ip, phase := Connected, outcome := Succeeded);
      if s.operation == Test then Released(t, c) else t
    else if s.phase == Connected then Released(s.(outcome := Disconnected), c)
    else if snap.requestId == s.requestId && snap.link == LinkFailed then Released(s.(outcome := Failed), c)
    else if Elapsed(now, s.since) >= CONNECT_TIMEOUT_MS then Released(s.(outcome := Outcome.TimedOut), c)
    else s
  }

  function Ticked(s: Service, poll: int, snap: Snapshot, now: u32, c: Cleanup): Service {
    match s.phase
    case ReleaseFailed => if RetryDue(s, now) then Released(s.(retriesLeft := s.retriesLeft - 1), c) else s
    case Scanning => ScanTicked(s, poll, now, c)
    case Connecting => LinkTicked(s, snap, now, c)
    case Connected => LinkTicked(s, snap, now, c)
    case Off => s
    case Releasing => s
  }

  // ---------------------------------------------------------------- addresses

  const DOT: byte := 46
  const IS_DOT: byte -> bool := b => b == DOT

  predicate Digit(b: byte) { 48 <= b <= 57 }

  function DigitValue(b: byte): int { (b as int) - 48 }

  function Value(digits: seq<byte>): int {
    if digits == [] then 0 else Value(digits[..|digits| - 1]) * 10 + DigitValue(digits[|digits| - 1])
  }

  predicate Digits(part: seq<byte>) {
    |part| <= 3 && (forall i :: 0 <= i < |part| ==> Digit(part[i])) && Value(part) <= 255
  }

  predicate Octet(part: seq<byte>) { part != [] && Digits(part) }

  /** Four dot-separated octets of one to three digits, not all zero. */
  predicate HasIp(ip: seq<byte>) {
    var c := Split(ip, IS_DOT);
    && |c.lines| == 3 && (forall i :: 0 <= i < 3 ==> Octet(c.lines[i])) && Octet(c.rest)
    && ((exists i :: 0 <= i < 3 && Value(c.lines[i]) != 0) || Value(c.rest) != 0)
  }

  lemma {:induction false} ValueNonNegative(part: seq<byte>)
    requires forall i :: 0 <= i < |part| ==> Digit(part[i])
    ensures Value(part) >= 0
  {
    if part != [] { ValueNonNegative(part[..|part| - 1]); }
  }

  lemma {:induction false} DigitsPrefix(a: seq<byte>, b: seq<byte>)
    requires a <= b && Digits(b)
    ensures Digits(a)
    decreases |b|
  {
    if a != b {
      var b' := b[..|b| - 1];
      assert forall i :: 0 <= i < |b'| ==> b'[i] == b[i];
      ValueNonNegative(b');
      DigitsPrefix(a, b');
    }
  }

  /** A good address has good parts in each of its prefixes. */
  lemma GoodPrefix(ip: seq<byte>, i: nat)
    requires HasIp(ip) && i <= |ip|
    ensures var c := Split(ip[..i], IS_DOT);
            |c.lines| <= 3 && (forall k :: 0 <= k < |c.lines| ==> Octet(c.lines[k])) && Digits(c.rest)
  {
    var a, b := ip[..i], ip[i..];
    var c := Split(a, IS_DOT);
    assert ip == a + b;
    SplitAppend(a, b, IS_DOT);
    SplitRest(a, IS_DOT);
    FirstLineExtends(c.rest, b, IS_DOT);
    var all := Split(ip, IS_DOT);
    assert forall k :: 0 <= k < |c.lines| ==> all.lines[k] == c.lines[k];
    var d := Split(c.rest + b, IS_DOT);
    var first := if d.lines == [] then d.rest else d.lines[0];
    assert Octet(first) by {
      if d.lines != [] { assert all.lines[|c.lines|] == d.lines[0]; }
    }
    DigitsPrefix(c.rest, first);
  }

  ghost predicate IpScan(ip: seq<byte>, i: nat, components: nat, value: int, digits: nat, nonzero: bool)
    requires i <= |ip|
  {
    var c := Split(ip[..i], IS_DOT);
    && |c.lines| == components <= 4 && (forall k :: 0 <= k < components ==> Octet(c.lines[k]))
    && Digits(c.rest) && digits == |c.rest| && value == Value(c.rest)
    && (nonzero <==> exists k :: 0 <= k < components && Value(c.lines[k]) != 0)
  }

  lemma IpStep(ip: seq<byte>, i: nat, components: nat, value: int, digits: nat, nonzero: bool)
    requires i < |ip| && IpScan(ip, i, components, value, digits, nonzero)
    ensures ip[i] == DOT && digits > 0 && components < 4 ==> IpScan(ip, i + 1, components + 1, 0, 0, nonzero || value != 0)
    ensures Digit(ip[i]) && digits < 3 && value * 10 + DigitValue(ip[i]) <= 255 ==>
              IpScan(ip, i + 1, components, value * 10 + DigitValue(ip[i]), digits + 1, nonzero)
    ensures ip[i] == DOT && (digits == 0 || components == 4) ==> !HasIp(ip)
    ensures ip[i] != DOT && (!Digit(ip[i]) || digits == 3 || value * 10 + DigitValue(ip[i]) > 255) ==> !HasIp(ip)
  {
    var c, c' := Split(ip[..i], IS_DOT), Split(ip[..i + 1], IS_DOT);
    assert ip[..i + 1][..i] == ip[..i];
    if HasIp(ip) { GoodPrefix(ip, i + 1); }
    if ip[i] == DOT {
      assert c' == Cut(c.lines + [c.rest], []);
      assert c'.lines[components] == c.rest && forall k :: 0 <= k < components ==> c'.lines[k] == c.lines[k];
    } else {
      assert c' == Cut(c.lines, c.rest + [ip[i]]);
      assert (c.rest + [ip[i]])[..digits] == c.rest;
      assert c'.rest[digits] == ip[i];
    }
  }

  method CheckIp(ip: seq<byte>) returns (ok: bool)
    ensures ok <==> HasIp(ip)
  {
    var components, digits, nonzero := 0, 0, false;
    var value: int := 0;
    var i := 0;
    while i < |ip|
      invariant i <= |ip| && IpScan(ip, i, components, value, digits, nonzero)
    {
      IpStep(ip, i, components, value, digits, nonzero);
      if ip[i] == DOT {
        if digits == 0 || components == 4 {
          return false;
        }
        components, nonzero, value, digits := components + 1, nonzero || value != 0, 0, 0;
      } else {
        if !Digit(ip[i]) || digits == 3 {
          return false;
        }
        digits := digits + 1;
        value := value * 10 + DigitValue(ip[i]);
        if value > 255 {
          return false;
        }
      }
      i := i + 1;
    }
    assert ip[..i] == ip;
    // The end of the text closes the last component.
    if digits == 0 || components + 1 > 4 {
      return false;
    }
    return components + 1 == 4 && (nonzero || value != 0);
  }

  // ---------------------------------------------------------------- the service in place

  datatype Load = Loaded(config: WifiConfig) | NoFile | BadFile | StorageFault

  datatype Request = Request(availability: Availability, requestId: u64)

  function Refused(availability: Availability): Request { Request(availability, 0) }

  datatype WifiStatus = WifiStatus(
    requestId: u64, operation: Operation, phase: Phase, outcome: Outcome, retryPending: bool,
    ssid: seq<byte>, ip: seq<byte>)

  const NO_STATUS := WifiStatus(0, NoOperation, Off, NoOutcome, false, [], [])

  class WifiService {
    var state: WifiStatus
    var attempt: WifiConfig
    var lastId: u64
    var since: u32
    var retryRequestId: u64
    var lastReleaseMs: u32
    var retriesLeft: nat
    const scans: ScanResults

    function Model(): Service
      reads this
    {
      Service(state.requestId, state.operation, state.phase, state.outcome, state.retryPending, state.ssid, state.ip, attempt,
              lastId, since, retryRequestId, lastReleaseMs, retriesLeft)
    }

    ghost predicate Valid()
      reads this, scans, scans.networks
    {
      scans.Valid()
    }

    constructor ()
      ensures Valid() && Model() == INITIAL && fresh(scans)
    {
      state := NO_STATUS;
      attempt, lastId, since, retryRequestId, lastReleaseMs, retriesLeft := NO_CONFIG, 0, 0, 0, 0, 0;
      scans := new ScanResults();
    }

    /** The current file is read before a new owner is granted; `load` is what it holds. */
    method Connect(load: Load, now: u32, started: bool, c: Cleanup) returns (r: Request)
      requires Valid()
      modifies this, scans
      ensures Valid()
      ensures Available(old(Model())) != Ready ==> r == Refused(Available(old(Model()))) && Model() == old(Model())
      ensures Available(old(Model())) == Ready && !load.Loaded? ==>
                Model() == old(Model())
                && r == Refused(if load.NoFile? then NotConfigured else if load.BadFile? then InvalidConfig else StorageError)
      ensures Available(old(Model())) == Ready && load.Loaded? ==>
                Model() == Started(old(Model()), Module, load.config, now, started, c) && r == Request(Ready, state.requestId)
    {
      var readiness := Available(Model());
      if readiness != Ready {
        return Refused(readiness);
      }
      match load
      case NoFile => r := Refused(NotConfigured);
      case BadFile => r := Refused(InvalidConfig);
      case StorageFault => r := Refused(StorageError);
      case Loaded(config) => r := Start(Module, config, now, started, c);
    }

    method TestConfig(draft: WifiConfig, now: u32, started: bool, c: Cleanup) returns (r: Request)
      requires Valid()
      modifies this, scans
      ensures Valid()
      ensures Available(old(Model())) != Ready ==> r == Refused(Available(old(Model()))) && Model() == old(Model())
      ensures Available(old(Model())) == Ready ==>
                if ValidConfig(draft) then Model() == Started(old(Model()), Test, draft, now, started, c) && r == Request(Ready, state.requestId)
                else Model() == old(Model()) && r == Refused(InvalidConfig)
    {
      var readiness := Available(Model());
      if readiness != Ready {
        return Refused(readiness);
      }
      var valid := CheckConfig(draft);
      if !valid {
        return Refused(InvalidConfig);
      }
      r := Start(Test, draft, now, started, c);
    }

    method ScanNetworks(now: u32, started: bool, c: Cleanup) returns (r: Request)
      requires Valid()
      modifies this, scans
      ensures Valid()
      ensures Available(old(Model())) != Ready ==> r == Refused(Available(old(Model()))) && Model() == old(Model())
      ensures Available(old(Model())) == Ready ==>
                Model() == Started(old(Model()), Scan, NO_CONFIG, now, started, c) && r == Request(Ready, state.requestId) && scans.seen == []
    {
      var readiness := Available(Model());
      if readiness != Ready {
        return Refused(readiness);
      }
      r := Start(Scan, NO_CONFIG, now, started, c);
    }

    method Start(op: Operation, config: WifiConfig, now: u32, started: bool, c: Cleanup) returns (r: Request)
      requires Valid() && lastId < LAST_ID
      modifies this, scans
      ensures Valid() && Model() == Started(old(Model()), op, config, now, started, c) && r == Request(Ready, state.requestId)
      ensures if op == Scan then scans.seen == [] else scans.seen == old(scans.seen)
    {
      Grant(op, config, now);
      if op == Scan {
        scans.Clear();
      }
      if !started {
        state := state.(outcome := Failed);
        Release(c);
      }
      return Request(Ready, state.requestId);
    }

    /** The next id becomes the owner; a later edit cannot change the credentials of this request. */
    method Grant(op: Operation, config: WifiConfig, now: u32)
      requires lastId < LAST_ID
      modifies this
      ensures Model() == Started(old(Model()), op, config, now, true, Cleanup(true, true, true, 0))
    {
      attempt := config;
      retryRequestId, retriesLeft := 0, 0;
      lastId := lastId + 1;
      since := now;
      state := NO_STATUS.(requestId := lastId, operation := op, ssid := config.ssid,
                          phase := if op == Scan then Scanning else Connecting);
    }

    method Release(c: Cleanup)
      requires Valid()
      modifies this
      ensures Valid() && Model() == Released(old(Model()), c)
    {
      if retryRequestId != state.requestId {
        retryRequestId := state.requestId;
        retriesLeft := RELEASE_RETRIES;
      }
      state := state.(phase := Releasing);
      var scanStopped := state.operation != Scan || c.scanStopped;
      var phase := if scanStopped && c.disconnected && c.off then Off else ReleaseFailed;
      lastReleaseMs := c.finishedMs;
      state := state.(phase := phase, retryPending := phase == ReleaseFailed && retriesLeft > 0);
      if phase == Off {
        attempt, retryRequestId, retriesLeft := NO_CONFIG, 0, 0;
      }
    }

    method Status(id: u64) returns (s: Option<Service>)
      ensures s == if id != 0 && id == state.requestId then Some(Model()) else None
    {
      if id == 0 || id != state.requestId {
        return None;
      }
      return Some(Model());
    }

    method IsConnected(snap: Snapshot) returns (connected: bool)
      ensures connected == (state.phase == Connected && snap.requestId == state.requestId && snap.link == LinkConnected && HasIp(snap.ip))
    {
      var hasIp := CheckIp(snap.ip);
      return state.phase == Connected && snap.requestId == state.requestId && snap.link == LinkConnected && hasIp;
    }

    method Close(id: u64, c: Cleanup) returns (s: Option<Service>)
      requires Valid()
      modifies this
      ensures Valid() && Model() == Closed(old(Model()), id, c)
      ensures s == if id != 0 && id == old(state.requestId) then Some(Model()) else None
    {
      if id == 0 || id != state.requestId {
        return None;
      }
      if state.phase != Off {
        if state.outcome == NoOutcome {
          state := state.(outcome := Cancelled);
        }
        Release(c);
      }
      return Some(Model());
    }

    /** `results` is what the driver found, when the scan has ended. */
    method Tick(poll: int, results: seq<Network>, snap: Snapshot, now: u32, c: Cleanup)
      requires Valid() && (poll >= 0 ==> |results| == poll)
      modifies this, scans, scans.networks
      ensures Valid() && Model() == Ticked(old(Model()), poll, snap, now, c)
      ensures scans.seen == if old(state.phase) == Scanning && poll >= 0 then old(scans.seen) + results else old(scans.seen)
    {
      if state.phase == ReleaseFailed {
        if retryRequestId == state.requestId && retriesLeft > 0 && Elapsed(now, lastReleaseMs) >= RELEASE_RETRY_MS {
          retriesLeft := retriesLeft - 1;
          Release(c);
        }
      } else if state.phase == Scanning {
        ScanTick(poll, results, now, c);
      } else if state.phase == Connecting || state.phase == Connected {
        LinkTick(snap, now, c);
      }
    }

    method ScanTick(poll: int, results: seq<Network>, now: u32, c: Cleanup)
      requires Valid() && (poll >= 0 ==> |results| == poll)
      modifies this, scans, scans.networks
      ensures Valid() && Model() == ScanTicked(old(Model()), poll, now, c)
      ensures scans.seen == if poll >= 0 then old(scans.seen) + results else old(scans.seen)
    {
      if poll >= 0 {
        MergeAll(results);
        state := state.(outcome := Succeeded);
        Release(c);
      } else if poll != -1 || Elapsed(now, since) >= SCAN_TIMEOUT_MS {
        state := state.(outcome := if poll != -1 then Failed else Outcome.TimedOut);
        Release(c);
      }
    }

    method MergeAll(results: seq<Network>)
      requires Valid()
      modifies scans, scans.networks
      ensures Valid() && scans.seen == old(scans.seen) + results
    {
      var i := 0;
      while i < |results|
        invariant i <= |results| && Valid() && scans.seen == old(scans.seen) + results[..i]
      {
        scans.Merge(results[i]);
        i := i + 1;
      }
    }

    method LinkTick(snap: Snapshot, now: u32, c: Cleanup)
      requires Valid() && (state.phase == Connecting || state.phase == Connected)
      modifies this
      ensures Valid() && Model() == LinkTicked(old(Model()), snap, now, c)
    {
      if state.phase == Connected && snap.requestId != state.requestId {
        state := state.(outcome := Disconnected);
        Release(c);
        return;
      }
      if snap.requestId == state.requestId {
        var hasIp := CheckIp(snap.ip);
        if snap.link == LinkConnected && hasIp {
          state := state.(ip := snap.ip, phase := Connected, outcome := Succeeded);
          // Unlike a connection, a test has nothing left to hold on to.
          if state.operation == Test {
            Release(c);
          }
          return;
        }
        if state.phase == Connected || snap.link == LinkFailed {
          state := state.(outcome := if state.phase == Connected then Disconnected else Failed);
          Release(c);
          return;
        }
      }
      if state.phase == Connecting && Elapsed(now, since) >= CONNECT_TIMEOUT_MS {
        state := state.(outcome := Outcome.TimedOut);
        Release(c);
      }
    }
  }
}
