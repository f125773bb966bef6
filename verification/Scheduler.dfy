/**
 The firmware's scheduler: eight slots, registrations with never-reused generations, a 32-bit clock that wraps.
 A callback may call the scheduler back, so a dispatch carries a script: the calls its callback makes. Scripts
 are arbitrary, which makes `tick` hold against every callback. `State` and the functions over it specify
 `ScheduledTaskService`.
 */
module Scheduler {
  import opened Common

  const SLOTS := 8
  const MIN_INTERVAL_MS := 1000
  const MAX_INTERVAL_MS := 0x7fff_ffff

  /** The four task identities are 0 to 3; callers can pass any number. */
  predicate ValidId(id: nat) { id < 4 }

  predicate ValidInterval(ms: u32) { MIN_INTERVAL_MS <= ms <= MAX_INTERVAL_MS }

  datatype Config = Config(id: nat, intervalMs: u32, enabled: bool, runImmediately: bool)

  /** `callback` names the registered function; 0 stands for an empty one. */
  datatype Slot = Free | Task(config: Config, callback: nat, since: u32, generation: u64)

  datatype State = State(slots: seq<Slot>, generation: u64, dispatching: bool)

  const INITIAL := State(seq(SLOTS, _ => Free), 0, false)

  /** The calls a callback can make. */
  datatype Call =
    | RegisterCall(config: Config, callback: nat, registerNow: u32)
    | EnableCall(enableId: nat, enabled: bool, enableNow: u32)
    | IntervalCall(intervalId: nat, intervalMs: u32, intervalNow: u32)
    | RescheduleCall(rescheduleId: nat, rescheduleNow: u32)
    | CancelCall(cancelId: nat)
    | TriggerCall(triggerId: nat, triggerNow: u32)
    | TickCall(tickNow: u32)

  type Script = seq<Call>

  predicate Holds(s: State, i: nat, id: nat) {
    i < |s.slots| && s.slots[i].Task? && s.slots[i].config.id == id
  }

  /** The first slot of a task, or the number of slots. */
  function Find(s: State, id: nat): (i: nat)
    ensures i <= |s.slots|
    ensures i < |s.slots| ==> Holds(s, i, id)
    ensures forall k :: 0 <= k < i ==> !Holds(s, k, id)
  {
    FindFrom(s, id, 0)
  }

  function FindFrom(s: State, id: nat, from: nat): (i: nat)
    requires from <= |s.slots|
    ensures from <= i <= |s.slots| && (i < |s.slots| ==> Holds(s, i, id))
    ensures forall k :: from <= k < i ==> !Holds(s, k, id)
    decreases |s.slots| - from
  {
    if from == |s.slots| || Holds(s, from, id) then from else FindFrom(s, id, from + 1)
  }

  predicate Has(s: State, id: nat) { Find(s, id) < |s.slots| }

  function Get(s: State, id: nat): (t: Slot)
    requires Has(s, id)
    ensures t.Task? && t.config.id == id
  {
    s.slots[Find(s, id)]
  }

  function Put(s: State, id: nat, slot: Slot): State
    requires Has(s, id)
  {
    s.(slots := s.slots[Find(s, id) := slot])
  }

  function FirstFree(s: State, from: nat): (i: nat)
    requires from <= |s.slots|
    ensures from <= i <= |s.slots| && (i < |s.slots| ==> s.slots[i].Free?)
    ensures forall k :: from <= k < i ==> s.slots[k].Task?
    decreases |s.slots| - from
  {
    if from == |s.slots| || s.slots[from].Free? then from else FirstFree(s, from + 1)
  }

  predicate Registers(s: State, config: Config, callback: nat) {
    && ValidId(config.id) && ValidInterval(config.intervalMs) && callback != 0 && !Has(s, config.id)
    && !(s.dispatching && config.enabled && config.runImmediately)
    && s.generation < TWO_TO_THE_64 - 1 && FirstFree(s, 0) < |s.slots|
  }

  /** The registration itself, before an immediate run. */
  function Registered(s: State, config: Config, callback: nat, now: u32): State
    requires Registers(s, config, callback)
  {
    s.(slots := s.slots[FirstFree(s, 0) := Task(config, callback, now, s.generation + 1)], generation := s.generation + 1)
  }

  function Enabled(s: State, id: nat, enabled: bool, now: u32): State {
    if !Has(s, id) then s
    else
      var t := Get(s, id);
      if t.config.enabled == enabled then s
      else Put(s, id, t.(config := t.config.(enabled := enabled), since := if enabled then now else t.since))
  }

  function IntervalSet(s: State, id: nat, intervalMs: u32, now: u32): State {
    if !Has(s, id) || !ValidInterval(intervalMs) then s
    else
      var t := Get(s, id);
      Put(s, id, t.(config := t.config.(intervalMs := intervalMs), since := now))
  }

  function Rescheduled(s: State, id: nat, now: u32): State {
    if !Has(s, id) then s
    else
      var t := Get(s, id);
      Put(s, id, t.(since := now))
  }

  function Cancelled(s: State, id: nat): State {
    if !Has(s, id) then s else Put(s, id, Free)
  }

  /** What one call from inside a callback does: immediate runs, triggers and ticks are refused. */
  function Called(s: State, call: Call): State
    requires s.dispatching
  {
    match call
    case RegisterCall(config, callback, now) =>
      if Registers(s, config, callback) then Registered(s, config, callback, now) else s
    case EnableCall(id, enabled, now) => Enabled(s, id, enabled, now)
    case IntervalCall(id, intervalMs, now) => IntervalSet(s, id, intervalMs, now)
    case RescheduleCall(id, now) => Rescheduled(s, id, now)
    case CancelCall(id) => Cancelled(s, id)
    case TriggerCall(_, _) => s
    case TickCall(_) => s
  }

  function Scripted(s: State, script: Script): (s': State)
    requires s.dispatching
    ensures s'.dispatching
    decreases |script|
  {
    if script == [] then s else Scripted(Called(s, script[0]), script[1..])
  }

  /** One run of the callback in slot i, whose calls are `script`. */
  function Dispatched(s: State, i: nat, now: u32, script: Script): State
    requires i < |s.slots| && s.slots[i].Task?
  {
    var t := s.slots[i];
    var stamped := if t.config.enabled then s.slots[i := t.(since := now)] else s.slots;
    Scripted(s.(slots := stamped, dispatching := true), script).(dispatching := false)
  }

  predicate Due(t: Slot, now: u32) {
    t.Task? && t.config.enabled && Elapsed(now, t.since) >= t.config.intervalMs
  }

  datatype Entry = Entry(id: nat, generation: u64)

  /** The registrations of a state in slot order. */
  function Entries(slots: seq<Slot>): seq<Entry> {
    if slots == [] then []
    else Entries(slots[..|slots| - 1])
         + (if slots[|slots| - 1].Task? then [Entry(slots[|slots| - 1].config.id, slots[|slots| - 1].generation)] else [])
  }

  function InsertEntry(sorted: seq<Entry>, e: Entry): seq<Entry> {
    if sorted == [] || e.generation < sorted[0].generation then [e] + sorted
    else [sorted[0]] + InsertEntry(sorted[1..], e)
  }

  function SortEntries(entries: seq<Entry>): seq<Entry> {
    if entries == [] then []
    else InsertEntry(SortEntries(entries[..|entries| - 1]), entries[|entries| - 1])
  }

  /** This registration is still there, enabled and due. */
  predicate TurnDue(s: State, e: Entry, now: u32) {
    Has(s, e.id) && Get(s, e.id).generation == e.generation && Due(Get(s, e.id), now)
  }

  /** A dispatch within a tick: which turn of the snapshot it was, and the slot as it was then. */
  datatype Ran = Ran(turn: nat, slot: Slot)

  /** After k turns of a snapshot; `scripts(n)` is what the n-th dispatched callback of the tick calls. */
  function AfterTurns(s: State, snapshot: seq<Entry>, k: nat, now: u32, scripts: nat -> Script): (State, seq<Ran>)
    requires k <= |snapshot|
  {
    if k == 0 then (s, [])
    else
      var (t, ran) := AfterTurns(s, snapshot, k - 1, now, scripts);
      if TurnDue(t, snapshot[k - 1], now) then
        var i := Find(t, snapshot[k - 1].id);
        (Dispatched(t, i, now, scripts(|ran|)), ran + [Ran(k - 1, t.slots[i])])
      else (t, ran)
  }

  function Snapshot(s: State): seq<Entry> { SortEntries(Entries(s.slots)) }

  function Ticked(s: State, now: u32, scripts: nat -> Script): (State, seq<Ran>) {
    if s.dispatching then (s, []) else AfterTurns(s, Snapshot(s), |Snapshot(s)|, now, scripts)
  }

  /** How long until this task is due. */
  function Wait(t: Slot, now: u32): u32
    requires t.Task?
  {
    if Elapsed(now, t.since) >= t.config.intervalMs then 0 else t.config.intervalMs - Elapsed(now, t.since)
  }

  predicate Waiting(t: Slot) { t.Task? && t.config.enabled }

  ghost predicate IsNextWait(slots: seq<Slot>, now: u32, r: Option<u32>) {
    if r.None? then forall i :: 0 <= i < |slots| ==> !Waiting(slots[i])
    else
      && (exists i :: 0 <= i < |slots| && Waiting(slots[i]) && Wait(slots[i], now) == r.value)
      && (forall i :: 0 <= i < |slots| && Waiting(slots[i]) ==> r.value <= Wait(slots[i], now))
  }

  // ---------------------------------------------------------------- what every call keeps

  ghost predicate Inv(s: State) {
    && |s.slots| == SLOTS
    && (forall i :: 0 <= i < SLOTS && s.slots[i].Task? ==>
          && ValidId(s.slots[i].config.id) && ValidInterval(s.slots[i].config.intervalMs)
          && s.slots[i].callback != 0 && 1 <= s.slots[i].generation <= s.generation)
    && (forall i, j :: 0 <= i < j < SLOTS && s.slots[i].Task? && s.slots[j].Task? ==>
          s.slots[i].config.id != s.slots[j].config.id && s.slots[i].generation != s.slots[j].generation)
  }

  lemma PutInv(s: State, i: nat, slot: Slot, dispatching: bool)
    requires Inv(s) && i < SLOTS && s.slots[i].Task?
    requires slot.Task? ==> SameRegistration(s.slots[i], slot) && ValidInterval(slot.config.intervalMs)
    ensures var s' := s.(slots := s.slots[i := slot], dispatching := dispatching); Inv(s') && Inherits(s, s')
  {
    var s' := s.(slots := s.slots[i := slot], dispatching := dispatching);
    forall k | 0 <= k < SLOTS && s'.slots[k].Task? ensures SameRegistration(s.slots[k], s'.slots[k]) {}
  }

  lemma RegisteredInv(s: State, config: Config, callback: nat, now: u32)
    requires Inv(s) && Registers(s, config, callback)
    ensures Inv(Registered(s, config, callback, now)) && Inherits(s, Registered(s, config, callback, now))
  {
    var s' := Registered(s, config, callback, now);
    forall i | 0 <= i < SLOTS && s.slots[i].Task? ensures s.slots[i].config.id != config.id {
      assert Holds(s, i, s.slots[i].config.id);
    }
  }

  /** Every call keeps ids unique and generations distinct, and no call reuses a generation. */
  lemma CallInv(s: State, call: Call)
    requires Inv(s) && s.dispatching
    ensures Inv(Called(s, call)) && Called(s, call).dispatching && s.generation <= Called(s, call).generation
    ensures Inherits(s, Called(s, call))
  {
    match call
    case RegisterCall(config, callback, now) =>
      if Registers(s, config, callback) { RegisteredInv(s, config, callback, now); }
    case EnableCall(id, enabled, now) =>
      if Has(s, id) && Get(s, id).config.enabled != enabled {
        var t := Get(s, id);
        PutInv(s, Find(s, id), t.(config := t.config.(enabled := enabled), since := if enabled then now else t.since), true);
      }
    case IntervalCall(id, intervalMs, now) =>
      if Has(s, id) && ValidInterval(intervalMs) {
        var t := Get(s, id);
        PutInv(s, Find(s, id), t.(config := t.config.(intervalMs := intervalMs), since := now), true);
      }
    case RescheduleCall(id, now) =>
      if Has(s, id) {
        var t := Get(s, id);
        PutInv(s, Find(s, id), t.(since := now), true);
      }
    case CancelCall(id) =>
      if Has(s, id) { PutInv(s, Find(s, id), Free, true); }
    case TriggerCall(_, _) =>
    case TickCall(_) =>
  }

  /** Registrations of `t` not newer than `s` are registrations of `s`: same id, generation and callback. */
  ghost predicate Inherits(s: State, t: State) {
    forall i :: 0 <= i < |t.slots| && t.slots[i].Task? && t.slots[i].generation <= s.generation ==>
      exists j :: 0 <= j < |s.slots| && s.slots[j].Task? && SameRegistration(s.slots[j], t.slots[i])
  }

  predicate SameRegistration(a: Slot, b: Slot)
    requires a.Task? && b.Task?
  {
    a.config.id == b.config.id && a.generation == b.generation && a.callback == b.callback
  }

  lemma InheritsTransitive(s: State, t: State, u: State)
    requires Inherits(s, t) && Inherits(t, u) && s.generation <= t.generation
    ensures Inherits(s, u)
  {
    forall i | 0 <= i < |u.slots| && u.slots[i].Task? && u.slots[i].generation <= s.generation
      ensures exists j :: 0 <= j < |s.slots| && s.slots[j].Task? && SameRegistration(s.slots[j], u.slots[i])
    {
      var k :| 0 <= k < |t.slots| && t.slots[k].Task? && SameRegistration(t.slots[k], u.slots[i]);
      var j :| 0 <= j < |s.slots| && s.slots[j].Task? && SameRegistration(s.slots[j], t.slots[k]);
    }
  }

  lemma {:induction false} ScriptInv(s: State, script: Script)
    requires Inv(s) && s.dispatching
    ensures Inv(Scripted(s, script)) && s.generation <= Scripted(s, script).generation && Inherits(s, Scripted(s, script))
    decreases |script|
  {
    if script != [] {
      CallInv(s, script[0]);
      ScriptInv(Called(s, script[0]), script[1..]);
      InheritsTransitive(s, Called(s, script[0]), Scripted(s, script));
    }
  }

  lemma DispatchInv(s: State, i: nat, now: u32, script: Script)
    requires Inv(s) && i < SLOTS && s.slots[i].Task?
    ensures var s' := Dispatched(s, i, now, script);
            Inv(s') && !s'.dispatching && s.generation <= s'.generation && Inherits(s, s')
  {
    var t := s.slots[i];
    PutInv(s, i, if t.config.enabled then t.(since := now) else t, true);
    var stamped := s.(slots := if t.config.enabled then s.slots[i := t.(since := now)] else s.slots, dispatching := true);
    assert s.slots[i := t] == s.slots;
    ScriptInv(stamped, script);
    InheritsTransitive(s, stamped, Scripted(stamped, script));
  }

  // ---------------------------------------------------------------- the snapshot

  ghost predicate Ascending(entries: seq<Entry>) {
    forall a, b :: 0 <= a < b < |entries| ==> entries[a].generation < entries[b].generation
  }

  lemma {:induction false} InsertKeeps(sorted: seq<Entry>, e: Entry)
    requires Ascending(sorted) && forall x <- sorted :: x.generation != e.generation
    ensures Ascending(InsertEntry(sorted, e)) && |InsertEntry(sorted, e)| == |sorted| + 1
    ensures forall x :: x in InsertEntry(sorted, e) <==> x == e || x in sorted
    decreases |sorted|
  {
    if sorted != [] && sorted[0].generation < e.generation {
      InsertKeeps(sorted[1..], e);
      assert sorted == [sorted[0]] + sorted[1..];
      var r := InsertEntry(sorted[1..], e);
      forall b | 0 <= b < |r| ensures sorted[0].generation < r[b].generation {
        assert r[b] in r;
      }
    }
  }

  ghost predicate DistinctGenerations(entries: seq<Entry>) {
    forall a, b :: 0 <= a < b < |entries| ==> entries[a].generation != entries[b].generation
  }

  lemma {:induction false} SortKeeps(entries: seq<Entry>)
    requires DistinctGenerations(entries)
    ensures Ascending(SortEntries(entries)) && |SortEntries(entries)| == |entries|
    ensures forall x :: x in SortEntries(entries) <==> x in entries
  {
    if entries != [] {
      var n := |entries| - 1;
      SortKeeps(entries[..n]);
      assert entries == entries[..n] + [entries[n]];
      InsertKeeps(SortEntries(entries[..n]), entries[n]);
    }
  }

  ghost predicate EntryOf(slot: Slot, e: Entry) {
    slot.Task? && slot.config.id == e.id && slot.generation == e.generation
  }

  lemma {:induction false} EntriesOf(slots: seq<Slot>)
    requires forall i, j :: 0 <= i < j < |slots| && slots[i].Task? && slots[j].Task? ==> slots[i].generation != slots[j].generation
    ensures DistinctGenerations(Entries(slots))
    ensures forall e <- Entries(slots) :: exists i :: 0 <= i < |slots| && EntryOf(slots[i], e)
    ensures forall i :: 0 <= i < |slots| && slots[i].Task? ==> Entry(slots[i].config.id, slots[i].generation) in Entries(slots)
  {
    if slots != [] {
      var n := |slots| - 1;
      EntriesOf(slots[..n]);
      forall e | e in Entries(slots) ensures exists i :: 0 <= i < |slots| && EntryOf(slots[i], e) {
        if e in Entries(slots[..n]) {
          var i :| 0 <= i < n && EntryOf(slots[..n][i], e);
          assert EntryOf(slots[i], e);
        } else {
          assert EntryOf(slots[n], e);
        }
      }
      forall a | 0 <= a < |Entries(slots[..n])| && slots[n].Task?
        ensures Entries(slots[..n])[a].generation != slots[n].generation
      {
        assert Entries(slots[..n])[a] in Entries(slots[..n]);
        var i :| 0 <= i < n && EntryOf(slots[..n][i], Entries(slots[..n])[a]);
        assert slots[..n][i] == slots[i];
        assert slots[i].generation != slots[n].generation;
      }
    }
  }

  /** The snapshot lists exactly the registrations, once each, oldest first. */
  lemma SnapshotIsRegistrations(s: State)
    requires Inv(s)
    ensures Ascending(Snapshot(s))
    ensures forall k :: 0 <= k < |Snapshot(s)| ==> exists i :: 0 <= i < SLOTS && EntryOf(s.slots[i], Snapshot(s)[k])
    ensures forall i :: 0 <= i < SLOTS && s.slots[i].Task? ==> Entry(s.slots[i].config.id, s.slots[i].generation) in Snapshot(s)
  {
    EntriesOf(s.slots);
    SortKeeps(Entries(s.slots));
    forall k | 0 <= k < |Snapshot(s)| ensures exists i :: 0 <= i < SLOTS && EntryOf(s.slots[i], Snapshot(s)[k]) {
      assert Snapshot(s)[k] in Entries(s.slots);
    }
  }

  // ---------------------------------------------------------------- a tick against any callbacks

  lemma {:induction false} TurnsInv(s: State, snapshot: seq<Entry>, k: nat, now: u32, scripts: nat -> Script)
    requires Inv(s) && !s.dispatching && k <= |snapshot|
    ensures var (t, ran) := AfterTurns(s, snapshot, k, now, scripts);
            && Inv(t) && !t.dispatching && s.generation <= t.generation && Inherits(s, t)
            && (forall a :: 0 <= a < |ran| ==> ran[a].turn < k && Due(ran[a].slot, now) && EntryOf(ran[a].slot, snapshot[ran[a].turn]))
            && (forall a, b :: 0 <= a < b < |ran| ==> ran[a].turn < ran[b].turn)
  {
    if k > 0 {
      TurnsInv(s, snapshot, k - 1, now, scripts);
      var (t, ran) := AfterTurns(s, snapshot, k - 1, now, scripts);
      if TurnDue(t, snapshot[k - 1], now) {
        var i := Find(t, snapshot[k - 1].id);
        DispatchInv(t, i, now, scripts(|ran|));
        InheritsTransitive(s, t, Dispatched(t, i, now, scripts(|ran|)));
      }
    }
  }

  /** What ran first stays in the record of later turns, and turn j is recorded exactly if it was due when it came. */
  lemma {:induction false} TurnRecorded(s: State, snapshot: seq<Entry>, j: nat, k: nat, now: u32, scripts: nat -> Script)
    requires j < k <= |snapshot|
    ensures var (t, before) := AfterTurns(s, snapshot, j, now, scripts);
            var (_, ran) := AfterTurns(s, snapshot, k, now, scripts);
            && before <= ran
            && (TurnDue(t, snapshot[j], now) ==>
                  |before| < |ran| && ran[|before|] == Ran(j, Get(t, snapshot[j].id)))
            && (forall a :: |before| <= a < |ran| && ran[a].turn == j ==> TurnDue(t, snapshot[j], now))
  {
    if k > j + 1 {
      TurnRecorded(s, snapshot, j, k - 1, now, scripts);
    }
  }

  /**
   One tick, whatever calls the callbacks make: the registrations of the entry state are taken oldest first, each
   at most once; turn k runs exactly when, as the state then is, that very registration is still in place, enabled
   and due; it runs the callback it was registered with; ids stay unique and generations distinct.
   */
  lemma TickTheorem(s: State, now: u32, scripts: nat -> Script)
    requires Inv(s) && !s.dispatching
    ensures var (s', ran) := Ticked(s, now, scripts);
            var snapshot := Snapshot(s);
            && Inv(s') && !s'.dispatching
            && Ascending(snapshot)
            && (forall a, b :: 0 <= a < b < |ran| ==> ran[a].turn < ran[b].turn)
            && (forall a :: 0 <= a < |ran| ==>
                  && ran[a].turn < |snapshot| && EntryOf(ran[a].slot, snapshot[ran[a].turn])
                  && Due(ran[a].slot, now) && RegisteredIn(s, ran[a].slot))
            && (forall k :: 0 <= k < |snapshot| ==>
                  (TurnDue(AfterTurns(s, snapshot, k, now, scripts).0, snapshot[k], now) <==> TurnRan(ran, k)))
  {
    var snapshot := Snapshot(s);
    var ran := Ticked(s, now, scripts).1;
    SnapshotIsRegistrations(s);
    TurnsInv(s, snapshot, |snapshot|, now, scripts);
    forall a | 0 <= a < |ran| ensures RegisteredIn(s, ran[a].slot) {
      RanWasRegistered(s, now, scripts, a);
    }
    forall k | 0 <= k < |snapshot|
      ensures TurnDue(AfterTurns(s, snapshot, k, now, scripts).0, snapshot[k], now) <==> TurnRan(ran, k)
    {
      DueTurnRuns(s, k, now, scripts);
    }
  }

  ghost predicate TurnRan(ran: seq<Ran>, k: nat) {
    exists a :: 0 <= a < |ran| && ran[a].turn == k
  }

  lemma DueTurnRuns(s: State, k: nat, now: u32, scripts: nat -> Script)
    requires Inv(s) && !s.dispatching && k < |Snapshot(s)|
    ensures TurnDue(AfterTurns(s, Snapshot(s), k, now, scripts).0, Snapshot(s)[k], now)
       <==> TurnRan(Ticked(s, now, scripts).1, k)
  {
    var snapshot := Snapshot(s);
    TurnRecorded(s, snapshot, k, |snapshot|, now, scripts);
    TurnsInv(s, snapshot, k, now, scripts);
    var (t, before) := AfterTurns(s, snapshot, k, now, scripts);
    var ran := Ticked(s, now, scripts).1;
    assert forall a :: 0 <= a < |before| ==> ran[a] == before[a] && ran[a].turn < k;
  }

  ghost predicate RegisteredIn(s: State, slot: Slot) {
    slot.Task? && exists i :: 0 <= i < |s.slots| && s.slots[i].Task? && SameRegistration(s.slots[i], slot)
  }

  /** The a-th dispatch found its slot as it was when its turn came. */
  lemma RanAt(s: State, snapshot: seq<Entry>, now: u32, scripts: nat -> Script, a: nat, ran: seq<Ran>)
    requires Inv(s) && !s.dispatching && ran == AfterTurns(s, snapshot, |snapshot|, now, scripts).1 && a < |ran|
    ensures ran[a].turn < |snapshot| && EntryOf(ran[a].slot, snapshot[ran[a].turn])
    ensures var t := AfterTurns(s, snapshot, ran[a].turn, now, scripts).0;
            Inherits(s, t) && Has(t, snapshot[ran[a].turn].id) && ran[a].slot == Get(t, snapshot[ran[a].turn].id)
  {
    TurnsInv(s, snapshot, |snapshot|, now, scripts);
    var k := ran[a].turn;
    TurnsInv(s, snapshot, k, now, scripts);
    var before := AfterTurns(s, snapshot, k, now, scripts).1;
    TurnRecorded(s, snapshot, k, |snapshot|, now, scripts);
    RecordedAt(ran, before, a, k);
  }

  lemma RecordedAt(ran: seq<Ran>, before: seq<Ran>, a: nat, k: nat)
    requires before <= ran && a < |ran| && ran[a].turn == k && forall b :: 0 <= b < |before| ==> before[b].turn < k
    requires forall x, y :: 0 <= x < y < |ran| ==> ran[x].turn < ran[y].turn
    requires |before| < |ran| && ran[|before|].turn == k
    ensures a == |before|
  {
    assert forall b :: 0 <= b < |before| ==> ran[b].turn < k;
  }

  lemma StillRegistered(s: State, t: State, e: Entry, slot: Slot)
    requires Inv(s) && Inherits(s, t) && Has(t, e.id) && slot == Get(t, e.id) && EntryOf(slot, e)
    requires exists i :: 0 <= i < SLOTS && EntryOf(s.slots[i], e)
    ensures RegisteredIn(s, slot)
  {
    var i :| 0 <= i < SLOTS && EntryOf(s.slots[i], e);
    assert t.slots[Find(t, e.id)] == slot;
    assert slot.generation <= s.generation;
  }

  lemma RanWasRegistered(s: State, now: u32, scripts: nat -> Script, a: nat)
    requires Inv(s) && !s.dispatching && a < |Ticked(s, now, scripts).1|
    ensures RegisteredIn(s, Ticked(s, now, scripts).1[a].slot)
  {
    var snapshot := Snapshot(s);
    var ran := Ticked(s, now, scripts).1;
    SnapshotIsRegistrations(s);
    RanAt(s, snapshot, now, scripts, a, ran);
    StillRegistered(s, AfterTurns(s, snapshot, ran[a].turn, now, scripts).0, snapshot[ran[a].turn], ran[a].slot);
  }

  // ---------------------------------------------------------------- the next deadline

  lemma {:induction false} IdleTurns(s: State, snapshot: seq<Entry>, k: nat, now: u32, scripts: nat -> Script)
    requires k <= |snapshot|
    ensures AfterTurns(s, snapshot, k, now, scripts).1 == [] <==> forall j :: 0 <= j < k ==> !TurnDue(s, snapshot[j], now)
    ensures AfterTurns(s, snapshot, k, now, scripts).1 == [] ==> AfterTurns(s, snapshot, k, now, scripts).0 == s
  {
    if k > 0 {
      IdleTurns(s, snapshot, k - 1, now, scripts);
    }
  }

  /** A tick dispatches nothing exactly when no task is due on entry; then it changes nothing. */
  lemma IdleTick(s: State, now: u32, scripts: nat -> Script)
    requires Inv(s) && !s.dispatching
    ensures Ticked(s, now, scripts).1 == [] <==> forall i :: 0 <= i < SLOTS ==> !Due(s.slots[i], now)
    ensures Ticked(s, now, scripts).1 == [] ==> Ticked(s, now, scripts).0 == s
  {
    var snapshot := Snapshot(s);
    SnapshotIsRegistrations(s);
    IdleTurns(s, snapshot, |snapshot|, now, scripts);
    forall i | 0 <= i < SLOTS && Due(s.slots[i], now) ensures exists j :: 0 <= j < |snapshot| && TurnDue(s, snapshot[j], now) {
      var e := Entry(s.slots[i].config.id, s.slots[i].generation);
      assert Holds(s, i, e.id) && e in snapshot;
      var j :| 0 <= j < |snapshot| && snapshot[j] == e;
      assert TurnDue(s, snapshot[j], now);
    }
    forall j | 0 <= j < |snapshot| && TurnDue(s, snapshot[j], now) ensures exists i :: 0 <= i < SLOTS && Due(s.slots[i], now) {
      assert Due(s.slots[Find(s, snapshot[j].id)], now);
    }
  }

  function Later(now: u32, offset: u32): u32 {
    if now + offset < TWO_TO_THE_32 then now + offset else now + offset - TWO_TO_THE_32
  }

  /**
   The next wait is exact, also when the clock wraps before it is over: without a call in between, a tick at any
   earlier offset dispatches nothing and a tick at that offset dispatches something; there is no wait
   exactly when no task is enabled, and then no tick ever dispatches.
   */
  lemma NextWaitExact(s: State, now: u32, r: Option<u32>, offset: u32, scripts: nat -> Script)
    requires Inv(s) && !s.dispatching && IsNextWait(s.slots, now, r)
    ensures r.None? <==> forall i :: 0 <= i < SLOTS ==> !Waiting(s.slots[i])
    ensures r.None? ==> Ticked(s, Later(now, offset), scripts) == (s, [])
    ensures r.Some? && offset < r.value ==> Ticked(s, Later(now, offset), scripts) == (s, [])
    ensures r.Some? && offset == r.value ==> Ticked(s, Later(now, offset), scripts).1 != []
  {
    IdleTick(s, Later(now, offset), scripts);
  }

  /** The query agrees with the tick: zero exactly when something is due. */
  lemma NextWaitZero(s: State, now: u32, r: Option<u32>, scripts: nat -> Script)
    requires Inv(s) && !s.dispatching && IsNextWait(s.slots, now, r)
    ensures r == Some(0) <==> Ticked(s, now, scripts).1 != []
  {
    IdleTick(s, now, scripts);
  }

  /** Four identities and eight slots: a registration is never refused for want of a slot. */
  lemma AlwaysASlot(s: State, config: Config, callback: nat)
    requires Inv(s)
    ensures Registers(s, config, callback) <==>
              && ValidId(config.id) && ValidInterval(config.intervalMs) && callback != 0 && !Has(s, config.id)
              && !(s.dispatching && config.enabled && config.runImmediately) && s.generation < TWO_TO_THE_64 - 1
  {
    // Five occupied slots would need five identities.
    assert !(s.slots[0].Task? && s.slots[1].Task? && s.slots[2].Task? && s.slots[3].Task? && s.slots[4].Task?);
  }

  // ---------------------------------------------------------------- a task no callback touches

  predicate Touches(call: Call, id: nat) {
    match call
    case EnableCall(other, _, _) => other == id
    case IntervalCall(other, _, _) => other == id
    case RescheduleCall(other, _) => other == id
    case CancelCall(other) => other == id
    case _ => false
  }

  ghost predicate Spares(scripts: nat -> Script, id: nat) {
    forall n: nat, c <- scripts(n) :: !Touches(c, id)
  }

  lemma PutElsewhere(s: State, i: nat, slot: Slot, id: nat)
    requires Inv(s) && i < SLOTS && Has(s, id) && i != Find(s, id)
    requires slot.Task? ==> slot.config.id != id
    ensures var s' := s.(slots := s.slots[i := slot]); Has(s', id) && Get(s', id) == Get(s, id)
  {
    var s' := s.(slots := s.slots[i := slot]);
    assert Holds(s', Find(s, id), id);
    assert forall k :: 0 <= k < SLOTS && k != Find(s, id) ==> !Holds(s, k, id);
  }

  lemma CallSpares(s: State, call: Call, id: nat)
    requires Inv(s) && s.dispatching && Has(s, id) && !Touches(call, id)
    ensures Has(Called(s, call), id) && Get(Called(s, call), id) == Get(s, id)
  {
    match call
    case RegisterCall(config, callback, now) =>
      if Registers(s, config, callback) {
        PutElsewhere(s, FirstFree(s, 0), Task(config, callback, now, s.generation + 1), id);
        assert Registered(s, config, callback, now).slots == s.slots[FirstFree(s, 0) := Task(config, callback, now, s.generation + 1)];
        SameFind(s.(slots := Registered(s, config, callback, now).slots), Registered(s, config, callback, now), id);
      }
    case EnableCall(other, enabled, now) =>
      if Has(s, other) && Called(s, call) != s { PutElsewhere(s, Find(s, other), Called(s, call).slots[Find(s, other)], id); }
    case IntervalCall(other, intervalMs, now) =>
      if Has(s, other) && Called(s, call) != s { PutElsewhere(s, Find(s, other), Called(s, call).slots[Find(s, other)], id); }
    case RescheduleCall(other, now) =>
      if Has(s, other) { PutElsewhere(s, Find(s, other), Called(s, call).slots[Find(s, other)], id); }
    case CancelCall(other) =>
      if Has(s, other) { PutElsewhere(s, Find(s, other), Free, id); }
    case TriggerCall(_, _) =>
    case TickCall(_) =>
  }

  lemma SameFind(s: State, t: State, id: nat)
    requires s.slots == t.slots
    ensures Find(s, id) == Find(t, id)
  {
    if Find(s, id) < |s.slots| { assert Holds(t, Find(s, id), id); }
    if Find(t, id) < |t.slots| { assert Holds(s, Find(t, id), id); }
  }

  lemma {:induction false} ScriptSpares(s: State, script: Script, id: nat)
    requires Inv(s) && s.dispatching && Has(s, id) && forall c <- script :: !Touches(c, id)
    ensures Has(Scripted(s, script), id) && Get(Scripted(s, script), id) == Get(s, id)
    decreases |script|
  {
    if script != [] {
      CallInv(s, script[0]);
      CallSpares(s, script[0], id);
      ScriptSpares(Called(s, script[0]), script[1..], id);
    }
  }

  /** A dispatch stamps its own enabled slot and leaves any other spared task alone. */
  lemma DispatchSpares(s: State, i: nat, now: u32, script: Script, id: nat)
    requires Inv(s) && i < SLOTS && s.slots[i].Task? && Has(s, id) && forall c <- script :: !Touches(c, id)
    ensures var s' := Dispatched(s, i, now, script);
            Has(s', id) && Get(s', id) == if i == Find(s, id) && s.slots[i].config.enabled
                                          then Get(s, id).(since := now) else Get(s, id)
  {
    var t := s.slots[i];
    PutInv(s, i, if t.config.enabled then t.(since := now) else t, true);
    assert s.slots[i := t] == s.slots;
    var stamped := s.(slots := if t.config.enabled then s.slots[i := t.(since := now)] else s.slots, dispatching := true);
    SameFind(s, s.(dispatching := true), id);
    if i != Find(s, id) {
      PutElsewhere(s, i, stamped.slots[i], id);
      SameFind(s.(slots := s.slots[i := stamped.slots[i]]), stamped, id);
    } else {
      assert forall k :: 0 <= k < SLOTS ==> (Holds(stamped, k, id) <==> Holds(s, k, id));
    }
    ScriptSpares(stamped, script, id);
    SameFind(Scripted(stamped, script), Scripted(stamped, script).(dispatching := false), id);
  }

  /** One turn, of this task or another. */
  lemma TurnSpares(t: State, e: Entry, now: u32, script: Script, id: nat, t': State)
    requires Inv(t) && !t.dispatching && Has(t, id)
    requires forall k :: 0 <= k < |script| ==> !Touches(script[k], id)
    requires t' == if TurnDue(t, e, now) then Dispatched(t, Find(t, e.id), now, script) else t
    ensures Has(t', id) && Get(t', id) == if e.id == id && TurnDue(t, e, now) then Get(t, id).(since := now) else Get(t, id)
  {
    if TurnDue(t, e, now) {
      DispatchSpares(t, Find(t, e.id), now, script, id);
    }
  }

  /** This task was due at one of the first k turns, going by its state on entry. */
  predicate HadTurn(s: State, snapshot: seq<Entry>, k: nat, now: u32, id: nat)
    requires k <= |snapshot|
  {
    k > 0 && (HadTurn(s, snapshot, k - 1, now, id) || (snapshot[k - 1].id == id && TurnDue(s, snapshot[k - 1], now)))
  }

  lemma {:induction false} NoTurnYet(s: State, snapshot: seq<Entry>, k: nat, now: u32, id: nat)
    requires k <= |snapshot| && forall a :: 0 <= a < k ==> snapshot[a].id != id
    ensures !HadTurn(s, snapshot, k, now, id)
  {
    if k > 0 { NoTurnYet(s, snapshot, k - 1, now, id); }
  }

  lemma {:induction false} OneTurn(s: State, snapshot: seq<Entry>, k: nat, now: u32, id: nat, j: nat)
    requires j < k <= |snapshot| && snapshot[j].id == id && forall a :: 0 <= a < |snapshot| && a != j ==> snapshot[a].id != id
    ensures HadTurn(s, snapshot, k, now, id) <==> TurnDue(s, snapshot[j], now)
  {
    if k == j + 1 {
      NoTurnYet(s, snapshot, j, now, id);
    } else {
      OneTurn(s, snapshot, k - 1, now, id, j);
    }
  }

  lemma SameDue(s: State, t: State, e: Entry, now: u32)
    requires Has(s, e.id) && Has(t, e.id) && Get(s, e.id) == Get(t, e.id)
    ensures TurnDue(s, e, now) <==> TurnDue(t, e, now)
  {}

  /** Turns of other tasks do not change it. */
  lemma {:induction false} TurnsSpare(s: State, snapshot: seq<Entry>, k: nat, now: u32, scripts: nat -> Script, id: nat)
    requires Inv(s) && !s.dispatching && k <= |snapshot| && Has(s, id) && Spares(scripts, id)
    requires forall a, b :: 0 <= a < b < |snapshot| && snapshot[a].id == id ==> snapshot[b].id != id
    ensures var t := AfterTurns(s, snapshot, k, now, scripts).0;
            && Has(t, id) && Get(t, id) == if HadTurn(s, snapshot, k, now, id) then Get(s, id).(since := now) else Get(s, id)
  {
    if k > 0 {
      TurnsSpare(s, snapshot, k - 1, now, scripts, id);
      TurnsInv(s, snapshot, k - 1, now, scripts);
      var (t, ran) := AfterTurns(s, snapshot, k - 1, now, scripts);
      var e := snapshot[k - 1];
      TurnSpares(t, e, now, scripts(|ran|), id, AfterTurns(s, snapshot, k, now, scripts).0);
      if e.id == id {
        NoTurnYet(s, snapshot, k - 1, now, id);
        SameDue(s, t, e, now);
      }
    }
  }

  /**
   What a module can rely on for its own task: if no callback touches it, a tick runs it exactly when it is enabled
   and due on entry, restarts its interval then, and changes nothing else about it.
   */
  lemma UntouchedTask(s: State, now: u32, scripts: nat -> Script, id: nat)
    requires Inv(s) && !s.dispatching && Has(s, id) && Spares(scripts, id)
    ensures var (s', ran) := Ticked(s, now, scripts);
            && Has(s', id)
            && Get(s', id) == (if Due(Get(s, id), now) then Get(s, id).(since := now) else Get(s, id))
            && (Due(Get(s, id), now) <==> RanTask(ran, id))
  {
    var j := TurnOf(s, id);
    TurnsSpare(s, Snapshot(s), |Snapshot(s)|, now, scripts, id);
    OneTurn(s, Snapshot(s), |Snapshot(s)|, now, id, j);
    TurnsSpare(s, Snapshot(s), j, now, scripts, id);
    NoTurnYet(s, Snapshot(s), j, now, id);
    DueTurnRuns(s, j, now, scripts);
    RanById(s, now, scripts, id, j);
  }

  /** Its one turn in the snapshot. */
  lemma TurnOf(s: State, id: nat) returns (j: nat)
    requires Inv(s) && Has(s, id)
    ensures j < |Snapshot(s)| && Snapshot(s)[j] == Entry(id, Get(s, id).generation)
    ensures forall a :: 0 <= a < |Snapshot(s)| && a != j ==> Snapshot(s)[a].id != id
  {
    var snapshot := Snapshot(s);
    SnapshotIsRegistrations(s);
    var e := Entry(id, Get(s, id).generation);
    assert Holds(s, Find(s, id), id) && e in snapshot;
    j :| 0 <= j < |snapshot| && snapshot[j] == e;
    forall a | 0 <= a < |snapshot| && a != j ensures snapshot[a].id != id {
      var i :| 0 <= i < SLOTS && EntryOf(s.slots[i], snapshot[a]);
      assert snapshot[a].generation != e.generation;
    }
  }

  lemma RanById(s: State, now: u32, scripts: nat -> Script, id: nat, j: nat)
    requires Inv(s) && !s.dispatching && j < |Snapshot(s)|
    requires forall a :: 0 <= a < |Snapshot(s)| ==> (Snapshot(s)[a].id == id <==> a == j)
    ensures TurnRan(Ticked(s, now, scripts).1, j) <==> RanTask(Ticked(s, now, scripts).1, id)
  {
    TurnsInv(s, Snapshot(s), |Snapshot(s)|, now, scripts);
    var ran := Ticked(s, now, scripts).1;
    assert forall a :: 0 <= a < |ran| ==> EntryOf(ran[a].slot, Snapshot(s)[ran[a].turn]);
  }

  ghost predicate RanTask(ran: seq<Ran>, id: nat) {
    exists a :: 0 <= a < |ran| && ran[a].slot.Task? && ran[a].slot.config.id == id
  }

  // ---------------------------------------------------------------- the service in place

  class ScheduledTaskService {
    const slots: array<Slot>
    var generation: u64
    var dispatching: bool

    ghost predicate Valid()
      reads this, slots
    {
      slots.Length == SLOTS && Inv(Model())
    }

    ghost function Model(): State
      reads this, slots
    {
      State(slots[..], generation, dispatching)
    }

    constructor ()
      ensures Valid() && Model() == INITIAL && fresh(slots)
    {
      slots := new Slot[SLOTS](_ => Free);
      generation, dispatching := 0, false;
      new;
      assert slots[..] == INITIAL.slots;
    }

    method FindSlot(id: nat) returns (i: nat)
      requires Valid()
      ensures i == Find(Model(), id)
    {
      i := 0;
      while i < slots.Length
        invariant i <= slots.Length && forall k :: 0 <= k < i ==> !Holds(Model(), k, id)
      {
        if slots[i].Task? && slots[i].config.id == id {
          assert Holds(Model(), i, id);
          break;
        }
        i := i + 1;
      }
      FindUnique(Model(), id, i);
    }

    /** `script` is what the callback calls if the registration runs at once. */
    method RegisterTask(config: Config, callback: nat, now: u32, script: Script) returns (ok: bool)
      requires Valid()
      modifies this, slots
      ensures Valid() && ok == Registers(old(Model()), config, callback)
      ensures !ok ==> Model() == old(Model())
      ensures ok ==> var s := Registered(old(Model()), config, callback, now);
                     Model() == if config.enabled && config.runImmediately
                                then Dispatched(s, FirstFree(old(Model()), 0), now, script) else s
      decreases if dispatching then 0 else 3
    {
      var found := FindSlot(config.id);
      if !ValidId(config.id) || !ValidInterval(config.intervalMs) || callback == 0 || found < slots.Length
         || (dispatching && config.enabled && config.runImmediately) || generation == TWO_TO_THE_64 - 1 {
        return false;
      }
      var i := 0;
      while i < slots.Length
        invariant i <= slots.Length && forall k :: 0 <= k < i ==> slots[k].Task?
      {
        if slots[i].Free? {
          FirstFreeUnique(Model(), i);
          ghost var was := Model();
          RegisteredInv(was, config, callback, now);
          generation := generation + 1;
          slots[i] := Task(config, callback, now, generation);
          assert Model() == Registered(was, config, callback, now);
          if config.enabled && config.runImmediately {
            Dispatch(i, now, script);
          }
          return true;
        }
        i := i + 1;
      }
      FirstFreeUnique(Model(), i);
      return false;
    }

    method GetTask(id: nat) returns (snapshot: Option<(bool, u32)>)
      requires Valid()
      ensures snapshot == if Has(Model(), id) then var t := Get(Model(), id); Some((t.config.enabled, t.config.intervalMs))
                          else None
    {
      var i := FindSlot(id);
      if i == slots.Length {
        return None;
      }
      return Some((slots[i].config.enabled, slots[i].config.intervalMs));
    }

    method SetEnabled(id: nat, enabled: bool, now: u32) returns (ok: bool)
      requires Valid()
      modifies slots
      ensures Valid() && ok == Has(old(Model()), id) && Model() == Enabled(old(Model()), id, enabled, now)
    {
      var i := FindSlot(id);
      if i == slots.Length {
        return false;
      }
      // A repeated assignment must not postpone an enabled task.
      var t := slots[i];
      if t.config.enabled != enabled {
        t := t.(config := t.config.(enabled := enabled));
        if enabled {
          t := t.(since := now);
        }
        Store(i, t);
      }
      return true;
    }

    method UpdateInterval(id: nat, intervalMs: u32, now: u32) returns (ok: bool)
      requires Valid()
      modifies slots
      ensures Valid() && ok == (Has(old(Model()), id) && ValidInterval(intervalMs))
      ensures Model() == IntervalSet(old(Model()), id, intervalMs, now)
    {
      var i := FindSlot(id);
      if i == slots.Length || !ValidInterval(intervalMs) {
        return false;
      }
      Store(i, slots[i].(config := slots[i].config.(intervalMs := intervalMs), since := now));
      return true;
    }

    method RescheduleFromNow(id: nat, now: u32) returns (ok: bool)
      requires Valid()
      modifies slots
      ensures Valid() && ok == Has(old(Model()), id) && Model() == Rescheduled(old(Model()), id, now)
    {
      var i := FindSlot(id);
      if i == slots.Length {
        return false;
      }
      Store(i, slots[i].(since := now));
      return true;
    }

    method Cancel(id: nat) returns (ok: bool)
      requires Valid()
      modifies slots
      ensures Valid() && ok == Has(old(Model()), id) && Model() == Cancelled(old(Model()), id)
    {
      var i := FindSlot(id);
      if i == slots.Length {
        return false;
      }
      Store(i, Free);
      return true;
    }

    method Store(i: nat, slot: Slot)
      requires Valid() && i < SLOTS && slots[i].Task?
      requires slot.Task? ==> SameRegistration(slots[i], slot) && ValidInterval(slot.config.intervalMs)
      modifies slots
      ensures Valid() && Model() == old(Model()).(slots := old(Model()).slots[i := slot])
    {
      PutInv(Model(), i, slot, dispatching);
      ghost var was := slots[..];
      slots[i] := slot;
      assert slots[..] == was[i := slot];
    }

    method TriggerNow(id: nat, now: u32, script: Script) returns (ok: bool)
      requires Valid()
      modifies this, slots
      ensures Valid() && ok == (Has(old(Model()), id) && !old(dispatching))
      ensures Model() == if ok then Dispatched(old(Model()), Find(old(Model()), id), now, script) else old(Model())
      decreases if dispatching then 0 else 3
    {
      var i := FindSlot(id);
      if i == slots.Length || dispatching {
        return false;
      }
      Dispatch(i, now, script);
      return true;
    }

    /** Runs a callback, that is, makes its calls with `dispatching` set. */
    method Dispatch(i: nat, now: u32, script: Script)
      requires Valid() && !dispatching && i < SLOTS && slots[i].Task?
      modifies this, slots
      ensures Valid() && Model() == Dispatched(old(Model()), i, now, script)
      decreases 2, 0
    {
      DispatchInv(Model(), i, now, script);
      if slots[i].config.enabled {
        Store(i, slots[i].(since := now));
      }
      dispatching := true;
      var k := 0;
      ghost var all := Scripted(Model(), script);
      assert script[0..] == script;
      while k < |script|
        invariant k <= |script| && Valid() && dispatching && all == Scripted(Model(), script[k..])
      {
        assert script[k..][0] == script[k] && script[k..][1..] == script[k + 1..];
        Perform(script[k]);
        k := k + 1;
      }
      dispatching := false;
    }

    /** One call of a running callback. */
    method Perform(call: Call)
      requires Valid() && dispatching
      modifies this, slots
      ensures Valid() && Model() == Called(old(Model()), call)
      decreases 1
    {
      match call
      case RegisterCall(config, callback, now) => var _ := RegisterTask(config, callback, now, []);
      case EnableCall(id, enabled, now) => var _ := SetEnabled(id, enabled, now);
      case IntervalCall(id, intervalMs, now) => var _ := UpdateInterval(id, intervalMs, now);
      case RescheduleCall(id, now) => var _ := RescheduleFromNow(id, now);
      case CancelCall(id) => var _ := Cancel(id);
      case TriggerCall(id, now) => var _ := TriggerNow(id, now, []);
      case TickCall(now) => var _ := Tick(now, _ => []);
    }

    method NextWaitMs(now: u32) returns (nearest: Option<u32>)
      requires Valid()
      ensures IsNextWait(slots[..], now, nearest)
    {
      nearest := None;
      var i := 0;
      while i < slots.Length
        invariant i <= slots.Length && IsNextWait(slots[..i], now, nearest)
      {
        var t := slots[i];
        assert slots[..i + 1] == slots[..i] + [t];
        ghost var before := nearest;
        if t.Task? && t.config.enabled {
          var elapsed := Elapsed(now, t.since);
          var wait := if elapsed >= t.config.intervalMs then 0 else t.config.intervalMs - elapsed;
          if nearest.None? || wait < nearest.value {
            nearest := Some(wait);
          }
        }
        NextWaitSnoc(slots[..i], t, now, before, nearest);
        i := i + 1;
      }
      assert slots[..i] == slots[..];
    }

    /** The registrations on entry, oldest first. */
    method TakeSnapshot() returns (snapshot: seq<Entry>)
      requires Valid()
      ensures snapshot == Snapshot(Model())
    {
      var entries := [];
      var i := 0;
      while i < slots.Length
        invariant i <= slots.Length && entries == Entries(slots[..i])
      {
        assert slots[..i + 1][..i] == slots[..i];
        if slots[i].Task? {
          entries := entries + [Entry(slots[i].config.id, slots[i].generation)];
        }
        i := i + 1;
      }
      assert slots[..i] == slots[..];
      snapshot := SortEntries(entries);
    }

    /** One turn: a replacement in the same slot waits for the next tick. */
    method RunTurn(e: Entry, now: u32, script: Script) returns (slot: Option<Slot>)
      requires Valid() && !dispatching
      modifies this, slots
      ensures Valid() && !dispatching
      ensures if TurnDue(old(Model()), e, now)
              then Model() == Dispatched(old(Model()), Find(old(Model()), e.id), now, script) && slot == Some(Get(old(Model()), e.id))
              else Model() == old(Model()) && slot == None
      decreases 2, 1
    {
      var f := FindSlot(e.id);
      if f < slots.Length && slots[f].generation == e.generation && slots[f].config.enabled
         && Elapsed(now, slots[f].since) >= slots[f].config.intervalMs {
        slot := Some(slots[f]);
        DispatchInv(Model(), f, now, script);
        Dispatch(f, now, script);
      } else {
        slot := None;
      }
    }

    method Tick(now: u32, scripts: nat -> Script) returns (ran: seq<Ran>)
      requires Valid()
      modifies this, slots
      ensures Valid() && (Model(), ran) == Ticked(old(Model()), now, scripts)
      decreases if dispatching then 0 else 3
    {
      if dispatching {
        return [];
      }
      var snapshot := TakeSnapshot();
      ran := [];
      var k := 0;
      ghost var s := Model();
      while k < |snapshot|
        invariant k <= |snapshot| && Valid() && !dispatching
        invariant (Model(), ran) == AfterTurns(s, snapshot, k, now, scripts)
      {
        var slot := RunTurn(snapshot[k], now, scripts(|ran|));
        if slot.Some? {
          ran := ran + [Ran(k, slot.value)];
        }
        k := k + 1;
      }
    }
  }

  lemma FindUnique(s: State, id: nat, i: nat)
    requires i <= |s.slots| && (i < |s.slots| ==> Holds(s, i, id)) && forall k :: 0 <= k < i ==> !Holds(s, k, id)
    ensures i == Find(s, id)
  {
    var f := Find(s, id);
    assert f < |s.slots| ==> Holds(s, f, id);
  }

  lemma FirstFreeUnique(s: State, i: nat)
    requires i <= |s.slots| && (i < |s.slots| ==> s.slots[i].Free?) && forall k :: 0 <= k < i ==> s.slots[k].Task?
    ensures i == FirstFree(s, 0)
  {
    var f := FirstFree(s, 0);
    assert f < |s.slots| ==> s.slots[f].Free?;
  }

  lemma NextWaitSnoc(slots: seq<Slot>, t: Slot, now: u32, before: Option<u32>, after: Option<u32>)
    requires IsNextWait(slots, now, before)
    requires after == if Waiting(t) && (before.None? || Wait(t, now) < before.value) then Some(Wait(t, now)) else before
    ensures IsNextWait(slots + [t], now, after)
  {
    var all := slots + [t];
    assert all[|slots|] == t && forall i :: 0 <= i < |slots| ==> all[i] == slots[i];
    if before.Some? {
      var i :| 0 <= i < |slots| && Waiting(slots[i]) && Wait(slots[i], now) == before.value;
      assert Waiting(all[i]) && Wait(all[i], now) == before.value;
    }
  }
}
