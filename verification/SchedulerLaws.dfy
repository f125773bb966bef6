/** What each call does to each task: its own is changed as asked, an interval starts again where it should, and no other task notices. */
module SchedulerLaws {
  import opened Common
  import opened Scheduler

  /** The registration under this identity, if there is one. */
  function Of(s: State, id: nat): Slot { if Has(s, id) then Get(s, id) else Free }

  /** Only the task of this identity is touched; its slot is then as given. */
  ghost predicate Changes(s: State, s': State, id: nat, slot: Slot) {
    && Of(s', id) == slot && s'.dispatching == s.dispatching
    && forall other :: other != id ==> Of(s', other) == Of(s, other)
  }

  lemma SlotOf(s: State, i: nat, id: nat)
    requires Inv(s) && Holds(s, i, id)
    ensures Of(s, id) == s.slots[i]
  {}

  lemma NoSlotOf(s: State, id: nat)
    requires forall i :: 0 <= i < |s.slots| ==> !Holds(s, i, id)
    ensures Of(s, id) == Free
  {}

  /** Writing one slot of a task, with its own next registration or none. */
  lemma WriteChanges(s: State, s': State, i: nat, id: nat, slot: Slot)
    requires Inv(s) && Inv(s') && i < SLOTS && s'.slots == s.slots[i := slot] && s'.dispatching == s.dispatching
    requires slot.Task? ==> slot.config.id == id
    requires if s.slots[i].Task? then s.slots[i].config.id == id else !Has(s, id)
    ensures Changes(s, s', id, slot)
  {
    if slot.Task? {
      assert Holds(s', i, id);
      SlotOf(s', i, id);
    } else {
      forall k | 0 <= k < |s'.slots| ensures !Holds(s', k, id) {
        assert k != i ==> (Holds(s', k, id) <==> Holds(s, k, id));
      }
      NoSlotOf(s', id);
    }
    forall other | other != id ensures Of(s', other) == Of(s, other) {
      assert forall k :: 0 <= k < SLOTS ==> (Holds(s', k, other) <==> Holds(s, k, other));
      if k: nat :| Holds(s', k, other) {
        SlotOf(s', k, other);
        SlotOf(s, k, other);
      } else {
        NoSlotOf(s', other);
        NoSlotOf(s, other);
      }
    }
  }

  lemma PutChanges(s: State, id: nat, slot: Slot)
    requires Inv(s) && Has(s, id) && (slot.Task? ==> SameRegistration(Get(s, id), slot) && ValidInterval(slot.config.intervalMs))
    ensures Changes(s, Put(s, id, slot), id, slot)
  {
    PutInv(s, Find(s, id), slot, s.dispatching);
    WriteChanges(s, Put(s, id, slot), Find(s, id), id, slot);
  }

  /** A registration of a known identity with a sensible interval takes hold if the identity is free, its interval starting now. */
  lemma RegisterMeans(s: State, config: Config, callback: nat, now: u32)
    requires Inv(s)
    ensures Registers(s, config, callback) <==>
              && config.id < 4 && 1000 <= config.intervalMs <= 0x7fff_ffff && callback != 0 && Of(s, config.id).Free?
              && !(s.dispatching && config.enabled && config.runImmediately) && s.generation < TWO_TO_THE_64 - 1
    ensures Registers(s, config, callback) ==>
              var s' := Registered(s, config, callback, now);
              Changes(s, s', config.id, Task(config, callback, now, s.generation + 1)) && s'.generation == s.generation + 1
  {
    if Registers(s, config, callback) {
      RegisteredInv(s, config, callback, now);
      WriteChanges(s, Registered(s, config, callback, now), FirstFree(s, 0), config.id, Task(config, callback, now, s.generation + 1));
    } else if config.id < 4 && ValidInterval(config.intervalMs) && callback != 0 && Of(s, config.id).Free? {
      AlwaysASlot(s, config, callback);
    }
  }

  /** Enabling a disabled task starts its interval again; every other assignment leaves the interval alone. */
  lemma EnableMeans(s: State, id: nat, enabled: bool, now: u32)
    requires Inv(s)
    ensures var t, s' := Of(s, id), Enabled(s, id, enabled, now);
            if t.Free? || t.config.enabled == enabled then s' == s
            else Changes(s, s', id, Task(Config(id, t.config.intervalMs, enabled, t.config.runImmediately), t.callback,
                                         if enabled then now else t.since, t.generation))
  {
    var t := Of(s, id);
    if t.Task? && t.config.enabled != enabled {
      PutChanges(s, id, t.(config := t.config.(enabled := enabled), since := if enabled then now else t.since));
    }
  }

  /** A sensible new interval starts now, enabled or not. */
  lemma IntervalMeans(s: State, id: nat, intervalMs: u32, now: u32)
    requires Inv(s)
    ensures var t, s' := Of(s, id), IntervalSet(s, id, intervalMs, now);
            if t.Free? || !(1000 <= intervalMs <= 0x7fff_ffff) then s' == s
            else Changes(s, s', id, Task(Config(id, intervalMs, t.config.enabled, t.config.runImmediately), t.callback, now, t.generation))
  {
    var t := Of(s, id);
    if t.Task? && ValidInterval(intervalMs) { PutChanges(s, id, t.(config := t.config.(intervalMs := intervalMs), since := now)); }
  }

  /** Rescheduling starts the interval again and changes nothing else. */
  lemma RescheduleMeans(s: State, id: nat, now: u32)
    requires Inv(s)
    ensures var t, s' := Of(s, id), Rescheduled(s, id, now);
            if t.Free? then s' == s else Changes(s, s', id, Task(t.config, t.callback, now, t.generation))
  {
    var t := Of(s, id);
    if t.Task? { PutChanges(s, id, t.(since := now)); }
  }

  /** Cancelling frees the identity. */
  lemma CancelMeans(s: State, id: nat)
    requires Inv(s)
    ensures var s' := Cancelled(s, id); if Of(s, id).Free? then s' == s else Changes(s, s', id, Free)
  {
    if Has(s, id) { PutChanges(s, id, Free); }
  }

  /** Inside a callback a tick does nothing, and neither does a trigger. */
  lemma NoNestedDispatch(s: State, call: Call, now: u32, scripts: nat -> Script)
    requires s.dispatching && (call.TickCall? || call.TriggerCall?)
    ensures Ticked(s, now, scripts) == (s, []) && Called(s, call) == s
  {}

  /**
   So whatever started a task's interval last, at `since`: if no callback touches it, a tick runs it exactly when it is enabled and
   its interval has passed since then, and its interval then starts again.
   */
  lemma RunsAfterItsInterval(s: State, now: u32, scripts: nat -> Script, id: nat)
    requires Inv(s) && !s.dispatching && Of(s, id).Task? && Spares(scripts, id)
    ensures var t, (s', ran) := Of(s, id), Ticked(s, now, scripts);
            var runs := t.config.enabled && Elapsed(now, t.since) >= t.config.intervalMs;
            && (RanTask(ran, id) <==> runs)
            && Of(s', id) == Task(t.config, t.callback, if runs then now else t.since, t.generation)
  {
    UntouchedTask(s, now, scripts, id);
  }
}
