/** `_construct_schedule`: the loops over channels, slots and clocks, with the
    per-clock counters and the barrier, proved against `Schedules`. */
module ScheduleCompiler {
  import opened Prefixes
  import opened Timegrid
  import opened Channels
  import opened Schedules

  datatype ClockState =
    ClockState(dispatchTick: int, syncTick: int, lastName: string, hasEmitted: bool)
  {
    /** Ticks by which the clock is behind the slot before it emits. */
    function Ready(): int {
      syncTick + dispatchTick
    }

    /** The state after emitting the given steps. */
    function Advanced(steps: seq<Step>): ClockState {
      ClockState(dispatchTick + |steps|, syncTick, LastName(steps, lastName), hasEmitted || steps != [])
    }
  }

  /** The channels of an experiment, in registry order. */
  function PlansOf(raws: seq<RawInstruction>, includeFreqOps: bool): seq<ChannelPlan> {
    var clocks := ClocksInOrder(raws);
    seq(|clocks|, i requires 0 <= i < |clocks| =>
      PlanOf(clocks[i], RecordedLog(raws, clocks[i]), includeFreqOps))
  }

  // --- first pass: one plan per channel ---

  method CollectPlan(channel: QuantifyChannel, includeFreqOps: bool) returns (plan: ChannelPlan)
    requires channel.Log().Valid()
    ensures plan == PlanOf(channel.clock, channel.Log(), includeFreqOps)
  {
    var instructions := channel.instructions;
    var schedulable := [];
    for i := 0 to |instructions|
      invariant schedulable == StepsOf(channel.Log(), includeFreqOps, i)
    {
      var inst := instructions[i];
      if !includeFreqOps && inst.kind.IsFreqControl() {
        continue;
      }
      schedulable := schedulable + [ToStep(channel.Log(), inst)];
    }
    plan := ChannelPlan(channel.clock, schedulable, instructions != []);
  }

  method CollectPlans(registry: QuantifyChannelRegistry, includeFreqOps: bool, ghost raws: seq<RawInstruction>)
    returns (plans: seq<ChannelPlan>)
    requires registry.Holds(raws)
    ensures plans == PlansOf(raws, includeFreqOps)
  {
    hide PlanOf, ChannelLog.Valid;
    plans := [];
    for i := 0 to |registry.order|
      invariant |plans| == i
      invariant forall j :: 0 <= j < i ==> plans[j] == PlansOf(raws, includeFreqOps)[j]
    {
      var clock := registry.order[i];
      assert clock in registry.Logs() && registry.Logs()[clock] == registry.channels[clock].Log();
      var plan := CollectPlan(registry.channels[clock], includeFreqOps);
      plans := plans + [plan];
    }
  }

  // --- second pass: group by slot ---

  /** `slot_map.get(slot)`, a missing slot being as good as an empty one. */
  function StepsAt(slotMap: map<int, seq<Step>>, slot: int): seq<Step> {
    if slot in slotMap then slotMap[slot] else []
  }

  datatype Group = Group(slotMap: map<int, seq<Step>>, lastSlot: int)

  /** The dictionary of a plan: its steps by slot. */
  function SlotMapOf(steps: seq<Step>): map<int, seq<Step>> {
    map slot | slot in SlotsIn(steps) :: InSlot(steps, slot)
  }

  lemma SlotMapLookup(steps: seq<Step>, slot: int)
    ensures StepsAt(SlotMapOf(steps), slot) == InSlot(steps, slot)
  {
    SlotsInUsed(steps, slot);
  }

  function GroupOf(plan: ChannelPlan): Group {
    Group(SlotMapOf(plan.steps), LastSlot(plan.steps))
  }

  lemma InSlotAppend(steps: seq<Step>, step: Step, slot: int)
    ensures InSlot(steps + [step], slot) == InSlot(steps, slot) + if step.slot == slot then [step] else []
  {
    assert (steps + [step])[..|steps|] == steps;
  }

  lemma GroupAppend(steps: seq<Step>, step: Step)
    ensures SlotsIn(steps + [step]) == SlotsIn(steps) + {step.slot}
    ensures LastSlot(steps + [step]) == if LastSlot(steps) < step.slot then step.slot else LastSlot(steps)
    ensures SlotMapOf(steps + [step]) ==
            SlotMapOf(steps)[step.slot := StepsAt(SlotMapOf(steps), step.slot) + [step]]
  {
    assert (steps + [step])[..|steps|] == steps;
    forall slot {
      InSlotAppend(steps, step, slot);
    }
    SlotMapLookup(steps, step.slot);
  }

  method GroupBySlot(steps: seq<Step>) returns (group: Group, slots: set<int>)
    ensures group == Group(SlotMapOf(steps), LastSlot(steps))
    ensures slots == SlotsIn(steps)
  {
    var slotMap, maxSlot := map[], -1;
    slots := {};
    for i := 0 to |steps|
      invariant maxSlot == LastSlot(steps[..i])
      invariant slots == SlotsIn(steps[..i])
      invariant slotMap == SlotMapOf(steps[..i])
    {
      var step := steps[i];
      var slot := step.slot;
      GroupAppend(steps[..i], step);
      PrefixGrows(steps, i);

      maxSlot := if maxSlot < slot then slot else maxSlot;
      slots := slots + {slot};
      slotMap := slotMap[slot := StepsAt(slotMap, slot) + [step]];
    }
    PrefixWhole(steps);
    group := Group(slotMap, maxSlot);
  }

  /** One group per plan.  (The source keys its dictionaries by clock; the clocks
      of a registry are distinct, so a list in the order of the plans is the same.) */
  method GroupPlans(plans: seq<ChannelPlan>) returns (groups: seq<Group>, slots: set<int>)
    ensures |groups| == |plans| && forall i :: 0 <= i < |plans| ==> groups[i] == GroupOf(plans[i])
    ensures slots == AllSlots(plans)
  {
    groups, slots := [], {};
    for i := 0 to |plans|
      invariant |groups| == i && forall j :: 0 <= j < i ==> groups[j] == GroupOf(plans[j])
      invariant slots == SlotsOf(plans, i)
    {
      var group, own := GroupBySlot(plans[i].steps);
      groups := groups + [group];
      slots := slots + own;
    }
  }

  // --- third pass: slots, barrier, emission ---

  lemma LastNameConcat(a: seq<Step>, b: seq<Step>, root: string)
    ensures LastName(a + b, root) == LastName(b, LastName(a, root))
  {
    if b == [] {
      assert a + b == a;
    }
  }

  ghost predicate AllSchedulable(steps: seq<Step>, includeFreqOps: bool) {
    forall step :: step in steps ==> IsSchedulable(step.inst.kind, includeFreqOps)
  }

  /** Emits the steps of one clock in one slot. */
  method EmitClock(clock: string, steps: seq<Step>, slot: int, includeFreqOps: bool, before: ClockState,
                   ghost shift: int)
    returns (run: seq<Entry>, after: ClockState)
    requires AllSchedulable(steps, includeFreqOps)
    requires before.Ready() == shift
    ensures run == RunOf(clock, steps, slot, shift)
    ensures after == before.Advanced(steps)
  {
    run, after := [], before;
    for i := 0 to |steps|
      invariant run == RunOf(clock, steps[..i], slot, shift)
      invariant after == before.Advanced(steps[..i])
    {
      var step := steps[i];
      var startTick := slot + after.syncTick + after.dispatchTick + 1;
      var emit := includeFreqOps || !step.inst.kind.IsFreqControl();
      if emit {
        run := run + [Timed(clock, step, startTick)];
        after := after.(lastName := step.inst.name, hasEmitted := true);
      }
      after := after.(dispatchTick := after.dispatchTick + 1);
    }
    PrefixWhole(steps);
  }

  /** The latest tick at which an active clock is ready. */
  method Barrier(active: seq<bool>, slot: int, state: seq<ClockState>) returns (barrier: int)
    requires |active| == |state| && true in active
    ensures forall i :: 0 <= i < |state| && active[i] ==> slot + state[i].Ready() <= barrier
    ensures exists i :: 0 <= i < |state| && active[i] && slot + state[i].Ready() == barrier
  {
    var found := false;
    barrier := 0;
    for i := 0 to |state|
      invariant found == (true in active[..i])
      invariant forall j :: 0 <= j < i && active[j] ==> slot + state[j].Ready() <= barrier
      invariant found ==> exists j :: 0 <= j < i && active[j] && slot + state[j].Ready() == barrier
    {
      if active[i] {
        var ready := slot + state[i].syncTick + state[i].dispatchTick;
        if !found || barrier < ready {
          barrier := ready;
        }
        found := true;
      }
      PrefixGrows(active, i);
    }
    PrefixWhole(active);
  }

  /** Makes every active clock wait until the barrier. */
  method AlignClocks(active: seq<bool>, slot: int, barrier: int, before: seq<ClockState>)
    returns (after: seq<ClockState>)
    requires |active| == |before|
    requires forall i :: 0 <= i < |before| && active[i] ==> slot + before[i].Ready() <= barrier
    ensures |after| == |before|
    ensures forall i :: 0 <= i < |after| ==> after[i] == before[i].(syncTick := after[i].syncTick)
    ensures forall i :: 0 <= i < |after| ==>
              if active[i] then slot + after[i].Ready() == barrier else after[i] == before[i]
  {
    after := before;
    for i := 0 to |before|
      invariant |after| == |before|
      invariant forall j :: 0 <= j < i ==> after[j] == before[j].(syncTick := after[j].syncTick)
      invariant forall j :: 0 <= j < i ==>
                  if active[j] then slot + after[j].Ready() == barrier else after[j] == before[j]
      invariant forall j :: i <= j < |after| ==> after[j] == before[j]
    {
      if active[i] {
        var st := after[i];
        var ready := slot + st.syncTick + st.dispatchTick;
        if ready < barrier {
          after := after[i := st.(syncTick := st.syncTick + (barrier - ready))];
        }
      }
    }
  }

  /** What the passes below rely on. */
  ghost predicate Prepared(plans: seq<ChannelPlan>, groups: seq<Group>, includeFreqOps: bool) {
    && |groups| == |plans|
    && (forall i :: 0 <= i < |plans| ==> groups[i] == GroupOf(plans[i]))
    && (forall i :: 0 <= i < |plans| ==> AllSchedulable(plans[i].steps, includeFreqOps))
  }

  /** One clock in one slot; an inactive clock is skipped, having nothing there. */
  method EmitIfActive(plan: ChannelPlan, group: Group, active: bool, slot: int, includeFreqOps: bool,
                      ghost shift: int, before: ClockState)
    returns (run: seq<Entry>, after: ClockState)
    requires AllSchedulable(plan.steps, includeFreqOps)
    requires group == GroupOf(plan) && active == Active(plan, slot)
    requires active ==> before.Ready() == shift
    ensures run == RunOf(plan.clock, InSlot(plan.steps, slot), slot, shift)
    ensures after == before.Advanced(InSlot(plan.steps, slot))
  {
    run, after := [], before;
    if active {
      var steps := StepsAt(group.slotMap, slot);
      SlotMapLookup(plan.steps, slot);
      InSlotMembers(plan.steps, slot);
      run, after := EmitClock(plan.clock, steps, slot, includeFreqOps, before, shift);
    } else {
      NoneBeyondLast(plan.steps, slot);
    }
  }

  /** Emits the steps of all active clocks in one slot, the clocks being aligned. */
  method EmitSlot(plans: seq<ChannelPlan>, groups: seq<Group>, active: seq<bool>, slot: int, includeFreqOps: bool,
                  ghost shift: int, before: seq<ClockState>)
    returns (entries: seq<Entry>, after: seq<ClockState>)
    requires Prepared(plans, groups, includeFreqOps)
    requires |active| == |before| == |plans|
    requires forall i :: 0 <= i < |plans| ==> active[i] == Active(plans[i], slot)
    requires forall i :: 0 <= i < |plans| && active[i] ==> before[i].Ready() == shift
    ensures entries == SlotEntries(plans, |plans|, slot, shift)
    ensures |after| == |before|
    ensures forall i :: 0 <= i < |plans| ==> after[i] == before[i].Advanced(InSlot(plans[i].steps, slot))
  {
    hide InSlot, RunOf;
    entries, after := [], [];
    for i := 0 to |plans|
      invariant entries == SlotEntries(plans, i, slot, shift)
      invariant |after| == i
      invariant forall j :: 0 <= j < i ==> after[j] == before[j].Advanced(InSlot(plans[j].steps, slot))
    {
      var run, st := EmitIfActive(plans[i], groups[i], active[i], slot, includeFreqOps, shift, before[i]);
      SlotEntriesGrow(plans, i, slot, shift);
      entries := entries + run;
      after := after + [st];
    }
  }

  /** From before to after a slot whose active clocks are aligned at the given shift. */
  ghost predicate Moved(was: ClockState, now: ClockState, steps: seq<Step>, active: bool, shift: int) {
    && now == ClockState(was.dispatchTick, now.syncTick, was.lastName, was.hasEmitted).Advanced(steps)
    && (active ==> now.syncTick + was.dispatchTick == shift)
  }

  /** One slot: barrier, waiting, emission. */
  method VisitSlot(plans: seq<ChannelPlan>, groups: seq<Group>, active: seq<bool>, slot: int, includeFreqOps: bool,
                   ghost shift: int, before: seq<ClockState>)
    returns (entries: seq<Entry>, after: seq<ClockState>)
    requires Prepared(plans, groups, includeFreqOps)
    requires |active| == |before| == |plans|
    requires forall i :: 0 <= i < |plans| ==> active[i] == Active(plans[i], slot)
    requires forall i :: 0 <= i < |plans| && active[i] ==> before[i].Ready() <= shift
    requires exists i :: 0 <= i < |plans| && active[i] && before[i].Ready() == shift
    ensures entries == SlotEntries(plans, |plans|, slot, shift)
    ensures |after| == |before|
    ensures forall i :: 0 <= i < |plans| ==>
              Moved(before[i], after[i], InSlot(plans[i].steps, slot), active[i], shift)
  {
    var barrier := Barrier(active, slot, before);
    var aligned := AlignClocks(active, slot, barrier, before);
    entries, after := EmitSlot(plans, groups, active, slot, includeFreqOps, shift, aligned);
  }

  /** Where a clock is when the k-th slot is reached. */
  ghost predicate Left(plans: seq<ChannelPlan>, slots: seq<int>, k: nat, root: string,
                       plan: ChannelPlan, st: ClockState)
    requires k <= |slots|
  {
    && st.lastName == LastName(SlotOrder(plan.steps, slots, k), root)
    && st.hasEmitted == (SlotOrder(plan.steps, slots, k) != [])
    && (k == 0 || Active(plan, slots[k - 1]) ==> st.Ready() == ReadyAt(plans, slots, k, plan))
  }

  ghost predicate Reached(plans: seq<ChannelPlan>, slots: seq<int>, k: nat, root: string, state: seq<ClockState>)
    requires k <= |slots|
  {
    |state| == |plans| && forall i :: 0 <= i < |plans| ==> Left(plans, slots, k, root, plans[i], state[i])
  }

  lemma LeftAfter(plans: seq<ChannelPlan>, slots: seq<int>, k: nat, root: string, plan: ChannelPlan,
                  was: ClockState, now: ClockState)
    requires k < |slots| && Left(plans, slots, k, root, plan, was)
    requires Moved(was, now, InSlot(plan.steps, slots[k]), Active(plan, slots[k]), Shift(plans, slots, k))
    ensures Left(plans, slots, k + 1, root, plan, now)
  {
    LastNameConcat(SlotOrder(plan.steps, slots, k), InSlot(plan.steps, slots[k]), root);
  }

  lemma ReachedAfter(plans: seq<ChannelPlan>, slots: seq<int>, k: nat, root: string,
                     before: seq<ClockState>, after: seq<ClockState>)
    requires k < |slots| && |after| == |plans| && Reached(plans, slots, k, root, before)
    requires forall i :: 0 <= i < |plans| ==>
               Moved(before[i], after[i], InSlot(plans[i].steps, slots[k]), Active(plans[i], slots[k]),
                     Shift(plans, slots, k))
    ensures Reached(plans, slots, k + 1, root, after)
  {
    forall i | 0 <= i < |plans|
      ensures Left(plans, slots, k + 1, root, plans[i], after[i])
    {
      LeftAfter(plans, slots, k, root, plans[i], before[i], after[i]);
    }
  }

  /** When a slot is reached, the slowest active clock is behind by exactly the shift. */
  lemma ReadyWhenReached(plans: seq<ChannelPlan>, slots: seq<int>, k: nat, root: string, state: seq<ClockState>)
    requires k < |slots| && Increasing(slots) && slots[k] in AllSlots(plans)
    requires Reached(plans, slots, k, root, state)
    ensures forall i :: 0 <= i < |plans| && Active(plans[i], slots[k]) ==> state[i].Ready() <= Shift(plans, slots, k)
    ensures exists i :: 0 <= i < |plans| && Active(plans[i], slots[k]) && state[i].Ready() == Shift(plans, slots, k)
  {
    ShiftIsSlowest(plans, slots, k);
    forall i | 0 <= i < |plans| && Active(plans[i], slots[k])
      ensures state[i].Ready() == ReadyAt(plans, slots, k, plans[i])
    {
      assert Left(plans, slots, k, root, plans[i], state[i]);
    }
  }

  method ActiveClocks(plans: seq<ChannelPlan>, groups: seq<Group>, slot: int) returns (active: seq<bool>)
    requires |groups| == |plans| && forall i :: 0 <= i < |plans| ==> groups[i] == GroupOf(plans[i])
    ensures |active| == |plans| && forall i :: 0 <= i < |plans| ==> active[i] == Active(plans[i], slot)
    ensures slot in AllSlots(plans) ==> true in active
  {
    active := seq(|plans|, i requires 0 <= i < |groups| => groups[i].lastSlot >= slot);
    if slot in AllSlots(plans) {
      EverySlotIsActive(plans, slot);
      ghost var i :| 0 <= i < |plans| && Active(plans[i], slot);
      assert active[i];
    }
  }

  /** All slots in order.  The early exit is there as in the source; it is never taken. */
  method EmitOperations(plans: seq<ChannelPlan>, groups: seq<Group>, slots: seq<int>, includeFreqOps: bool,
                        root: string)
    returns (entries: seq<Entry>, state: seq<ClockState>)
    requires Increasing(slots) && forall slot :: slot in slots <==> slot in AllSlots(plans)
    requires Prepared(plans, groups, includeFreqOps)
    ensures entries == Emitted(plans, slots, |slots|)
    ensures Reached(plans, slots, |slots|, root, state)
  {
    state := seq(|plans|, _ => ClockState(0, 0, root, false));
    entries := [];
    for k := 0 to |slots|
      invariant entries == Emitted(plans, slots, k)
      invariant Reached(plans, slots, k, root, state)
    {
      var active := ActiveClocks(plans, groups, slots[k]);
      if true !in active {
        assert false;
        break;
      }
      ReadyWhenReached(plans, slots, k, root, state);
      ghost var before := state;
      var emitted;
      emitted, state := VisitSlot(plans, groups, active, slots[k], includeFreqOps, Shift(plans, slots, k), state);
      ReachedAfter(plans, slots, k, root, before, state);
      EmittedGrows(plans, slots, k);
      entries := entries + emitted;
    }
  }

  /** One idle interval after the last operation of every channel that had any instruction. */
  method EmitTails(plans: seq<ChannelPlan>, ghost slots: seq<int>, root: string, state: seq<ClockState>)
    returns (tails: seq<Entry>)
    requires Reached(plans, slots, |slots|, root, state)
    ensures tails == Tails(plans, |plans|, slots, root)
  {
    tails := [];
    for i := 0 to |plans|
      invariant tails == Tails(plans, i, slots, root)
    {
      if plans[i].hadAny {
        var ref := if state[i].hasEmitted then state[i].lastName else root;
        assert Left(plans, slots, |slots|, root, plans[i], state[i]);
        tails := tails + [TailIdle(plans[i].clock, ref)];
      }
    }
  }

  lemma {:induction false} StepsAreSchedulable(log: ChannelLog, includeFreqOps: bool, n: nat)
    requires log.Valid() && n <= |log.instructions|
    ensures AllSchedulable(StepsOf(log, includeFreqOps, n), includeFreqOps)
  {
    if n > 0 {
      StepsAreSchedulable(log, includeFreqOps, n - 1);
    }
  }

  lemma PlansArePrepared(raws: seq<RawInstruction>, includeFreqOps: bool, groups: seq<Group>)
    requires |groups| == |PlansOf(raws, includeFreqOps)|
    requires forall i :: 0 <= i < |groups| ==> groups[i] == GroupOf(PlansOf(raws, includeFreqOps)[i])
    ensures Prepared(PlansOf(raws, includeFreqOps), groups, includeFreqOps)
  {
    forall i | 0 <= i < |groups|
      ensures AllSchedulable(PlansOf(raws, includeFreqOps)[i].steps, includeFreqOps)
    {
      var log := RecordedLog(raws, ClocksInOrder(raws)[i]);
      StepsAreSchedulable(log, includeFreqOps, |log.instructions|);
    }
  }

  method ConstructSchedule(registry: QuantifyChannelRegistry, root: string, includeFreqOps: bool,
                           ghost raws: seq<RawInstruction>)
    returns (schedule: seq<Entry>)
    requires registry.Holds(raws)
    ensures schedule == ScheduleOf(PlansOf(raws, includeFreqOps), root)
  {
    var plans := CollectPlans(registry, includeFreqOps, raws);
    var groups, slots := GroupPlans(plans);
    PlansArePrepared(raws, includeFreqOps, groups);
    var sorted := Sorted(slots);
    var entries, state := EmitOperations(plans, groups, sorted, includeFreqOps, root);
    var tails := EmitTails(plans, sorted, root, state);
    schedule := entries + tails;
  }

  /** From the instructions of an experiment to its schedule. */
  method Compile(raws: seq<RawInstruction>, root: string, includeFreqOps: bool) returns (schedule: seq<Entry>)
    ensures schedule == ScheduleOf(PlansOf(raws, includeFreqOps), root)
  {
    var registry := QuantifyChannelRegistry.FromExperiment(raws);
    schedule := ConstructSchedule(registry, root, includeFreqOps, raws);
  }
}
