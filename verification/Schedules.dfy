/** The compiler pass from channels to a schedule, as functions: which step is
    emitted when, and in which order.  `ScheduleCompiler` computes them with the
    counters and the barrier of the source. */
module Schedules {
  import opened Timegrid
  import opened Channels

  datatype Operation =
    | ShiftClockPhase(shift: real)
    | SetClockFrequency(frequency: real)
    | Acquisition(index: int, duration: int)
    | IdlePulse(duration: int)
    | PlayPulse(duration: int)

  /** The operation of an instruction, read from the playback of its channel. */
  function ToOperation(log: ChannelLog, inst: Instruction): Operation
    requires inst.position < |log.phases| == |log.frequencies| == |log.acquisitions|
  {
    var at := inst.position;
    match inst.kind
    case SetPhase(_) => ShiftClockPhase(log.phases[at] - if at > 0 then log.phases[at - 1] else 0.0)
    case ShiftPhase(phase) => ShiftClockPhase(phase)
    case SetFreq(_) => SetClockFrequency(log.frequencies[at])
    case ShiftFreq(_) => SetClockFrequency(log.frequencies[at])
    case Acquire => Acquisition(log.acquisitions[at] - 1, inst.duration)
    case Delay => IdlePulse(inst.duration)
    case Pulse => PlayPulse(inst.duration)
  }

  /** A schedulable instruction with its slot, the tick of its start time, and
      the operation it becomes. */
  datatype Step = Step(inst: Instruction, slot: int, op: Operation)

  function ToStep(log: ChannelLog, inst: Instruction): Step
    requires inst.position < |log.phases| == |log.frequencies| == |log.acquisitions|
  {
    Step(inst, ToTick(inst.t0), ToOperation(log, inst))
  }

  datatype ChannelPlan = ChannelPlan(clock: string, steps: seq<Step>, hadAny: bool)

  predicate IsSchedulable(kind: Kind, includeFreqOps: bool) {
    includeFreqOps || !kind.IsFreqControl()
  }

  /** The schedulable ones among the first `n` instructions of a channel. */
  function StepsOf(log: ChannelLog, includeFreqOps: bool, n: nat): seq<Step>
    requires log.Valid() && n <= |log.instructions|
  {
    if n == 0 then []
    else
      var before, inst := StepsOf(log, includeFreqOps, n - 1), log.instructions[n - 1];
      if IsSchedulable(inst.kind, includeFreqOps) then before + [ToStep(log, inst)] else before
  }

  function PlanOf(clock: string, log: ChannelLog, includeFreqOps: bool): ChannelPlan
    requires log.Valid()
  {
    ChannelPlan(clock, StepsOf(log, includeFreqOps, |log.instructions|), log.instructions != [])
  }

  // --- slots ---

  /** The steps of one slot, in the order they were registered. */
  function InSlot(steps: seq<Step>, slot: int): seq<Step> {
    if steps == [] then []
    else
      var before, last := InSlot(steps[..|steps| - 1], slot), steps[|steps| - 1];
      if last.slot == slot then before + [last] else before
  }

  lemma {:induction false} InSlotMembers(steps: seq<Step>, slot: int)
    ensures forall step :: step in InSlot(steps, slot) <==> step in steps && step.slot == slot
  {
    if steps != [] {
      InSlotMembers(steps[..|steps| - 1], slot);
      assert steps == steps[..|steps| - 1] + [steps[|steps| - 1]];
    }
  }

  /** The last slot a channel uses, at least -1. */
  function LastSlot(steps: seq<Step>): int {
    if steps == [] then -1
    else
      var before, step := LastSlot(steps[..|steps| - 1]), steps[|steps| - 1];
      if before < step.slot then step.slot else before
  }

  lemma {:induction false} NoneBeyondLast(steps: seq<Step>, slot: int)
    requires LastSlot(steps) < slot
    ensures InSlot(steps, slot) == []
  {
    if steps != [] {
      NoneBeyondLast(steps[..|steps| - 1], slot);
    }
  }

  predicate Active(plan: ChannelPlan, slot: int) {
    LastSlot(plan.steps) >= slot
  }

  function SlotsIn(steps: seq<Step>): set<int> {
    if steps == [] then {} else SlotsIn(steps[..|steps| - 1]) + {steps[|steps| - 1].slot}
  }

  lemma {:induction false} SlotsInUsed(steps: seq<Step>, slot: int)
    ensures slot in SlotsIn(steps) <==> InSlot(steps, slot) != []
  {
    if steps != [] {
      SlotsInUsed(steps[..|steps| - 1], slot);
    }
  }

  /** The slots used by the first `n` plans. */
  function SlotsOf(plans: seq<ChannelPlan>, n: nat): set<int>
    requires n <= |plans|
  {
    if n == 0 then {} else SlotsOf(plans, n - 1) + SlotsIn(plans[n - 1].steps)
  }

  lemma {:induction false} SlotsOfUsed(plans: seq<ChannelPlan>, n: nat, slot: int)
    requires n <= |plans|
    ensures slot in SlotsOf(plans, n) <==> exists i :: 0 <= i < n && slot in SlotsIn(plans[i].steps)
  {
    if n > 0 {
      SlotsOfUsed(plans, n - 1, slot);
    }
  }

  function AllSlots(plans: seq<ChannelPlan>): set<int> {
    SlotsOf(plans, |plans|)
  }

  ghost predicate Increasing(slots: seq<int>) {
    forall j, k :: 0 <= j < k < |slots| ==> slots[j] < slots[k]
  }

  predicate IsLeast(s: set<int>, least: int) {
    least in s && forall x :: x in s ==> least <= x
  }

  lemma {:induction false} LeastExists(s: set<int>) returns (least: int)
    requires s != {}
    ensures IsLeast(s, least)
    decreases |s|
  {
    assert (forall x :: x !in s) ==> s == {};
    least :| least in s;
    var rest := s - {least};
    assert s == rest + {least};
    if rest != {} {
      var other := LeastExists(rest);
      least := if least < other then least else other;
    }
  }

  /** Python's `sorted` on a set of ticks. */
  function Sorted(s: set<int>): (slots: seq<int>)
    ensures Increasing(slots)
    ensures forall slot :: slot in slots <==> slot in s
  {
    if s == {} then []
    else
      assert exists least :: IsLeast(s, least) by { var _ := LeastExists(s); }
      var least :| IsLeast(s, least);
      [least] + Sorted(s - {least})
  }

  // --- when a step starts ---

  /** The largest number of steps in `slot` on a clock still active at `next`. */
  function Busiest(plans: seq<ChannelPlan>, slot: int, next: int): (most: nat)
    ensures forall plan :: plan in plans && Active(plan, next) ==> |InSlot(plan.steps, slot)| <= most
    ensures most == 0 || exists plan :: plan in plans && Active(plan, next) && |InSlot(plan.steps, slot)| == most
  {
    if plans == [] then 0
    else
      var before, plan := Busiest(plans[..|plans| - 1], slot, next), plans[|plans| - 1];
      assert plans == plans[..|plans| - 1] + [plan];
      if Active(plan, next) && before < |InSlot(plan.steps, slot)| then |InSlot(plan.steps, slot)| else before
  }

  /** The delay accumulated before the k-th slot, common to all clocks active there. */
  function Shift(plans: seq<ChannelPlan>, slots: seq<int>, k: nat): nat
    requires k < |slots|
  {
    if k == 0 then 0
    else Shift(plans, slots, k - 1) + Busiest(plans, slots[k - 1], slots[k])
  }

  datatype Entry =
    | Timed(clock: string, step: Step, start: int)   // start tick, counted from the end of the root operation
    | TailIdle(clock: string, after: string)         // one idle grid interval after the named operation

  /** Steps of one clock emitted one tick after the other: each costs its clock one
      tick of dispatch, paid before it starts. */
  function RunOf(clock: string, steps: seq<Step>, slot: int, shift: int): seq<Entry> {
    seq(|steps|, p requires 0 <= p < |steps| => Timed(clock, steps[p], slot + shift + p + 1))
  }

  /** What the first `n` clocks emit in one slot: each its steps, after the shift. */
  function SlotEntries(plans: seq<ChannelPlan>, n: nat, slot: int, shift: int): seq<Entry>
    requires n <= |plans|
  {
    if n == 0 then []
    else
      var plan := plans[n - 1];
      SlotEntries(plans, n - 1, slot, shift) + RunOf(plan.clock, InSlot(plan.steps, slot), slot, shift)
  }

  lemma SlotEntriesGrow(plans: seq<ChannelPlan>, n: nat, slot: int, shift: int)
    requires n < |plans|
    ensures SlotEntries(plans, n + 1, slot, shift) ==
            SlotEntries(plans, n, slot, shift) + RunOf(plans[n].clock, InSlot(plans[n].steps, slot), slot, shift)
  {
  }

  /** What is emitted for the first `k` slots. */
  function Emitted(plans: seq<ChannelPlan>, slots: seq<int>, k: nat): seq<Entry>
    requires k <= |slots|
  {
    if k == 0 then []
    else Emitted(plans, slots, k - 1) + SlotEntries(plans, |plans|, slots[k - 1], Shift(plans, slots, k - 1))
  }

  lemma EmittedGrows(plans: seq<ChannelPlan>, slots: seq<int>, k: nat)
    requires k < |slots|
    ensures Emitted(plans, slots, k + 1) ==
            Emitted(plans, slots, k) + SlotEntries(plans, |plans|, slots[k], Shift(plans, slots, k))
  {
  }

  /** The steps of one clock in the order the slots are visited. */
  function SlotOrder(steps: seq<Step>, slots: seq<int>, k: nat): seq<Step>
    requires k <= |slots|
  {
    if k == 0 then [] else SlotOrder(steps, slots, k - 1) + InSlot(steps, slots[k - 1])
  }

  /** The operation the tail idle of a clock refers to. */
  function LastName(steps: seq<Step>, root: string): string {
    if steps == [] then root else steps[|steps| - 1].inst.name
  }

  /** One tail idle for each of the first `n` channels that had any instruction. */
  function Tails(plans: seq<ChannelPlan>, n: nat, slots: seq<int>, root: string): seq<Entry>
    requires n <= |plans|
  {
    if n == 0 then []
    else
      var before, plan := Tails(plans, n - 1, slots, root), plans[n - 1];
      if plan.hadAny
      then before + [TailIdle(plan.clock, LastName(SlotOrder(plan.steps, slots, |slots|), root))]
      else before
  }

  function ScheduleOf(plans: seq<ChannelPlan>, root: string): seq<Entry> {
    var slots := Sorted(AllSlots(plans));
    Emitted(plans, slots, |slots|) + Tails(plans, |plans|, slots, root)
  }

  ghost predicate DistinctClocks(plans: seq<ChannelPlan>) {
    forall i, j :: 0 <= i < j < |plans| ==> plans[i].clock != plans[j].clock
  }

  /** Ticks by which a clock is behind the k-th slot when it reaches it. */
  function ReadyAt(plans: seq<ChannelPlan>, slots: seq<int>, k: nat, plan: ChannelPlan): nat
    requires k <= |slots|
  {
    if k == 0 then 0 else Shift(plans, slots, k - 1) + |InSlot(plan.steps, slots[k - 1])|
  }

  /** Every slot in use has an active clock, so a run over the slots never stops early. */
  lemma EverySlotIsActive(plans: seq<ChannelPlan>, slot: int)
    requires slot in AllSlots(plans)
    ensures exists i :: 0 <= i < |plans| && Active(plans[i], slot)
  {
    SlotsOfUsed(plans, |plans|, slot);
    var i :| 0 <= i < |plans| && slot in SlotsIn(plans[i].steps);
    SlotsInUsed(plans[i].steps, slot);
    if !Active(plans[i], slot) {
      NoneBeyondLast(plans[i].steps, slot);
    }
  }

  /** The shift is how far behind the slowest of the still active clocks is. */
  lemma ShiftIsSlowest(plans: seq<ChannelPlan>, slots: seq<int>, k: nat)
    requires k < |slots| && slots[k] in AllSlots(plans)
    ensures forall i :: 0 <= i < |plans| && Active(plans[i], slots[k]) ==>
              ReadyAt(plans, slots, k, plans[i]) <= Shift(plans, slots, k)
    ensures exists i :: 0 <= i < |plans| && Active(plans[i], slots[k]) &&
              ReadyAt(plans, slots, k, plans[i]) == Shift(plans, slots, k)
  {
    EverySlotIsActive(plans, slots[k]);
    if k > 0 {
      var most := Busiest(plans, slots[k - 1], slots[k]);
      if most > 0 {
        var plan :| plan in plans && Active(plan, slots[k]) && |InSlot(plan.steps, slots[k - 1])| == most;
        var i :| 0 <= i < |plans| && plans[i] == plan;
        assert ReadyAt(plans, slots, k, plans[i]) == Shift(plans, slots, k);
      } else {
        var i :| 0 <= i < |plans| && Active(plans[i], slots[k]);
        assert plans[i] in plans;
        assert ReadyAt(plans, slots, k, plans[i]) == Shift(plans, slots, k);
      }
    }
  }
}
