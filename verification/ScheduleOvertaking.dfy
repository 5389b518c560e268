/** Steps of different clocks in different slots: when their order survives the delays.
    A clock that has no more steps is not waited for at the barriers, and what it
    still has to dispatch may start after later steps of other clocks. */
module ScheduleOvertaking {
  import opened Prefixes
  import opened Timegrid
  import opened Channels
  import opened Schedules
  import opened ScheduleCompiler
  import opened ScheduleOrder
  import opened ScheduleTiming
  import opened ScheduleMeaning
  import opened SchedulePhases

  /** What the barriers wait for between two slots: at each, the dispatch of the
      busiest clock that goes on. */
  function Waited(plans: seq<ChannelPlan>, slots: seq<int>, a: nat, b: nat): nat
    requires a <= b < |slots|
  {
    if a == b then 0 else Waited(plans, slots, a, b - 1) + Busiest(plans, slots[b - 1], slots[b])
  }

  lemma {:induction false} ShiftsAdd(plans: seq<ChannelPlan>, slots: seq<int>, a: nat, b: nat)
    requires a <= b < |slots|
    ensures Shift(plans, slots, b) == Shift(plans, slots, a) + Waited(plans, slots, a, b)
  {
    hide Busiest, InSlot, Active;
    if a < b {
      ShiftsAdd(plans, slots, a, b - 1);
    }
  }

  /** Two steps in different slots keep their order exactly if no more steps precede
      the first one in its slot than the time between the slots, the waits at the
      barriers, and the steps that precede the second one make up for. */
  lemma StepsKeepOrderExactly(plans: seq<ChannelPlan>, slots: seq<int>, c: nat, i: nat, d: nat, j: nat)
    requires c < |plans| && d < |plans| && i < |plans[c].steps| && j < |plans[d].steps|
    requires Covers(slots, plans[c].steps) && Covers(slots, plans[d].steps)
    requires plans[c].steps[i].slot < plans[d].steps[j].slot
    ensures var s, t := plans[c].steps[i].slot, plans[d].steps[j].slot;
            && SlotIndex(slots, s) < SlotIndex(slots, t)
            && (StartOf(plans, slots, plans[c].steps, i) < StartOf(plans, slots, plans[d].steps, j) <==>
                Rank(plans[c].steps, i) <
                  t - s + Waited(plans, slots, SlotIndex(slots, s), SlotIndex(slots, t)) + Rank(plans[d].steps, j))
  {
    hide Shift, Waited, Rank;
    var a, b := SlotIndex(slots, plans[c].steps[i].slot), SlotIndex(slots, plans[d].steps[j].slot);
    IncreasingIndex(slots, a, b);
    ShiftsAdd(plans, slots, a, b);
  }

  /** Every rank below the number of steps in the slot is some step's. */
  lemma {:induction false} RankIsTaken(steps: seq<Step>, slot: int, rank: nat) returns (i: nat)
    requires rank < |InSlot(steps, slot)|
    ensures i < |steps| && steps[i].slot == slot && Rank(steps, i) == rank
  {
    var front, last := steps[..|steps| - 1], steps[|steps| - 1];
    if rank < |InSlot(front, slot)| {
      i := RankIsTaken(front, slot, rank);
      assert front[..i] == steps[..i];
    } else {
      i := |steps| - 1;
    }
  }

  /** All steps of a clock in a slot before all steps of another in a later slot. */
  ghost predicate SlotBeforeSlot(plans: seq<ChannelPlan>, slots: seq<int>, c: nat, s: int, d: nat, t: int)
    requires c < |plans| && d < |plans| && Covers(slots, plans[c].steps) && Covers(slots, plans[d].steps)
  {
    var early, late := plans[c].steps, plans[d].steps;
    forall i: nat, j: nat :: i < |early| && j < |late| && early[i].slot == s && late[j].slot == t ==>
      StartOf(plans, slots, early, i) < StartOf(plans, slots, late, j)
  }

  /** What one clock has in a slot comes before what another has in a later slot,
      exactly if it is no more than the time between and the waits make up for. */
  lemma SlotsKeepOrderExactly(plans: seq<ChannelPlan>, slots: seq<int>, c: nat, a: nat, d: nat, b: nat)
    requires c < |plans| && d < |plans| && Covers(slots, plans[c].steps) && Covers(slots, plans[d].steps)
    requires a < b < |slots| && InSlot(plans[c].steps, slots[a]) != [] && InSlot(plans[d].steps, slots[b]) != []
    ensures SlotBeforeSlot(plans, slots, c, slots[a], d, slots[b]) <==>
            |InSlot(plans[c].steps, slots[a])| <= slots[b] - slots[a] + Waited(plans, slots, a, b)
  {
    hide Shift, Waited, Rank, InSlot;
    var s, t, many := slots[a], slots[b], |InSlot(plans[c].steps, slots[a])|;
    IncreasingIndex(slots, a, b);
    SameIndex(slots, a);
    SameIndex(slots, b);
    forall i: nat, j: nat | i < |plans[c].steps| && j < |plans[d].steps| &&
      plans[c].steps[i].slot == s && plans[d].steps[j].slot == t
      ensures Rank(plans[c].steps, i) < many
      ensures StartOf(plans, slots, plans[c].steps, i) < StartOf(plans, slots, plans[d].steps, j) <==>
              Rank(plans[c].steps, i) < t - s + Waited(plans, slots, a, b) + Rank(plans[d].steps, j)
    {
      RankIsPlaceInSlot(plans[c].steps, i);
      StepsKeepOrderExactly(plans, slots, c, i, d, j);
    }
    var i := RankIsTaken(plans[c].steps, s, many - 1);
    var j := RankIsTaken(plans[d].steps, t, 0);
  }

  lemma SameIndex(slots: seq<int>, k: nat)
    requires Increasing(slots) && k < |slots|
    ensures SlotIndex(slots, slots[k]) == k
  {
    IncreasingIndex(slots, SlotIndex(slots, slots[k]), k);
    IncreasingIndex(slots, k, SlotIndex(slots, slots[k]));
  }

  // --- a step is overtaken ---

  /** An instruction of no length at a time. */
  function At(clock: string, t0: int): RawInstruction {
    RawInstruction(clock, Pulse, t0, 0, "pulse")
  }

  /** Four instructions on one clock at 0 ns; on another, one at 0 ns and one at 4 ns. */
  const FOUR_AND_TWO: seq<RawInstruction> :=
    [At("q0.01", 0), At("q0.01", 0), At("q0.01", 0), At("q0.01", 0), At("q1.01", 0), At("q1.01", 4)]

  /** The fourth instruction of the first clock was given for an earlier grid line than
      the second of the other clock, but starts a tick after it. */
  lemma StepIsOvertaken(includeFreqOps: bool)
    ensures RoundToTick(FOUR_AND_TWO[3].t0) == 0 && RoundToTick(FOUR_AND_TWO[5].t0) == 1
    ensures StartTick(FOUR_AND_TWO, 3, includeFreqOps) == 4 && StartTick(FOUR_AND_TWO, 5, includeFreqOps) == 3
  {
    hide StepsOn, Shift, Rank, SlotsUsed, TicksOf, ClocksInOrder, PlansOf, SlotIndex;
    var raws := FOUR_AND_TWO;
    ExampleTicks(includeFreqOps);
    var plans, slots := PlansOf(raws, includeFreqOps), SlotsUsed(raws, includeFreqOps);
    var four, two := StepsOn(raws, "q0.01", includeFreqOps), StepsOn(raws, "q1.01", includeFreqOps);
    ExampleStarts(plans, slots, four, two);
    SameIndex(slots, 0);
    SameIndex(slots, 1);
    StepOfInstruction(raws, 3, includeFreqOps);
    StepOfInstruction(raws, 5, includeFreqOps);
  }

  lemma TicksAppend(raws: seq<RawInstruction>, raw: RawInstruction, clock: string, choice: Choice)
    ensures TicksOf(raws + [raw], clock, choice) ==
            TicksOf(raws, clock, choice) +
              if raw.clock == clock && choice.Takes(raw.kind) then [RoundToTick(raw.t0)] else []
    ensures ClocksInOrder(raws + [raw]) == AddedOrder(ClocksInOrder(raws), raw.clock)
  {
    PrefixOfAppend(raws, raw);
  }

  lemma NothingGiven(clock: string, choice: Choice)
    ensures TicksOf([], clock, choice) == [] && ClocksInOrder([]) == []
  {
  }

  /** The example, as far as it has been given. */
  lemma {:induction false} ExampleUpTo(n: nat, includeFreqOps: bool)
    requires n <= 6
    ensures var raws, choice := FOUR_AND_TWO[..n], Schedulable(includeFreqOps);
            && TicksOf(raws, "q0.01", choice) == [0, 0, 0, 0][..if n < 4 then n else 4]
            && TicksOf(raws, "q1.01", choice) == [0, 1][..if n < 4 then 0 else n - 4]
            && ClocksInOrder(raws) == if n == 0 then [] else if n <= 4 then ["q0.01"] else ["q0.01", "q1.01"]
  {
    hide TicksOf, ClocksInOrder;
    if n == 0 {
      NothingGiven("q0.01", Schedulable(includeFreqOps));
      NothingGiven("q1.01", Schedulable(includeFreqOps));
    } else {
      ExampleUpTo(n - 1, includeFreqOps);
      PrefixGrows(FOUR_AND_TWO, n - 1);
      var raws, raw := FOUR_AND_TWO[..n - 1], FOUR_AND_TWO[n - 1];
      TicksAppend(raws, raw, "q0.01", Schedulable(includeFreqOps));
      TicksAppend(raws, raw, "q1.01", Schedulable(includeFreqOps));
      assert RoundToTick(raw.t0) == if n == 6 then 1 else 0;
    }
  }

  /** The steps of the example: four in slot 0; one in slot 0 and one in slot 1. */
  ghost predicate IsExample(plans: seq<ChannelPlan>, slots: seq<int>, four: seq<Step>, two: seq<Step>) {
    && |plans| == 2 && plans[0].steps == four && plans[1].steps == two
    && SlotsAlong(four) == [0, 0, 0, 0] && SlotsAlong(two) == [0, 1]
    && Increasing(slots) && forall slot :: slot in slots <==> slot in AllSlots(plans)
  }

  lemma {:induction false} ExampleTicks(includeFreqOps: bool)
    ensures var raws := FOUR_AND_TWO;
            && IsExample(PlansOf(raws, includeFreqOps), SlotsUsed(raws, includeFreqOps),
                         StepsOn(raws, "q0.01", includeFreqOps), StepsOn(raws, "q1.01", includeFreqOps))
            && StepIndex(raws, 3, includeFreqOps) == 3 && StepIndex(raws, 5, includeFreqOps) == 1
  {
    hide TicksOf, ClocksInOrder, StepsOf, StepsOn, AllSlots, SlotsAlong;
    assert FOUR_AND_TWO[..6] == FOUR_AND_TWO;
    ExampleUpTo(6, includeFreqOps);
    SlotsAreTicks(FOUR_AND_TWO, "q0.01", includeFreqOps);
    SlotsAreTicks(FOUR_AND_TWO, "q1.01", includeFreqOps);
    ExamplePlans(includeFreqOps);
    ExampleIndices(includeFreqOps);
  }

  lemma {:induction false} ExamplePlans(includeFreqOps: bool)
    requires ClocksInOrder(FOUR_AND_TWO) == ["q0.01", "q1.01"]
    ensures var plans := PlansOf(FOUR_AND_TWO, includeFreqOps);
            && |plans| == 2
            && plans[0].steps == StepsOn(FOUR_AND_TWO, "q0.01", includeFreqOps)
            && plans[1].steps == StepsOn(FOUR_AND_TWO, "q1.01", includeFreqOps)
  {
    hide StepsOf, RecordedLog, ClocksInOrder;
  }

  lemma {:induction false} ExampleIndices(includeFreqOps: bool)
    ensures StepIndex(FOUR_AND_TWO, 3, includeFreqOps) == 3 && StepIndex(FOUR_AND_TWO, 5, includeFreqOps) == 1
  {
    hide TicksOf, StepsOn, ClocksInOrder;
    ExampleUpTo(3, includeFreqOps);
    ExampleUpTo(5, includeFreqOps);
    SlotsAreTicks(FOUR_AND_TWO[..3], "q0.01", includeFreqOps);
    SlotsAreTicks(FOUR_AND_TWO[..5], "q1.01", includeFreqOps);
    AsManySlots(StepsOn(FOUR_AND_TWO[..3], "q0.01", includeFreqOps));
    AsManySlots(StepsOn(FOUR_AND_TWO[..5], "q1.01", includeFreqOps));
  }

  lemma AsManySlots(steps: seq<Step>)
    ensures |SlotsAlong(steps)| == |steps|
  {
  }

  lemma {:induction false} ExampleStarts(plans: seq<ChannelPlan>, slots: seq<int>, four: seq<Step>, two: seq<Step>)
    requires IsExample(plans, slots, four, two)
    ensures slots == [0, 1] && Shift(plans, slots, 0) == 0 && Shift(plans, slots, 1) == 1
    ensures |four| == 4 && |two| == 2 && Rank(four, 3) == 3 && Rank(two, 1) == 0
    ensures four[3].slot == 0 && two[1].slot == 1
  {
    hide InSlot, LastSlot, Busiest, AllSlots;
    ExampleSteps(four, two);
    ExampleSlots(plans, slots, four, two);
    ExampleBusiest(plans, four, two);
  }

  lemma {:induction false} ExampleSteps(four: seq<Step>, two: seq<Step>)
    requires SlotsAlong(four) == [0, 0, 0, 0] && SlotsAlong(two) == [0, 1]
    ensures |four| == 4 && four[3].slot == 0 && |InSlot(four[..3], 0)| == 3 && InSlot(four, 0) == four
    ensures |two| == 2 && two[1].slot == 1 && InSlot(two[..1], 1) == [] && InSlot(two, 0) == [two[0]]
    ensures LastSlot(four) < 1 <= LastSlot(two)
    ensures forall step :: step in four ==> step.slot == 0
    ensures forall step :: step in two ==> step.slot in {0, 1}
  {
    hide InSlot, LastSlot;
    assert |SlotsAlong(four)| == 4 && |SlotsAlong(two)| == 2;
    assert forall i :: 0 <= i < 4 ==> four[i].slot == SlotsAlong(four)[i] == 0;
    assert two[0].slot == SlotsAlong(two)[0] && two[1].slot == SlotsAlong(two)[1];
    InSlotOfUniform(four[..3], 0, 0);
    InSlotOfUniform(four, 0, 0);
    NoneWithout(two[..1], 1);
    InSlotOfUniform(two[..1], 0, 0);
    InSlotAppend(two[..1], two[1], 0);
    assert two == two[..1] + [two[1]];
    LastIsAtMost(four, 0);
    ActiveAtOwnSlots(two, 1);
  }

  lemma {:induction false} LastIsAtMost(steps: seq<Step>, most: nat)
    requires forall step :: step in steps ==> step.slot <= most
    ensures LastSlot(steps) <= most
  {
    if steps != [] {
      LastIsAtMost(steps[..|steps| - 1], most);
      assert steps[|steps| - 1] in steps;
    }
  }

  lemma {:induction false} ExampleSlots(plans: seq<ChannelPlan>, slots: seq<int>, four: seq<Step>, two: seq<Step>)
    requires IsExample(plans, slots, four, two)
    ensures slots == [0, 1]
  {
    ExampleSteps(four, two);
    hide InSlot, LastSlot, SlotsOf, SlotsIn, SlotsAlong;
    forall slot
      ensures slot in slots <==> slot in {0, 1}
    {
      SlotsOfUsed(plans, 2, slot);
      SlotsInUsed(four, slot);
      SlotsInUsed(two, slot);
      InSlotMembers(four, slot);
      InSlotMembers(two, slot);
      assert four[3] in four && two[1] in two;
      assert InSlot(four, slot) != [] ==> InSlot(four, slot)[0] in four && InSlot(four, slot)[0].slot == slot;
      assert InSlot(two, slot) != [] ==> InSlot(two, slot)[0] in two && InSlot(two, slot)[0].slot == slot;
    }
    ZeroAndOne(slots);
  }

  lemma {:induction false} IncreasesByOne(slots: seq<int>, k: nat)
    requires Increasing(slots) && k < |slots|
    ensures slots[0] + k <= slots[k]
  {
    if k > 0 {
      IncreasesByOne(slots, k - 1);
    }
  }

  lemma ZeroAndOne(slots: seq<int>)
    requires Increasing(slots) && forall slot :: slot in slots <==> slot in {0, 1}
    ensures slots == [0, 1]
  {
    assert 0 in slots && 1 in slots;
    var i :| 0 <= i < |slots| && slots[i] == 0;
    var j :| 0 <= j < |slots| && slots[j] == 1;
    var last := |slots| - 1;
    IncreasesByOne(slots, i);
    IncreasesByOne(slots, j);
    IncreasesByOne(slots, last);
    assert slots[0] in slots && slots[last] in slots;
    assert i == 0 && last == 1;
  }

  /** Only the second clock goes on, and it has one step to dispatch. */
  lemma {:induction false} ExampleBusiest(plans: seq<ChannelPlan>, four: seq<Step>, two: seq<Step>)
    requires |plans| == 2 && plans[0].steps == four && plans[1].steps == two
    requires SlotsAlong(four) == [0, 0, 0, 0] && SlotsAlong(two) == [0, 1]
    ensures Busiest(plans, 0, 1) == 1
  {
    ExampleSteps(four, two);
    hide InSlot, LastSlot, SlotsAlong, Busiest;
    var most := Busiest(plans, 0, 1);
    assert plans[0] in plans && plans[1] in plans;
    assert Active(plans[1], 1) && !Active(plans[0], 1);
    assert forall plan :: plan in plans ==> plan == plans[0] || plan == plans[1];
  }
}
