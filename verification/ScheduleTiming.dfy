/** When the steps start: closed form, barriers, gaps, and the least delay. */
module ScheduleTiming {
  import opened Prefixes
  import opened Timegrid
  import opened Channels
  import opened Schedules
  import opened ScheduleOrder

  ghost predicate Covers(slots: seq<int>, steps: seq<Step>) {
    Increasing(slots) && forall step :: step in steps ==> step.slot in slots
  }

  /** The index of a slot among the visited ones. */
  ghost function SlotIndex(slots: seq<int>, slot: int): (k: nat)
    requires slot in slots
    ensures k < |slots| && slots[k] == slot
  {
    var k :| 0 <= k < |slots| && slots[k] == slot;
    k
  }

  /** How many steps registered earlier on the clock share the slot of the i-th. */
  function Rank(steps: seq<Step>, i: nat): nat
    requires i < |steps|
  {
    |InSlot(steps[..i], steps[i].slot)|
  }

  /** The start tick of the i-th step of a clock: its slot, the shift of that slot,
      and one tick of dispatch for itself and for each step before it in the slot. */
  ghost function StartOf(plans: seq<ChannelPlan>, slots: seq<int>, steps: seq<Step>, i: nat): int
    requires i < |steps| && steps[i].slot in slots
  {
    steps[i].slot + Shift(plans, slots, SlotIndex(slots, steps[i].slot)) + Rank(steps, i) + 1
  }

  /** Where the i-th registered step stands among the emitted ones of its clock. */
  ghost function PlaceOf(steps: seq<Step>, slots: seq<int>, i: nat): nat
    requires i < |steps| && steps[i].slot in slots
  {
    |SlotOrder(steps, slots, SlotIndex(slots, steps[i].slot))| + Rank(steps, i)
  }

  // --- ranks ---

  lemma RankIsPlaceInSlot(steps: seq<Step>, i: nat)
    requires i < |steps|
    ensures Rank(steps, i) < |InSlot(steps, steps[i].slot)|
    ensures InSlot(steps, steps[i].slot)[Rank(steps, i)] == steps[i]
  {
    var slot := steps[i].slot;
    assert steps == steps[..i] + [steps[i]] + steps[i + 1..];
    InSlotConcat(steps[..i] + [steps[i]], steps[i + 1..], slot);
    InSlotConcat(steps[..i], [steps[i]], slot);
    InSlotOfUniform([steps[i]], slot, slot);
  }

  lemma RanksFollowOrder(steps: seq<Step>, i: nat, j: nat)
    requires i < j < |steps| && steps[i].slot == steps[j].slot
    ensures Rank(steps, i) < Rank(steps, j)
  {
    assert steps[..j][..i] == steps[..i];
    RankIsPlaceInSlot(steps[..j], i);
  }

  // --- closed form ---

  lemma {:induction false} ClockEntriesGrow(plans: seq<ChannelPlan>, slots: seq<int>, plan: ChannelPlan, k: nat, n: nat)
    requires k <= n <= |slots|
    ensures ClockEntries(plans, slots, plan, k) <= ClockEntries(plans, slots, plan, n)
    ensures |ClockEntries(plans, slots, plan, n)| == |SlotOrder(plan.steps, slots, n)|
    decreases n
  {
    hide InSlot, Shift;
    if n > 0 {
      if k < n {
        ClockEntriesGrow(plans, slots, plan, k, n - 1);
      } else {
        ClockEntriesGrow(plans, slots, plan, n - 1, n - 1);
      }
    }
  }

  /** Every step of a clock is emitted, at its start tick and at its place. */
  lemma EmittedAtStart(plans: seq<ChannelPlan>, slots: seq<int>, plan: ChannelPlan, i: nat)
    requires Covers(slots, plan.steps) && i < |plan.steps|
    ensures var entries, m := ClockEntries(plans, slots, plan, |slots|), PlaceOf(plan.steps, slots, i);
            m < |entries| && entries[m] == Timed(plan.clock, plan.steps[i], StartOf(plans, slots, plan.steps, i))
  {
    hide InSlot, Shift;
    var slot := plan.steps[i].slot;
    var k := SlotIndex(slots, slot);
    var before := ClockEntries(plans, slots, plan, k);
    var run := RunOf(plan.clock, InSlot(plan.steps, slots[k]), slots[k], Shift(plans, slots, k));
    assert ClockEntries(plans, slots, plan, k + 1) == before + run;
    ClockEntriesGrow(plans, slots, plan, k, k);
    ClockEntriesGrow(plans, slots, plan, k + 1, |slots|);
    RankIsPlaceInSlot(plan.steps, i);
    assert (before + run)[|before| + Rank(plan.steps, i)] == run[Rank(plan.steps, i)];
  }

  lemma {:induction false} SlotOrderGrows(steps: seq<Step>, slots: seq<int>, k: nat, n: nat)
    requires k < n <= |slots|
    ensures |SlotOrder(steps, slots, k)| + |InSlot(steps, slots[k])| <= |SlotOrder(steps, slots, n)|
  {
    hide InSlot;
    if k + 1 < n {
      SlotOrderGrows(steps, slots, k, n - 1);
    }
  }

  /** Places follow slots and, within a slot, the order of registration. */
  lemma PlacesFollowSlots(steps: seq<Step>, slots: seq<int>, i: nat, j: nat)
    requires Covers(slots, steps) && i < |steps| && j < |steps|
    requires steps[i].slot < steps[j].slot || (steps[i].slot == steps[j].slot && i < j)
    ensures PlaceOf(steps, slots, i) < PlaceOf(steps, slots, j)
  {
    hide InSlot, SlotOrder;
    if steps[i].slot < steps[j].slot {
      RankIsPlaceInSlot(steps, i);
      SlotOrderGrows(steps, slots, SlotIndex(slots, steps[i].slot), SlotIndex(slots, steps[j].slot));
    } else {
      RanksFollowOrder(steps, i, j);
    }
  }

  lemma {:induction false} SlotOrderWithOneMore(steps: seq<Step>, step: Step, slots: seq<int>, k: nat)
    requires k <= |slots| && Increasing(slots)
    ensures |SlotOrder(steps + [step], slots, k)| ==
            |SlotOrder(steps, slots, k)| + if step.slot in slots[..k] then 1 else 0
  {
    if k > 0 {
      SlotOrderWithOneMore(steps, step, slots, k - 1);
      PrefixOfAppend(steps, step);
      PrefixGrows(slots, k - 1);
    }
  }

  lemma {:induction false} SlotOrderLength(steps: seq<Step>, slots: seq<int>)
    requires Covers(slots, steps)
    ensures |SlotOrder(steps, slots, |slots|)| == |steps|
  {
    if steps == [] {
      NothingInOrder(slots, |slots|);
    } else {
      var front, last := steps[..|steps| - 1], steps[|steps| - 1];
      SlotOrderLength(front, slots);
      SlotOrderWithOneMore(front, last, slots, |slots|);
      PrefixWhole(slots);
      assert steps == front + [last];
    }
  }

  lemma {:induction false} NothingInOrder(slots: seq<int>, k: nat)
    requires k <= |slots|
    ensures SlotOrder([], slots, k) == []
  {
    if k > 0 {
      NothingInOrder(slots, k - 1);
    }
  }

  /** Nothing is lost and nothing is added: as many entries as steps, and distinct
      steps at distinct places. */
  lemma EmittedExactlyOnce(plans: seq<ChannelPlan>, slots: seq<int>, plan: ChannelPlan)
    requires Covers(slots, plan.steps)
    ensures |ClockEntries(plans, slots, plan, |slots|)| == |plan.steps|
    ensures forall i, j :: 0 <= i < j < |plan.steps| ==>
              PlaceOf(plan.steps, slots, i) != PlaceOf(plan.steps, slots, j)
  {
    hide PlaceOf, SlotOrder, InSlot;
    ClockEntriesGrow(plans, slots, plan, |slots|, |slots|);
    SlotOrderLength(plan.steps, slots);
    forall i, j | 0 <= i < j < |plan.steps|
      ensures PlaceOf(plan.steps, slots, i) != PlaceOf(plan.steps, slots, j)
    {
      if plan.steps[i].slot <= plan.steps[j].slot {
        PlacesFollowSlots(plan.steps, slots, i, j);
      } else {
        PlacesFollowSlots(plan.steps, slots, j, i);
      }
    }
  }

  // --- barriers and gaps ---

  lemma ShiftStep(plans: seq<ChannelPlan>, slots: seq<int>, i: nat, k: nat)
    requires k + 1 < |slots| && i < |plans| && Active(plans[i], slots[k + 1])
    ensures Shift(plans, slots, k) + |InSlot(plans[i].steps, slots[k])| <= Shift(plans, slots, k + 1)
  {
    hide InSlot, LastSlot;
    assert plans[i] in plans;
    var most := Busiest(plans, slots[k], slots[k + 1]);
  }

  /** Over the slots a clock is active in, the shift grows at least by what the
      clock emits. */
  lemma {:induction false} ShiftPaysForDispatch(plans: seq<ChannelPlan>, slots: seq<int>, i: nat, a: nat, b: nat)
    requires Increasing(slots) && a < b < |slots| && i < |plans| && Active(plans[i], slots[b])
    ensures Shift(plans, slots, a) + |InSlot(plans[i].steps, slots[a])| <= Shift(plans, slots, b)
    decreases b
  {
    hide InSlot, LastSlot, Shift;
    ShiftStep(plans, slots, i, b - 1);
    if a + 1 < b {
      ShiftPaysForDispatch(plans, slots, i, a, b - 1);
    }
  }

  lemma {:induction false} ShiftGrows(plans: seq<ChannelPlan>, slots: seq<int>, a: nat, b: nat)
    requires a <= b < |slots|
    ensures Shift(plans, slots, a) <= Shift(plans, slots, b)
  {
    hide Busiest;
    if a < b {
      ShiftGrows(plans, slots, a, b - 1);
    }
  }

  lemma {:induction false} IncreasingIndex(slots: seq<int>, a: nat, b: nat)
    requires Increasing(slots) && a < |slots| && b < |slots|
    ensures slots[a] < slots[b] <==> a < b
  {
    if a > b {
      assert slots[b] < slots[a];
    }
  }

  /** The barrier of a slot: whatever a clock that is still active there has started
      before, with or without a step in the slot itself, it started before the tick
      of the barrier; and all that any clock starts in the slot or later comes after
      that tick, the first of the slot right after it. */
  lemma BarrierAligns(plans: seq<ChannelPlan>, slots: seq<int>, k: nat, c: nat, i: nat, d: nat, j: nat)
    requires k < |slots| && c < |plans| && d < |plans| && i < |plans[c].steps| && j < |plans[d].steps|
    requires Covers(slots, plans[c].steps) && Covers(slots, plans[d].steps)
    requires Active(plans[c], slots[k]) && plans[c].steps[i].slot < slots[k] <= plans[d].steps[j].slot
    ensures StartOf(plans, slots, plans[c].steps, i) < slots[k] + Shift(plans, slots, k)
    ensures slots[k] + Shift(plans, slots, k) < StartOf(plans, slots, plans[d].steps, j)
    ensures plans[d].steps[j].slot == slots[k] ==>
              StartOf(plans, slots, plans[d].steps, j) ==
                slots[k] + Shift(plans, slots, k) + 1 + Rank(plans[d].steps, j)
  {
    hide InSlot, Shift, LastSlot, Rank, Active;
    var a, b := SlotIndex(slots, plans[c].steps[i].slot), SlotIndex(slots, plans[d].steps[j].slot);
    IncreasingIndex(slots, a, k);
    IncreasingIndex(slots, b, k);
    RankIsPlaceInSlot(plans[c].steps, i);
    ShiftPaysForDispatch(plans, slots, c, a, k);
    ShiftGrows(plans, slots, k, b);
    IncreasingIndex(slots, k, b);
  }

  /** A step in a later slot starts later, by at least the slots between and one
      more tick, on any clock, as long as the clock of the earlier step is still
      active then. */
  lemma GapBetweenSlots(plans: seq<ChannelPlan>, slots: seq<int>, c: nat, i: nat, d: nat, j: nat)
    requires c < |plans| && d < |plans| && i < |plans[c].steps| && j < |plans[d].steps|
    requires Covers(slots, plans[c].steps) && Covers(slots, plans[d].steps)
    requires plans[c].steps[i].slot < plans[d].steps[j].slot
    requires Active(plans[c], plans[d].steps[j].slot)
    ensures StartOf(plans, slots, plans[d].steps, j) - StartOf(plans, slots, plans[c].steps, i)
            >= plans[d].steps[j].slot - plans[c].steps[i].slot + 1
  {
    hide InSlot, Shift, LastSlot;
    RankIsPlaceInSlot(plans[c].steps, i);
    ShiftPaysForDispatch(plans, slots, c,
      SlotIndex(slots, plans[c].steps[i].slot), SlotIndex(slots, plans[d].steps[j].slot));
  }

  lemma {:induction false} ActiveAtOwnSlots(steps: seq<Step>, i: nat)
    requires i < |steps|
    ensures steps[i].slot <= LastSlot(steps)
  {
    if i < |steps| - 1 {
      ActiveAtOwnSlots(steps[..|steps| - 1], i);
    }
  }

  /** Two steps of a clock that do not overlap by more than a tick before delays,
      do not overlap after them, exactly when they are in different slots or were
      registered in their order. */
  lemma StepsDoNotOverlap(plans: seq<ChannelPlan>, slots: seq<int>, c: nat, i: nat, j: nat, duration: nat)
    requires c < |plans| && i < |plans[c].steps| && j < |plans[c].steps| && i != j
    requires Covers(slots, plans[c].steps)
    requires plans[c].steps[i].slot <= plans[c].steps[j].slot
    requires plans[c].steps[i].slot + duration <= plans[c].steps[j].slot + 1
    ensures StartOf(plans, slots, plans[c].steps, i) + duration <= StartOf(plans, slots, plans[c].steps, j) <==>
            plans[c].steps[i].slot < plans[c].steps[j].slot || i < j
  {
    hide InSlot, Shift, LastSlot, Rank;
    var steps := plans[c].steps;
    if steps[i].slot < steps[j].slot {
      ActiveAtOwnSlots(steps, j);
      GapBetweenSlots(plans, slots, c, i, c, j);
    } else if i < j {
      RanksFollowOrder(steps, i, j);
    } else {
      RanksFollowOrder(steps, j, i);
    }
  }

  // --- the delay is the least possible ---

  /** A common delay per slot under which every clock still active has had time to
      dispatch what it had in the slot before. */
  ghost predicate PaysForDispatch(plans: seq<ChannelPlan>, slots: seq<int>, delays: seq<int>) {
    && |delays| == |slots|
    && (forall k :: 0 <= k < |delays| ==> 0 <= delays[k])
    && (forall k, i :: 0 < k < |delays| && 0 <= i < |plans| && Active(plans[i], slots[k]) ==>
          delays[k - 1] + |InSlot(plans[i].steps, slots[k - 1])| <= delays[k])
  }

  ghost function Shifts(plans: seq<ChannelPlan>, slots: seq<int>): seq<int> {
    seq(|slots|, k requires 0 <= k < |slots| => Shift(plans, slots, k))
  }

  lemma ShiftsPay(plans: seq<ChannelPlan>, slots: seq<int>)
    requires Increasing(slots)
    ensures PaysForDispatch(plans, slots, Shifts(plans, slots))
  {
    hide InSlot, LastSlot, Shift, Active;
    forall k, i | 0 < k < |slots| && 0 <= i < |plans| && Active(plans[i], slots[k])
      ensures Shift(plans, slots, k - 1) + |InSlot(plans[i].steps, slots[k - 1])| <= Shift(plans, slots, k)
    {
      ShiftPaysForDispatch(plans, slots, i, k - 1, k);
    }
  }

  lemma DelayStep(plans: seq<ChannelPlan>, slots: seq<int>, delays: seq<int>, k: nat, i: nat)
    requires k < |slots| && i < |plans| && Active(plans[i], slots[k])
    requires PaysForDispatch(plans, slots, delays)
    requires k > 0 ==> Shift(plans, slots, k - 1) <= delays[k - 1]
    ensures ReadyAt(plans, slots, k, plans[i]) <= delays[k]
  {
    hide InSlot, Active, Shift;
  }

  /** No delays that pay for dispatch are ever smaller than those of the compiler. */
  lemma {:induction false} ShiftIsLeast(plans: seq<ChannelPlan>, slots: seq<int>, delays: seq<int>, k: nat)
    requires k < |slots| && (forall j :: 0 <= j < |slots| ==> slots[j] in AllSlots(plans))
    requires PaysForDispatch(plans, slots, delays)
    ensures Shift(plans, slots, k) <= delays[k]
  {
    hide Active, SlotsOf, Shift, ReadyAt;
    if k > 0 {
      ShiftIsLeast(plans, slots, delays, k - 1);
    }
    ShiftIsSlowest(plans, slots, k);
    var i :| 0 <= i < |plans| && Active(plans[i], slots[k]) &&
             ReadyAt(plans, slots, k, plans[i]) == Shift(plans, slots, k);
    DelayStep(plans, slots, delays, k, i);
  }
}
