/** The order of emission on each clock: a stable sort by slot, and the order of
    registration exactly when that is ordered in time. */
module ScheduleOrder {
  import opened Prefixes
  import opened Timegrid
  import opened Channels
  import opened Schedules

  // --- one clock ---

  /** What one clock emits in the first `k` slots. */
  function ClockEntries(plans: seq<ChannelPlan>, slots: seq<int>, plan: ChannelPlan, k: nat): seq<Entry>
    requires k <= |slots|
  {
    if k == 0 then []
    else
      ClockEntries(plans, slots, plan, k - 1) +
      RunOf(plan.clock, InSlot(plan.steps, slots[k - 1]), slots[k - 1], Shift(plans, slots, k - 1))
  }

  /** The timed entries of one clock, in the order of the schedule. */
  function OnClock(entries: seq<Entry>, clock: string): seq<Entry> {
    if entries == [] then []
    else
      var before, last := OnClock(entries[..|entries| - 1], clock), entries[|entries| - 1];
      if last.Timed? && last.clock == clock then before + [last] else before
  }

  lemma OnClockNothing(clock: string)
    ensures OnClock([], clock) == []
  {
  }

  lemma {:induction false} OnClockConcat(a: seq<Entry>, b: seq<Entry>, clock: string)
    ensures OnClock(a + b, clock) == OnClock(a, clock) + OnClock(b, clock)
  {
    if b == [] {
      assert a + b == a;
    } else {
      var c := b[..|b| - 1];
      assert (a + b)[..|a + b| - 1] == a + c;
      OnClockConcat(a, c, clock);
    }
  }

  lemma {:induction false} OnClockRun(own: string, steps: seq<Step>, slot: int, shift: int, clock: string)
    ensures OnClock(RunOf(own, steps, slot, shift), clock) ==
            if own == clock then RunOf(own, steps, slot, shift) else []
    decreases |steps|
  {
    var run := RunOf(own, steps, slot, shift);
    if steps != [] {
      assert run[..|run| - 1] == RunOf(own, steps[..|steps| - 1], slot, shift);
      OnClockRun(own, steps[..|steps| - 1], slot, shift, clock);
    }
  }

  lemma SameClock(plans: seq<ChannelPlan>, i: nat, j: nat)
    requires DistinctClocks(plans) && i < |plans| && j < |plans|
    ensures plans[i].clock == plans[j].clock <==> i == j
  {
  }

  lemma {:induction false} OnClockSlot(plans: seq<ChannelPlan>, n: nat, slot: int, shift: int, i: nat)
    requires DistinctClocks(plans) && n <= |plans| && i < |plans|
    ensures OnClock(SlotEntries(plans, n, slot, shift), plans[i].clock) ==
            if i < n then RunOf(plans[i].clock, InSlot(plans[i].steps, slot), slot, shift) else []
  {
    hide OnClock, InSlot, RunOf, DistinctClocks;
    if n > 0 {
      SameClock(plans, n - 1, i);
      var run := RunOf(plans[n - 1].clock, InSlot(plans[n - 1].steps, slot), slot, shift);
      OnClockSlot(plans, n - 1, slot, shift, i);
      OnClockConcat(SlotEntries(plans, n - 1, slot, shift), run, plans[i].clock);
      OnClockRun(plans[n - 1].clock, InSlot(plans[n - 1].steps, slot), slot, shift, plans[i].clock);
    } else {
      OnClockNothing(plans[i].clock);
    }
  }

  lemma {:induction false} OnClockEmitted(plans: seq<ChannelPlan>, slots: seq<int>, k: nat, i: nat)
    requires DistinctClocks(plans) && k <= |slots| && i < |plans|
    ensures OnClock(Emitted(plans, slots, k), plans[i].clock) == ClockEntries(plans, slots, plans[i], k)
  {
    hide OnClock, SlotEntries, Shift, InSlot, RunOf, DistinctClocks;
    if k > 0 {
      var slot, shift, clock := slots[k - 1], Shift(plans, slots, k - 1), plans[i].clock;
      var before, entries := Emitted(plans, slots, k - 1), SlotEntries(plans, |plans|, slot, shift);
      OnClockEmitted(plans, slots, k - 1, i);
      OnClockConcat(before, entries, clock);
      OnClockSlot(plans, |plans|, slot, shift, i);
    } else {
      OnClockNothing(plans[i].clock);
    }
  }

  lemma {:induction false} OnClockTails(plans: seq<ChannelPlan>, n: nat, slots: seq<int>, root: string, clock: string)
    requires n <= |plans|
    ensures OnClock(Tails(plans, n, slots, root), clock) == []
  {
    if n > 0 {
      OnClockTails(plans, n - 1, slots, root, clock);
      if plans[n - 1].hadAny {
        var tail := TailIdle(plans[n - 1].clock, LastName(SlotOrder(plans[n - 1].steps, slots, |slots|), root));
        PrefixOfAppend(Tails(plans, n - 1, slots, root), tail);
      }
    }
  }

  /** The schedule restricted to a clock is what that clock emits by itself. */
  lemma OnClockSchedule(plans: seq<ChannelPlan>, root: string, i: nat)
    requires DistinctClocks(plans) && i < |plans|
    ensures var slots := Sorted(AllSlots(plans));
            OnClock(ScheduleOf(plans, root), plans[i].clock) == ClockEntries(plans, slots, plans[i], |slots|)
  {
    var slots := Sorted(AllSlots(plans));
    var emitted, tails := Emitted(plans, slots, |slots|), Tails(plans, |plans|, slots, root);
    OnClockConcat(emitted, tails, plans[i].clock);
    OnClockEmitted(plans, slots, |slots|, i);
    OnClockTails(plans, |plans|, slots, root, plans[i].clock);
  }

  // --- order on one clock: a stable sort by slot ---

  function StepsIn(entries: seq<Entry>): seq<Step>
    requires forall e :: e in entries ==> e.Timed?
  {
    seq(|entries|, m requires 0 <= m < |entries| => entries[m].step)
  }

  lemma {:induction false} ClockEntriesAreTimed(plans: seq<ChannelPlan>, slots: seq<int>, plan: ChannelPlan, k: nat)
    requires k <= |slots|
    ensures forall e :: e in ClockEntries(plans, slots, plan, k) ==> e.Timed? && e.clock == plan.clock
    ensures StepsIn(ClockEntries(plans, slots, plan, k)) == SlotOrder(plan.steps, slots, k)
  {
    hide InSlot, Shift;
    if k > 0 {
      ClockEntriesAreTimed(plans, slots, plan, k - 1);
    }
  }

  ghost predicate SortedBySlot(steps: seq<Step>) {
    forall i, j :: 0 <= i <= j < |steps| ==> steps[i].slot <= steps[j].slot
  }

  lemma {:induction false} NoneWithout(steps: seq<Step>, slot: int)
    requires forall step :: step in steps ==> step.slot != slot
    ensures InSlot(steps, slot) == []
  {
    if steps != [] {
      NoneWithout(steps[..|steps| - 1], slot);
    }
  }

  lemma {:induction false} InSlotConcat(a: seq<Step>, b: seq<Step>, slot: int)
    ensures InSlot(a + b, slot) == InSlot(a, slot) + InSlot(b, slot)
  {
    if b == [] {
      assert a + b == a;
    } else {
      var c := b[..|b| - 1];
      assert (a + b)[..|a + b| - 1] == a + c;
      InSlotConcat(a, c, slot);
    }
  }

  lemma {:induction false} InSlotOfUniform(steps: seq<Step>, own: int, slot: int)
    requires forall step :: step in steps ==> step.slot == own
    ensures InSlot(steps, slot) == if slot == own then steps else []
  {
    if steps != [] {
      InSlotOfUniform(steps[..|steps| - 1], own, slot);
    }
  }

  lemma {:induction false} SlotOrderIsSorted(steps: seq<Step>, slots: seq<int>, k: nat)
    requires k <= |slots| && Increasing(slots)
    ensures SortedBySlot(SlotOrder(steps, slots, k))
    ensures forall step :: step in SlotOrder(steps, slots, k) ==> step.slot in slots[..k]
  {
    if k > 0 {
      SlotOrderIsSorted(steps, slots, k - 1);
      InSlotMembers(steps, slots[k - 1]);
      PrefixGrows(slots, k - 1);
    }
  }

  lemma {:induction false} SlotOrderKeepsSlots(steps: seq<Step>, slots: seq<int>, k: nat, slot: int)
    requires k <= |slots| && Increasing(slots)
    ensures InSlot(SlotOrder(steps, slots, k), slot) == if slot in slots[..k] then InSlot(steps, slot) else []
  {
    hide InSlot;
    if k == 0 {
      NoneWithout([], slot);
    } else {
      var own := slots[k - 1];
      SlotOrderKeepsSlots(steps, slots, k - 1, slot);
      InSlotConcat(SlotOrder(steps, slots, k - 1), InSlot(steps, own), slot);
      InSlotMembers(steps, own);
      InSlotOfUniform(InSlot(steps, own), own, slot);
      PrefixGrows(slots, k - 1);
    }
  }

  /** Emission sorts the steps of a clock by slot and is stable: each slot keeps
      its steps, in their order.  (So it is a permutation, too.) */
  lemma EmissionIsStableSort(steps: seq<Step>, slots: seq<int>)
    requires Increasing(slots) && forall step :: step in steps ==> step.slot in slots
    ensures SortedBySlot(SlotOrder(steps, slots, |slots|))
    ensures forall slot :: InSlot(SlotOrder(steps, slots, |slots|), slot) == InSlot(steps, slot)
  {
    hide InSlot, SlotOrder;
    SlotOrderIsSorted(steps, slots, |slots|);
    PrefixWhole(slots);
    forall slot
      ensures InSlot(SlotOrder(steps, slots, |slots|), slot) == InSlot(steps, slot)
    {
      SlotOrderKeepsSlots(steps, slots, |slots|, slot);
      if slot !in slots {
        NoneWithout(steps, slot);
      }
    }
  }

  lemma {:induction false} LastIsLatest(steps: seq<Step>)
    requires SortedBySlot(steps) && steps != []
    ensures InSlot(steps, steps[|steps| - 1].slot) != []
    ensures forall slot :: InSlot(steps, slot) != [] ==> slot <= steps[|steps| - 1].slot
  {
    forall slot | InSlot(steps, slot) != []
      ensures slot <= steps[|steps| - 1].slot
    {
      InSlotMembers(steps, slot);
      assert InSlot(steps, slot)[0] in steps;
    }
  }

  lemma InSlotOfFront(a: seq<Step>, b: seq<Step>, slot: int)
    requires a != [] && b != [] && a[|a| - 1].slot == b[|b| - 1].slot
    requires InSlot(a, slot) == InSlot(b, slot)
    requires slot == a[|a| - 1].slot ==> a[|a| - 1] == b[|b| - 1]
    ensures InSlot(a[..|a| - 1], slot) == InSlot(b[..|b| - 1], slot)
  {
    var x, y := InSlot(a[..|a| - 1], slot), InSlot(b[..|b| - 1], slot);
    if slot == a[|a| - 1].slot {
      assert (x + [a[|a| - 1]])[..|x|] == (y + [b[|b| - 1]])[..|y|];
    }
  }

  ghost predicate SameSlots(a: seq<Step>, b: seq<Step>) {
    forall slot :: InSlot(a, slot) == InSlot(b, slot)
  }

  lemma NothingHasNoSlots(b: seq<Step>)
    requires b != []
    ensures !SameSlots([], b) && !SameSlots(b, [])
  {
    LastOfSlot(b);
    assert InSlot([], b[|b| - 1].slot) == [];
  }

  lemma LastOfSlot(steps: seq<Step>)
    requires steps != []
    ensures var x := steps[|steps| - 1];
            InSlot(steps, x.slot) != [] && InSlot(steps, x.slot)[|InSlot(steps, x.slot)| - 1] == x
  {
  }

  /** The last step of either list is the last of the last slot. */
  lemma SameLast(a: seq<Step>, b: seq<Step>)
    requires SortedBySlot(a) && SortedBySlot(b) && SameSlots(a, b) && a != [] && b != []
    ensures a[|a| - 1] == b[|b| - 1]
  {
    hide SortedBySlot, InSlot;
    var x, y := a[|a| - 1], b[|b| - 1];
    LastIsLatest(a);
    LastIsLatest(b);
    assert InSlot(a, x.slot) == InSlot(b, x.slot) && InSlot(a, y.slot) == InSlot(b, y.slot);
    LastOfSlot(a);
    LastOfSlot(b);
  }

  lemma SameFronts(a: seq<Step>, b: seq<Step>)
    requires SameSlots(a, b) && a != [] && b != [] && a[|a| - 1] == b[|b| - 1]
    ensures SameSlots(a[..|a| - 1], b[..|b| - 1])
  {
    hide InSlot;
    var a', b' := a[..|a| - 1], b[..|b| - 1];
    forall slot
      ensures InSlot(a', slot) == InSlot(b', slot)
    {
      InSlotOfFront(a, b, slot);
    }
  }

  /** A stable sort by slot is unique. */
  lemma {:induction false} StableSortIsUnique(a: seq<Step>, b: seq<Step>)
    requires SortedBySlot(a) && SortedBySlot(b) && SameSlots(a, b)
    ensures a == b
    decreases |a|
  {
    hide SortedBySlot, SameSlots;
    if a == [] {
      if b != [] {
        NothingHasNoSlots(b);
      }
    } else if b == [] {
      NothingHasNoSlots(a);
    } else {
      SameLast(a, b);
      SameFronts(a, b);
      SortedFront(a);
      SortedFront(b);
      StableSortIsUnique(a[..|a| - 1], b[..|b| - 1]);
      assert a == a[..|a| - 1] + [a[|a| - 1]] && b == b[..|b| - 1] + [b[|b| - 1]];
    }
  }

  lemma SortedFront(steps: seq<Step>)
    requires SortedBySlot(steps) && steps != []
    ensures SortedBySlot(steps[..|steps| - 1])
  {
  }

  /** The steps of a clock are emitted in the order they were registered exactly
      when their slots do not decrease along that order. */
  lemma RegistrationOrderIsKept(steps: seq<Step>, slots: seq<int>)
    requires Increasing(slots) && forall step :: step in steps ==> step.slot in slots
    ensures SlotOrder(steps, slots, |slots|) == steps <==> SortedBySlot(steps)
  {
    hide InSlot, SlotOrder, SortedBySlot;
    EmissionIsStableSort(steps, slots);
    if SortedBySlot(steps) {
      StableSortIsUnique(SlotOrder(steps, slots, |slots|), steps);
    }
  }
}
