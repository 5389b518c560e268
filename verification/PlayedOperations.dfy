/** From the instructions of an experiment to the operations played, one by one: which
    operation each becomes, in which order, and which are left out. */
module PlayedOperations {
  import opened Prefixes
  import opened Timegrid
  import opened Channels
  import opened Schedules
  import opened ScheduleCompiler
  import opened ScheduleOrder
  import opened ScheduleTiming
  import opened ScheduleMeaning
  import opened SchedulePhases
  import opened PlayedPhases

  // --- what the experiment says ---

  /** The instructions of a clock, as they are given. */
  function GivenOn(raws: seq<RawInstruction>, clock: string): seq<RawInstruction> {
    if raws == [] then []
    else
      var before, last := GivenOn(raws[..|raws| - 1], clock), raws[|raws| - 1];
      if last.clock == clock then before + [last] else before
  }

  /** The operation for an instruction that comes after others in the list: phases are
      shifted, frequencies are set, acquisitions are numbered, and everything that
      lasts does so for whole grid intervals of 4 ns. */
  ghost predicate Does(op: Operation, raw: RawInstruction, before: seq<Instruction>) {
    match raw.kind
    case SetPhase(phase) => op == ShiftClockPhase(phase - PhaseAfter(before))
    case ShiftPhase(phase) => op == ShiftClockPhase(phase)
    case SetFreq(frequency) => op == SetClockFrequency(frequency)
    case ShiftFreq(frequency) => op == SetClockFrequency(FrequencyAfter(before) + frequency)
    case Acquire => op == Acquisition(AcquisitionsIn(before), RoundToTick(raw.duration) * 4)
    case Delay => op == IdlePulse(RoundToTick(raw.duration) * 4)
    case Pulse => op == PlayPulse(RoundToTick(raw.duration) * 4)
  }

  /** The k-th of the given instructions is left out only if it controls a frequency,
      and that is not asked for. */
  predicate IsPlayed(raw: RawInstruction, includeFreqOps: bool) {
    includeFreqOps || !(raw.kind.SetFreq? || raw.kind.ShiftFreq?)
  }

  /** The places, among those given, of all that are played: in the order of their
      nearest grid lines, and as they are given where these are the same. */
  ghost predicate IsPlayOrder(given: seq<RawInstruction>, includeFreqOps: bool, at: seq<nat>) {
    && (forall k :: k in at <==> 0 <= k < |given| && IsPlayed(given[k], includeFreqOps))
    && (forall m, n :: 0 <= m < n < |at| ==>
          && at[m] < |given| && at[n] < |given|
          && (|| RoundToTick(given[at[m]].t0) < RoundToTick(given[at[n]].t0)
              || (RoundToTick(given[at[m]].t0) == RoundToTick(given[at[n]].t0) && at[m] < at[n])))
  }

  // --- what is registered ---

  lemma {:induction false} RegisteredAsGiven(raws: seq<RawInstruction>, clock: string)
    ensures |Registered(raws, clock)| == |GivenOn(raws, clock)|
    ensures forall k :: 0 <= k < |GivenOn(raws, clock)| ==>
              Registered(raws, clock)[k] == Lower(GivenOn(raws, clock)[k], k)
  {
    if raws != [] {
      RegisteredAsGiven(raws[..|raws| - 1], clock);
    }
  }

  /** One more instruction, in the direct semantics. */
  lemma OneMoreInstruction(insts: seq<Instruction>, inst: Instruction)
    ensures PhaseAfter([]) == 0.0 && FrequencyAfter([]) == 0.0 && AcquisitionsIn([]) == 0
    ensures PhaseAfter(insts + [inst]) ==
            if inst.kind.SetPhase? then inst.kind.phase
            else if inst.kind.ShiftPhase? then PhaseAfter(insts) + inst.kind.phase
            else PhaseAfter(insts)
    ensures FrequencyAfter(insts + [inst]) ==
            if inst.kind.SetFreq? then inst.kind.frequency
            else if inst.kind.ShiftFreq? then FrequencyAfter(insts) + inst.kind.frequency
            else FrequencyAfter(insts)
    ensures AcquisitionsIn(insts + [inst]) == AcquisitionsIn(insts) + if inst.kind.Acquire? then 1 else 0
  {
    PrefixOfAppend(insts, inst);
  }

  /** The step stands for the k-th of the instructions given. */
  ghost predicate StandsFor(step: Step, given: seq<RawInstruction>, registered: seq<Instruction>, k: nat) {
    && k < |given| && k <= |registered|
    && Does(step.op, given[k], registered[..k])
    && step.slot == RoundToTick(given[k].t0) && step.inst.name == given[k].name
  }

  /** The operation of an instruction in a log. */
  lemma OperationInLog(log: ChannelLog, raw: RawInstruction, k: nat)
    requires log.Valid() && k < |log.instructions| && log.instructions[k] == Lower(raw, k)
    ensures Does(ToStep(log, log.instructions[k]).op, raw, log.instructions[..k])
    ensures ToStep(log, log.instructions[k]).slot == RoundToTick(raw.t0)
  {
    ToTickExact(raw.t0);
    hide PhaseAfter, FrequencyAfter, AcquisitionsIn, RoundToTick;
    PrefixGrows(log.instructions, k);
    OneMoreInstruction(log.instructions[..k], log.instructions[k]);
    assert log.phases[k] == PhaseAfter(log.instructions[..k + 1]);
    assert log.frequencies[k] == FrequencyAfter(log.instructions[..k + 1]);
    assert log.acquisitions[k] == AcquisitionsIn(log.instructions[..k + 1]);
    RecordedIsDirect(log, k);
  }

  // --- the order ---

  predicate Precedes(a: Instruction, b: Instruction) {
    ToTick(a.t0) < ToTick(b.t0) || (ToTick(a.t0) == ToTick(b.t0) && a.position < b.position)
  }

  ghost predicate InOrder(insts: seq<Instruction>) {
    forall m, n :: 0 <= m < n < |insts| ==> Precedes(insts[m], insts[n])
  }

  lemma InOrderAppend(insts: seq<Instruction>, inst: Instruction)
    requires InOrder(insts) && forall x :: x in insts ==> Precedes(x, inst)
    ensures InOrder(insts + [inst])
  {
  }

  lemma InOrderFront(insts: seq<Instruction>)
    requires InOrder(insts) && insts != []
    ensures InOrder(insts[..|insts| - 1])
    ensures var front, last := insts[..|insts| - 1], insts[|insts| - 1]; forall x :: x in front ==> Precedes(x, last)
  {
    hide Precedes;
    var front := insts[..|insts| - 1];
    assert forall m :: 0 <= m < |front| ==> front[m] == insts[m];
  }

  lemma LaterFollowsAll(insts: seq<Instruction>, last: Instruction, inst: Instruction)
    requires forall x :: x in insts ==> (x == last || Precedes(x, last)) && x.position < inst.position
    requires ToTick(last.t0) <= ToTick(inst.t0)
    ensures forall x :: x in insts ==> Precedes(x, inst)
  {
    hide ToTick;
  }

  lemma {:induction false} InsertedInOrder(sorted: seq<Instruction>, inst: Instruction)
    requires InOrder(sorted) && forall x :: x in sorted ==> x.position < inst.position
    ensures InOrder(Inserted(sorted, inst))
    ensures forall x :: x in Inserted(sorted, inst) <==> x in sorted || x == inst
  {
    hide ToTick, InOrder;
    if sorted == [] {
      InOrderAppend(sorted, inst);
    } else {
      var front, last := sorted[..|sorted| - 1], sorted[|sorted| - 1];
      assert sorted == front + [last];
      InOrderFront(sorted);
      if ToTick(last.t0) <= ToTick(inst.t0) {
        LaterFollowsAll(sorted, last, inst);
        InOrderAppend(sorted, inst);
      } else {
        InsertedInOrder(front, inst);
        InOrderAppend(Inserted(front, inst), last);
      }
    }
  }

  lemma {:induction false} SchedulableInOrder(insts: seq<Instruction>, includeFreqOps: bool)
    requires forall k :: 0 <= k < |insts| ==> insts[k].position == k
    ensures var sorted := ByGridLine(SchedulableOf(insts, includeFreqOps));
            && InOrder(sorted)
            && forall x :: x in sorted <==>
                 x in insts && (includeFreqOps || !(x.kind.SetFreq? || x.kind.ShiftFreq?))
  {
    if insts != [] {
      hide Inserted, InOrder;
      var front, last := insts[..|insts| - 1], insts[|insts| - 1];
      assert insts == front + [last];
      SchedulableInOrder(front, includeFreqOps);
      var before := SchedulableOf(front, includeFreqOps);
      if IsSchedulable(last.kind, includeFreqOps) {
        PrefixOfAppend(before, last);
        InsertedInOrder(ByGridLine(before), last);
      }
    }
  }

  /** The operations a clock plays: one for each of the instructions given, but those
      that control a frequency if that is not asked for; each the operation that the
      instruction stands for; in the order of grid lines. */
  lemma OperationsArePlayed(raws: seq<RawInstruction>, clock: string, includeFreqOps: bool, root: string)
    returns (at: seq<nat>)
    requires clock in ClocksInOrder(raws)
    ensures IsPlayOrder(GivenOn(raws, clock), includeFreqOps, at)
    ensures |at| == |Played(raws, clock, includeFreqOps, root)|
    ensures forall m :: 0 <= m < |at| ==>
              StandsFor(Played(raws, clock, includeFreqOps, root)[m],
                        GivenOn(raws, clock), Registered(raws, clock), at[m])
  {
    hide Played, StandsFor, GivenOn, Registered, ByGridLine, SchedulableOf, RoundToTick, FromLog, InOrder, IsPlayOrder;
    var played, registered := Played(raws, clock, includeFreqOps, root), Registered(raws, clock);
    PlaysByGridLine(raws, clock, includeFreqOps, root);
    PlayedFromLog(raws, clock, includeFreqOps, root);
    RegisteredAsGiven(raws, clock);
    SchedulableInOrder(registered, includeFreqOps);
    at := seq(|played|, m requires 0 <= m < |played| => played[m].inst.position);
    forall m | 0 <= m < |played|
      ensures at[m] < |registered| && played[m].inst == registered[at[m]]
      ensures StandsFor(played[m], GivenOn(raws, clock), registered, at[m])
    {
      PlayedStands(raws, clock, played, m);
    }
    OrderOfPlaces(GivenOn(raws, clock), includeFreqOps, registered, InstructionsOf(played), at);
  }

  lemma PlayedStands(raws: seq<RawInstruction>, clock: string, steps: seq<Step>, m: nat)
    requires FromLog(RecordedLog(raws, clock), steps) && m < |steps|
    ensures steps[m].inst.position < |Registered(raws, clock)|
    ensures steps[m].inst == Registered(raws, clock)[steps[m].inst.position]
    ensures StandsFor(steps[m], GivenOn(raws, clock), Registered(raws, clock), steps[m].inst.position)
  {
    hide RecordedLog, Registered, GivenOn, Does, ToStep, Lower, RoundToTick, ChannelLog.Valid;
    PlayedStepFromLog(RecordedLog(raws, clock), steps, m);
    RegisteredAsGiven(raws, clock);
    var k := steps[m].inst.position;
    OperationInLog(RecordedLog(raws, clock), GivenOn(raws, clock)[k], k);
    NameOfLowered(GivenOn(raws, clock)[k], k);
  }

  lemma NameOfLowered(raw: RawInstruction, k: nat)
    ensures Lower(raw, k).name == raw.name
  {
  }

  lemma PlayedStepFromLog(log: ChannelLog, steps: seq<Step>, m: nat)
    requires FromLog(log, steps) && m < |steps|
    ensures var step := steps[m];
            && step.inst.position < |log.instructions| && step.inst == log.instructions[step.inst.position]
            && |log.phases| == |log.frequencies| == |log.acquisitions| == |log.instructions|
            && step == ToStep(log, step.inst)
  {
    assert steps[m] in steps;
  }

  lemma OrderOfPlaces(given: seq<RawInstruction>, includeFreqOps: bool, registered: seq<Instruction>,
                      sorted: seq<Instruction>, at: seq<nat>)
    requires |registered| == |given|
    requires forall k :: 0 <= k < |given| ==> registered[k] == Lower(given[k], k)
    requires |at| == |sorted|
    requires forall m :: 0 <= m < |at| ==> at[m] < |given| && sorted[m] == registered[at[m]]
    requires InOrder(sorted)
    requires forall x :: x in sorted <==>
               x in registered && (includeFreqOps || !(x.kind.SetFreq? || x.kind.ShiftFreq?))
    ensures IsPlayOrder(given, includeFreqOps, at)
  {
    hide RoundToTick, ToTick, MapToTimegrid;
    forall k
      ensures k in at <==> 0 <= k < |given| && IsPlayed(given[k], includeFreqOps)
    {
      if k in at {
        var m :| 0 <= m < |at| && at[m] == k;
        assert sorted[m] in sorted;
      }
      if 0 <= k < |given| && IsPlayed(given[k], includeFreqOps) {
        assert registered[k] in registered;
        assert registered[k] in sorted;
        var m :| 0 <= m < |sorted| && sorted[m] == registered[k];
        assert at[m] == k;
      }
    }
    forall m, n | 0 <= m < n < |at|
      ensures RoundToTick(given[at[m]].t0) < RoundToTick(given[at[n]].t0) ||
              (RoundToTick(given[at[m]].t0) == RoundToTick(given[at[n]].t0) && at[m] < at[n])
    {
      ToTickExact(given[at[m]].t0);
      ToTickExact(given[at[n]].t0);
      assert Precedes(sorted[m], sorted[n]);
    }
  }

  // --- the whole schedule ---

  lemma {:induction false} ClockIsUsed(raws: seq<RawInstruction>, clock: string)
    ensures clock in ClocksInOrder(raws) <==> exists raw :: raw in raws && raw.clock == clock
    ensures clock in ClocksInOrder(raws) ==> Registered(raws, clock) != []
  {
    if raws != [] {
      var front, last := raws[..|raws| - 1], raws[|raws| - 1];
      assert raws == front + [last];
      ClockIsUsed(front, clock);
    }
  }

  /** A timed entry of one of the clocks. */
  ghost predicate IsTimedOn(entry: Entry, plans: seq<ChannelPlan>) {
    entry.Timed? && exists i :: 0 <= i < |plans| && plans[i].clock == entry.clock
  }

  lemma {:induction false} SlotIsTimed(plans: seq<ChannelPlan>, n: nat, slot: int, shift: int)
    requires n <= |plans|
    ensures forall e :: e in SlotEntries(plans, n, slot, shift) ==> IsTimedOn(e, plans)
  {
    if n > 0 {
      hide InSlot;
      SlotIsTimed(plans, n - 1, slot, shift);
      var i := n - 1;
      forall e | e in RunOf(plans[i].clock, InSlot(plans[i].steps, slot), slot, shift)
        ensures IsTimedOn(e, plans)
      {
        assert plans[i].clock == e.clock;
      }
    }
  }

  lemma {:induction false} EmittedIsTimed(plans: seq<ChannelPlan>, slots: seq<int>, k: nat)
    requires k <= |slots|
    ensures forall e :: e in Emitted(plans, slots, k) ==> IsTimedOn(e, plans)
  {
    if k > 0 {
      hide SlotEntries, IsTimedOn, Shift;
      EmittedIsTimed(plans, slots, k - 1);
      SlotIsTimed(plans, |plans|, slots[k - 1], Shift(plans, slots, k - 1));
      forall e | e in Emitted(plans, slots, k)
        ensures IsTimedOn(e, plans)
      {
        if e !in Emitted(plans, slots, k - 1) {
          assert e in SlotEntries(plans, |plans|, slots[k - 1], Shift(plans, slots, k - 1));
        }
      }
    }
  }

  lemma {:induction false} TailsOfAll(plans: seq<ChannelPlan>, n: nat, slots: seq<int>, root: string)
    requires n <= |plans| && forall i :: 0 <= i < |plans| ==> plans[i].hadAny
    ensures |Tails(plans, n, slots, root)| == n
    ensures forall i :: 0 <= i < n ==>
              Tails(plans, n, slots, root)[i] ==
                TailIdle(plans[i].clock, LastName(SlotOrder(plans[i].steps, slots, |slots|), root))
  {
    if n > 0 {
      hide SlotOrder, LastName;
      TailsOfAll(plans, n - 1, slots, root);
    }
  }

  /** The name of what a clock plays last, or of the root operation. */
  ghost function LastPlayed(raws: seq<RawInstruction>, clock: string, includeFreqOps: bool, root: string): string
    requires clock in ClocksInOrder(raws)
  {
    var played := Played(raws, clock, includeFreqOps, root);
    if played == [] then root else played[|played| - 1].inst.name
  }

  /** What else is in the schedule: after the operations of the clocks used, one idle
      interval for each of them, tied to what it has played last. */
  lemma ScheduleEndsInTails(raws: seq<RawInstruction>, includeFreqOps: bool, root: string) returns (n: nat)
    ensures var schedule, clocks := ScheduleOf(PlansOf(raws, includeFreqOps), root), ClocksInOrder(raws);
            && |schedule| == n + |clocks|
            && (forall m :: 0 <= m < n ==> schedule[m].Timed? && schedule[m].clock in clocks)
            && (forall i :: 0 <= i < |clocks| ==>
                  schedule[n + i] == TailIdle(clocks[i], LastPlayed(raws, clocks[i], includeFreqOps, root)))
  {
    hide Emitted, Tails, SlotOrder, Played, LastPlayed, LastName, PlansOf, ClocksInOrder, AllSlots, IsTimedOn;
    var plans, clocks, slots := PlansOf(raws, includeFreqOps), ClocksInOrder(raws), SlotsUsed(raws, includeFreqOps);
    n := |Emitted(plans, slots, |slots|)|;
    EmittedIsTimed(plans, slots, |slots|);
    ClocksOfPlans(raws, includeFreqOps);
    TimedOnClocks(Emitted(plans, slots, |slots|), plans, clocks);
    forall i | 0 <= i < |plans|
      ensures plans[i].hadAny
      ensures LastName(SlotOrder(plans[i].steps, slots, |slots|), root) ==
              LastPlayed(raws, clocks[i], includeFreqOps, root)
    {
      TailOfClock(raws, includeFreqOps, root, i);
    }
    TailsOfAll(plans, |plans|, slots, root);
  }

  lemma ClocksOfPlans(raws: seq<RawInstruction>, includeFreqOps: bool)
    ensures var plans, clocks := PlansOf(raws, includeFreqOps), ClocksInOrder(raws);
            |plans| == |clocks| && forall i :: 0 <= i < |plans| ==> plans[i].clock == clocks[i]
  {
    hide ClocksInOrder, RecordedLog, StepsOf;
  }

  lemma TimedOnClocks(entries: seq<Entry>, plans: seq<ChannelPlan>, clocks: seq<string>)
    requires |plans| == |clocks| && forall i :: 0 <= i < |plans| ==> plans[i].clock == clocks[i]
    requires forall e :: e in entries ==> IsTimedOn(e, plans)
    ensures forall m :: 0 <= m < |entries| ==> entries[m].Timed? && entries[m].clock in clocks
  {
    forall m | 0 <= m < |entries|
      ensures entries[m].Timed? && entries[m].clock in clocks
    {
      assert entries[m] in entries;
    }
  }

  lemma TailOfClock(raws: seq<RawInstruction>, includeFreqOps: bool, root: string, i: nat)
    requires i < |ClocksInOrder(raws)|
    ensures |PlansOf(raws, includeFreqOps)| == |ClocksInOrder(raws)|
    ensures PlansOf(raws, includeFreqOps)[i].hadAny
    ensures var slots, clock := SlotsUsed(raws, includeFreqOps), ClocksInOrder(raws)[i];
            LastName(SlotOrder(PlansOf(raws, includeFreqOps)[i].steps, slots, |slots|), root) ==
            LastPlayed(raws, clock, includeFreqOps, root)
  {
    var clock := ClocksInOrder(raws)[i];
    StepsOfPlan(raws, includeFreqOps, i);
    hide PlansOf, SlotOrder, Played, StepsOn, SlotsUsed, ClocksInOrder, LastName, LastPlayed;
    PlayedIsSlotOrder(raws, clock, includeFreqOps, root);
    LastPlayedIsName(raws, clock, includeFreqOps, root);
  }

  lemma LastPlayedIsName(raws: seq<RawInstruction>, clock: string, includeFreqOps: bool, root: string)
    requires clock in ClocksInOrder(raws)
    ensures LastPlayed(raws, clock, includeFreqOps, root) == LastName(Played(raws, clock, includeFreqOps, root), root)
  {
    hide Played, ClocksInOrder;
  }

  lemma StepsOfPlan(raws: seq<RawInstruction>, includeFreqOps: bool, i: nat)
    requires i < |ClocksInOrder(raws)|
    ensures |PlansOf(raws, includeFreqOps)| == |ClocksInOrder(raws)|
    ensures PlansOf(raws, includeFreqOps)[i].clock == ClocksInOrder(raws)[i]
    ensures PlansOf(raws, includeFreqOps)[i].steps == StepsOn(raws, ClocksInOrder(raws)[i], includeFreqOps)
    ensures PlansOf(raws, includeFreqOps)[i].hadAny
  {
    ClockIsUsed(raws, ClocksInOrder(raws)[i]);
    hide ClocksInOrder, Registered, StepsOf;
  }
}
