/** Phases on the way, for instructions given in any order: when the phase played is
    that of the instructions in the order in which they are played. */
module PlayedPhases {
  import opened Prefixes
  import opened Timegrid
  import opened Channels
  import opened Schedules
  import opened ScheduleCompiler
  import opened ScheduleOrder
  import opened ScheduleTiming
  import opened ScheduleMeaning
  import opened SchedulePhases

  function InstructionsOf(steps: seq<Step>): seq<Instruction> {
    seq(|steps|, i requires 0 <= i < |steps| => steps[i].inst)
  }

  /** Each step is that of an instruction of the log. */
  ghost predicate FromLog(log: ChannelLog, steps: seq<Step>) {
    forall step :: step in steps ==>
      && step.inst.position < |log.instructions| && step.inst == log.instructions[step.inst.position]
      && |log.phases| == |log.frequencies| == |log.acquisitions| == |log.instructions|
      && step == ToStep(log, step.inst)
  }

  /** The phase the channel had recorded before the instruction. */
  function RecordedBefore(log: ChannelLog, inst: Instruction): real {
    if 0 < inst.position <= |log.phases| then log.phases[inst.position - 1] else 0.0
  }

  /** After every operation, the phase played is that of the instructions played. */
  ghost predicate PlaysItsInstructions(steps: seq<Step>) {
    forall k :: 0 <= k <= |steps| ==> Replay(steps[..k]) == PhaseAfter(InstructionsOf(steps[..k]))
  }

  /** Every 'setp' comes, in the order of play, after instructions that leave the
      clock at the phase which was recorded before it. */
  ghost predicate SetPhasesFindTheirPhase(log: ChannelLog, steps: seq<Step>) {
    forall k :: 0 <= k < |steps| && steps[k].inst.kind.SetPhase? ==>
      PhaseAfter(InstructionsOf(steps[..k])) == RecordedBefore(log, steps[k].inst)
  }

  /** One operation more: only a 'setp' may go wrong. */
  lemma OneMorePlayed(log: ChannelLog, steps: seq<Step>, k: nat)
    requires log.Valid() && FromLog(log, steps) && k < |steps|
    requires Replay(steps[..k]) == PhaseAfter(InstructionsOf(steps[..k]))
    ensures Replay(steps[..k + 1]) == PhaseAfter(InstructionsOf(steps[..k + 1])) <==>
            (steps[k].inst.kind.SetPhase? ==>
               PhaseAfter(InstructionsOf(steps[..k])) == RecordedBefore(log, steps[k].inst))
  {
    hide Replay, PhaseAfter, FromLog;
    var step := steps[k];
    PrefixGrows(steps, k);
    ReplayAppend(steps[..k], step);
    assert InstructionsOf(steps[..k + 1]) == InstructionsOf(steps[..k]) + [step.inst];
    PhaseWithOneMore(InstructionsOf(steps[..k]), step.inst);
    ShiftFromLog(log, steps, k);
  }

  lemma PhaseWithOneMore(insts: seq<Instruction>, inst: Instruction)
    ensures PhaseAfter(insts + [inst]) ==
            if inst.kind.SetPhase? then inst.kind.phase
            else if inst.kind.ShiftPhase? then PhaseAfter(insts) + inst.kind.phase
            else PhaseAfter(insts)
  {
    PrefixOfAppend(insts, inst);
  }

  lemma ShiftFromLog(log: ChannelLog, steps: seq<Step>, k: nat)
    requires log.Valid() && FromLog(log, steps) && k < |steps|
    ensures var kind := steps[k].inst.kind;
            ShiftBy(steps[k]) == if kind.SetPhase? then kind.phase - RecordedBefore(log, steps[k].inst)
                                 else if kind.ShiftPhase? then kind.phase else 0.0
  {
    var at := steps[k].inst.position;
    assert steps[k] in steps;
    PrefixGrows(log.instructions, at);
    PhaseWithOneMore(log.instructions[..at], log.instructions[at]);
    hide PhaseAfter, FromLog;
    assert log.phases[at] == PhaseAfter(log.instructions[..at + 1]);
    if at > 0 {
      assert log.phases[at - 1] == PhaseAfter(log.instructions[..at]);
    }
  }

  lemma {:induction false} PlayedUpTo(log: ChannelLog, steps: seq<Step>, k: nat)
    requires log.Valid() && FromLog(log, steps) && k <= |steps| && SetPhasesFindTheirPhase(log, steps)
    ensures Replay(steps[..k]) == PhaseAfter(InstructionsOf(steps[..k]))
  {
    if k > 0 {
      hide Replay, PhaseAfter, FromLog, InstructionsOf;
      PlayedUpTo(log, steps, k - 1);
      OneMorePlayed(log, steps, k - 1);
    }
  }

  lemma PlaysExactly(log: ChannelLog, steps: seq<Step>)
    requires log.Valid() && FromLog(log, steps)
    ensures PlaysItsInstructions(steps) <==> SetPhasesFindTheirPhase(log, steps)
  {
    hide Replay, PhaseAfter, FromLog, InstructionsOf;
    if SetPhasesFindTheirPhase(log, steps) {
      forall k | 0 <= k <= |steps|
        ensures Replay(steps[..k]) == PhaseAfter(InstructionsOf(steps[..k]))
      {
        PlayedUpTo(log, steps, k);
      }
    }
    if PlaysItsInstructions(steps) {
      forall k | 0 <= k < |steps| && steps[k].inst.kind.SetPhase?
        ensures PhaseAfter(InstructionsOf(steps[..k])) == RecordedBefore(log, steps[k].inst)
      {
        assert Replay(steps[..k]) == PhaseAfter(InstructionsOf(steps[..k]));
        var next := k + 1;
        assert Replay(steps[..next]) == PhaseAfter(InstructionsOf(steps[..next]));
        OneMorePlayed(log, steps, k);
      }
    }
  }

  // --- the instructions in order of their grid lines ---

  /** Among instructions in order, as late as its grid line allows. */
  function Inserted(sorted: seq<Instruction>, inst: Instruction): seq<Instruction> {
    if sorted == [] || ToTick(sorted[|sorted| - 1].t0) <= ToTick(inst.t0) then sorted + [inst]
    else Inserted(sorted[..|sorted| - 1], inst) + [sorted[|sorted| - 1]]
  }

  /** A stable sort by grid line: insertion, one after the other. */
  function ByGridLine(insts: seq<Instruction>): seq<Instruction> {
    if insts == [] then [] else Inserted(ByGridLine(insts[..|insts| - 1]), insts[|insts| - 1])
  }

  function SchedulableOf(insts: seq<Instruction>, includeFreqOps: bool): seq<Instruction> {
    if insts == [] then []
    else
      var before, last := SchedulableOf(insts[..|insts| - 1], includeFreqOps), insts[|insts| - 1];
      if IsSchedulable(last.kind, includeFreqOps) then before + [last] else before
  }

  /** The instructions of a clock in the order in which they ought to be played. */
  function Meant(raws: seq<RawInstruction>, clock: string, includeFreqOps: bool): seq<Instruction> {
    ByGridLine(SchedulableOf(Registered(raws, clock), includeFreqOps))
  }

  /** The same insertion, of steps. */
  function StepInserted(sorted: seq<Step>, step: Step): seq<Step> {
    if sorted == [] || sorted[|sorted| - 1].slot <= step.slot then sorted + [step]
    else StepInserted(sorted[..|sorted| - 1], step) + [sorted[|sorted| - 1]]
  }

  function StepsByGridLine(steps: seq<Step>): seq<Step> {
    if steps == [] then [] else StepInserted(StepsByGridLine(steps[..|steps| - 1]), steps[|steps| - 1])
  }

  lemma {:induction false} InsertingSorts(sorted: seq<Step>, step: Step)
    requires SortedBySlot(sorted)
    ensures SortedBySlot(StepInserted(sorted, step))
    ensures forall x :: x in StepInserted(sorted, step) ==> x in sorted || x == step
  {
    if sorted != [] && sorted[|sorted| - 1].slot > step.slot {
      var front := sorted[..|sorted| - 1];
      SortedFront(sorted);
      InsertingSorts(front, step);
      forall x | x in StepInserted(front, step)
        ensures x.slot <= sorted[|sorted| - 1].slot
      {
        if x in front {
          var i :| 0 <= i < |front| && front[i] == x;
          assert sorted[i] == x;
        }
      }
      SortedAppend(StepInserted(front, step), sorted[|sorted| - 1]);
    }
  }

  lemma SortedAppend(steps: seq<Step>, step: Step)
    requires SortedBySlot(steps) && forall x :: x in steps ==> x.slot <= step.slot
    ensures SortedBySlot(steps + [step])
  {
  }

  lemma {:induction false} InsertingIsStable(sorted: seq<Step>, step: Step, slot: int)
    requires SortedBySlot(sorted)
    ensures InSlot(StepInserted(sorted, step), slot) == InSlot(sorted, slot) + if step.slot == slot then [step] else []
  {
    if sorted == [] || sorted[|sorted| - 1].slot <= step.slot {
      InSlotAppend(sorted, step, slot);
    } else {
      var front, last := sorted[..|sorted| - 1], sorted[|sorted| - 1];
      assert sorted == front + [last];
      SortedFront(sorted);
      hide InSlot, SortedBySlot;
      InsertingIsStable(front, step, slot);
      InSlotAppend(StepInserted(front, step), last, slot);
      InSlotAppend(front, last, slot);
    }
  }

  lemma {:induction false} StepsByGridLineSorts(steps: seq<Step>)
    ensures SortedBySlot(StepsByGridLine(steps)) && SameSlots(StepsByGridLine(steps), steps)
  {
    if steps != [] {
      hide InSlot, SortedBySlot, StepInserted;
      var front, last := steps[..|steps| - 1], steps[|steps| - 1];
      assert steps == front + [last];
      StepsByGridLineSorts(front);
      InsertingSorts(StepsByGridLine(front), last);
      forall slot
        ensures InSlot(StepsByGridLine(steps), slot) == InSlot(steps, slot)
      {
        InsertingIsStable(StepsByGridLine(front), last, slot);
        InSlotAppend(front, last, slot);
      }
    }
  }

  ghost predicate OnGridLines(steps: seq<Step>) {
    forall step :: step in steps ==> step.slot == ToTick(step.inst.t0)
  }

  lemma {:induction false} InsertingInstructions(sorted: seq<Step>, step: Step)
    requires OnGridLines(sorted) && step.slot == ToTick(step.inst.t0)
    ensures InstructionsOf(StepInserted(sorted, step)) == Inserted(InstructionsOf(sorted), step.inst)
    ensures OnGridLines(StepInserted(sorted, step))
  {
    hide ToTick;
    if sorted != [] {
      var front, last := sorted[..|sorted| - 1], sorted[|sorted| - 1];
      assert sorted == front + [last];
      assert last in sorted;
      assert InstructionsOf(sorted)[..|sorted| - 1] == InstructionsOf(front);
      InsertingInstructions(front, step);
    }
  }

  lemma {:induction false} InstructionsByGridLine(steps: seq<Step>)
    requires OnGridLines(steps)
    ensures InstructionsOf(StepsByGridLine(steps)) == ByGridLine(InstructionsOf(steps))
    ensures OnGridLines(StepsByGridLine(steps))
  {
    if steps != [] {
      hide ToTick, StepInserted, Inserted;
      var front, last := steps[..|steps| - 1], steps[|steps| - 1];
      assert steps == front + [last];
      assert last in steps;
      assert InstructionsOf(steps)[..|steps| - 1] == InstructionsOf(front);
      InstructionsByGridLine(front);
      InsertingInstructions(StepsByGridLine(front), last);
    }
  }

  lemma {:induction false} StepsAreSchedulable(log: ChannelLog, includeFreqOps: bool, n: nat)
    requires log.Valid() && n <= |log.instructions|
    ensures InstructionsOf(StepsOf(log, includeFreqOps, n)) == SchedulableOf(log.instructions[..n], includeFreqOps)
    ensures OnGridLines(StepsOf(log, includeFreqOps, n))
  {
    if n > 0 {
      hide PhaseAfter, FrequencyAfter, AcquisitionsIn, ToTick, ToOperation;
      StepsAreSchedulable(log, includeFreqOps, n - 1);
      assert log.instructions[..n][..n - 1] == log.instructions[..n - 1];
    }
  }

  /** What a clock plays are its schedulable instructions, stably sorted by grid line. */
  lemma PlaysByGridLine(raws: seq<RawInstruction>, clock: string, includeFreqOps: bool, root: string)
    requires clock in ClocksInOrder(raws)
    ensures InstructionsOf(Played(raws, clock, includeFreqOps, root)) == Meant(raws, clock, includeFreqOps)
  {
    hide Played, SlotOrder, InSlot, SortedBySlot, StepsOf, StepsByGridLine, ByGridLine, SchedulableOf, InstructionsOf;
    var log, steps := RecordedLog(raws, clock), StepsOn(raws, clock, includeFreqOps);
    var slots := SlotsUsed(raws, includeFreqOps);
    PlayedIsSlotOrder(raws, clock, includeFreqOps, root);
    SlotsAreVisited(raws, clock, includeFreqOps);
    EmissionIsStableSort(steps, slots);
    StepsByGridLineSorts(steps);
    StableSortIsUnique(SlotOrder(steps, slots, |slots|), StepsByGridLine(steps));
    StepsAreSchedulable(log, includeFreqOps, |log.instructions|);
    PrefixWhole(log.instructions);
    InstructionsByGridLine(steps);
  }

  // --- exactly when the phases on the way are right ---

  /** Every 'setp' comes, in the order of grid lines, after instructions that leave the
      clock at the phase at which those registered before it leave it. */
  ghost predicate SetPhasesAreUnmoved(registered: seq<Instruction>, ordered: seq<Instruction>) {
    forall k :: 0 <= k < |ordered| && ordered[k].kind.SetPhase? ==>
      ordered[k].position <= |registered| &&
      PhaseAfter(ordered[..k]) == PhaseAfter(registered[..ordered[k].position])
  }

  /** Whatever the order of the instructions of a clock: the phases on the way are
      those of the instructions in order of their grid lines, exactly if every 'setp'
      finds, in that order, the phase that it finds in the order of registration. */
  lemma PhasesOnTheWay(raws: seq<RawInstruction>, clock: string, includeFreqOps: bool, root: string)
    requires clock in ClocksInOrder(raws)
    ensures var played, meant := Played(raws, clock, includeFreqOps, root), Meant(raws, clock, includeFreqOps);
            && |played| == |meant|
            && ((forall k :: 0 <= k <= |played| ==> Replay(played[..k]) == PhaseAfter(meant[..k])) <==>
                SetPhasesAreUnmoved(Registered(raws, clock), meant))
  {
    hide Played, Meant, PlaysItsInstructions, SetPhasesFindTheirPhase, SetPhasesAreUnmoved, FromLog, Replay, PhaseAfter,
      Registered, ChannelLog.Valid;
    var played, log := Played(raws, clock, includeFreqOps, root), RecordedLog(raws, clock);
    PlayedFromLog(raws, clock, includeFreqOps, root);
    PlaysByGridLine(raws, clock, includeFreqOps, root);
    PlaysExactly(log, played);
    PlaysMeans(played);
    FindingMeans(log, played);
  }

  lemma PlaysMeans(steps: seq<Step>)
    ensures var insts := InstructionsOf(steps);
            PlaysItsInstructions(steps) <==>
            forall k :: 0 <= k <= |steps| ==> Replay(steps[..k]) == PhaseAfter(insts[..k])
  {
    hide Replay, PhaseAfter;
    assert forall k :: 0 <= k <= |steps| ==> InstructionsOf(steps[..k]) == InstructionsOf(steps)[..k];
  }

  lemma FindingMeans(log: ChannelLog, steps: seq<Step>)
    requires log.Valid() && FromLog(log, steps)
    ensures SetPhasesFindTheirPhase(log, steps) <==> SetPhasesAreUnmoved(log.instructions, InstructionsOf(steps))
  {
    hide PhaseAfter;
    var insts := InstructionsOf(steps);
    assert forall k :: 0 <= k <= |steps| ==> InstructionsOf(steps[..k]) == insts[..k];
    forall k | 0 <= k < |steps|
      ensures insts[k] == steps[k].inst && steps[k].inst.position < |log.instructions|
      ensures RecordedBefore(log, steps[k].inst) == PhaseAfter(log.instructions[..steps[k].inst.position])
    {
      assert steps[k] in steps;
      RecordedIsDirect(log, steps[k].inst.position);
    }
    hide FromLog, RecordedBefore, InstructionsOf;
    if SetPhasesFindTheirPhase(log, steps) {
      forall k | 0 <= k < |insts| && insts[k].kind.SetPhase?
        ensures insts[k].position <= |log.instructions|
        ensures PhaseAfter(insts[..k]) == PhaseAfter(log.instructions[..insts[k].position])
      {
        assert steps[k].inst.kind.SetPhase?;
      }
    }
    if SetPhasesAreUnmoved(log.instructions, insts) {
      forall k | 0 <= k < |steps| && steps[k].inst.kind.SetPhase?
        ensures PhaseAfter(InstructionsOf(steps[..k])) == RecordedBefore(log, steps[k].inst)
      {
        assert insts[k].kind.SetPhase?;
      }
    }
  }

  lemma RecordedIsDirect(log: ChannelLog, at: nat)
    requires log.Valid() && at < |log.instructions|
    ensures PhaseAfter(log.instructions[..at]) == if at > 0 then log.phases[at - 1] else 0.0
  {
    if at > 0 {
      hide PhaseAfter;
      assert log.phases[at - 1] == PhaseAfter(log.instructions[..at]);
    }
  }

  lemma PlayedFromLog(raws: seq<RawInstruction>, clock: string, includeFreqOps: bool, root: string)
    requires clock in ClocksInOrder(raws)
    ensures FromLog(RecordedLog(raws, clock), Played(raws, clock, includeFreqOps, root))
  {
    hide Played, SlotOrder, InSlot;
    var log, steps := RecordedLog(raws, clock), StepsOn(raws, clock, includeFreqOps);
    var slots := SlotsUsed(raws, includeFreqOps);
    PlayedIsSlotOrder(raws, clock, includeFreqOps, root);
    SlotOrderMembers(steps, slots, |slots|);
    StepsFromLog(log, includeFreqOps, |log.instructions|);
  }

  lemma {:induction false} StepsFromLog(log: ChannelLog, includeFreqOps: bool, n: nat)
    requires log.Valid() && n <= |log.instructions|
    ensures FromLog(log, StepsOf(log, includeFreqOps, n))
  {
    if n > 0 {
      hide PhaseAfter, FrequencyAfter, AcquisitionsIn, ToStep;
      StepsFromLog(log, includeFreqOps, n - 1);
    }
  }

  // --- where it goes wrong ---

  /** 'setp' to 90 degrees at 8 ns is given before an 'fc' of 10 degrees at 0 ns.  It
      is played last, and should leave the clock at 90; but its shift was computed as
      if it came first, and it leaves the clock at 100. */
  lemma PhaseOutOfTime(setp: RawInstruction, fc: RawInstruction, root: string)
    requires setp == RawInstruction("q0.01", SetPhase(90.0), 8, 0, "setp")
    requires fc == RawInstruction("q0.01", ShiftPhase(10.0), 0, 0, "fc")
    ensures "q0.01" in ClocksInOrder([setp, fc])
    ensures var played := Played([setp, fc], "q0.01", false, root);
            && |played| == 2
            && InstructionsOf(played[..2]) == [Lower(fc, 1), Lower(setp, 0)]
            && PhaseAfter(InstructionsOf(played[..2])) == 90.0
            && Replay(played[..2]) == 100.0
  {
    hide Played, StepsOn, Replay, PhaseAfter, ClocksInOrder;
    SetPhasePlayedLast(setp, fc, root);
  }

  /** In general: a 'setp' given first and played last leaves the clock off by what
      the 'fc' in between has added. */
  lemma SetPhasePlayedLast(setp: RawInstruction, fc: RawInstruction, root: string)
    requires setp.kind.SetPhase? && fc.kind.ShiftPhase? && setp.clock == fc.clock
    requires RoundToTick(fc.t0) < RoundToTick(setp.t0)
    ensures setp.clock in ClocksInOrder([setp, fc])
    ensures var played := Played([setp, fc], setp.clock, false, root);
            && |played| == 2
            && InstructionsOf(played[..2]) == [Lower(fc, 1), Lower(setp, 0)]
            && PhaseAfter(InstructionsOf(played[..2])) == setp.kind.phase
            && Replay(played[..2]) == setp.kind.phase + fc.kind.phase
  {
    hide Played, StepsOn, Replay, PhaseAfter, ClocksInOrder, Registered;
    var raws, clock := [setp, fc], setp.clock;
    var first, second := PairOfSteps(setp, fc);
    ClockOfInstruction(raws, 0);
    SwappedPair(raws, clock, root, first, second);
    var played := Played(raws, clock, false, root);
    FinalPhaseIsConserved(raws, clock, false, root);
    RegisteredPair(setp, fc);
    PhaseAfterPair(Lower(setp, 0), Lower(fc, 1));
    assert played[..2] == played;
    assert InstructionsOf(played) == [Lower(fc, 1)] + [Lower(setp, 0)];
    PhaseWithOneMore([Lower(fc, 1)], Lower(setp, 0));
  }

  /** The steps of two instructions of a clock. */
  lemma PairOfSteps(a: RawInstruction, b: RawInstruction) returns (first: Step, second: Step)
    requires a.clock == b.clock && !a.kind.IsFreqControl() && !b.kind.IsFreqControl()
    ensures StepsOn([a, b], a.clock, false) == [first, second]
    ensures first.inst == Lower(a, 0) && first.slot == RoundToTick(a.t0)
    ensures second.inst == Lower(b, 1) && second.slot == RoundToTick(b.t0)
  {
    hide StepsOn, PhaseAfter, FrequencyAfter, AcquisitionsIn, RoundToTick, Registered, ChannelLog.Valid;
    NoSteps(a.clock, false);
    NoneRegistered(a.clock);
    first := StepAppended([], a, []);
    assert [] + [a] == [a] && [] + [first] == [first];
    RegisteredOne(a);
    second := StepAppended([a], b, [Lower(a, 0)]);
    assert [a] + [b] == [a, b] && [first] + [second] == [first, second];
    RegisteredPair(a, b);
  }

  lemma StepAppended(raws: seq<RawInstruction>, raw: RawInstruction, before: seq<Instruction>) returns (step: Step)
    requires Registered(raws, raw.clock) == before && !raw.kind.IsFreqControl()
    ensures StepsOn(raws + [raw], raw.clock, false) == StepsOn(raws, raw.clock, false) + [step]
    ensures step.inst == Lower(raw, |before|) && step.slot == RoundToTick(raw.t0)
  {
    hide StepsOn, PhaseAfter, FrequencyAfter, AcquisitionsIn, RoundToTick, Registered;
    RecordedLogAppend(raws, raw, raw.clock);
    StepsOnAppend(raws, raw, raw.clock, false);
    ToTickExact(raw.t0);
    var log := RecordedLog(raws + [raw], raw.clock);
    step := ToStep(log, log.instructions[|log.instructions| - 1]);
  }

  lemma NoneRegistered(clock: string)
    ensures Registered([], clock) == []
  {
  }

  lemma RegisteredOne(raw: RawInstruction)
    ensures Registered([raw], raw.clock) == [Lower(raw, 0)]
  {
    assert [raw][..0] == [];
  }

  /** A step of an earlier slot is played first. */
  lemma SwappedPair(raws: seq<RawInstruction>, clock: string, root: string, first: Step, second: Step)
    requires clock in ClocksInOrder(raws) && StepsOn(raws, clock, false) == [first, second] && second.slot < first.slot
    ensures Played(raws, clock, false, root) == [second, first]
  {
    hide Played, SlotOrder, StepsOn, SlotsUsed, InSlot;
    var steps, slots := [first, second], SlotsUsed(raws, false);
    PlayedIsSlotOrder(raws, clock, false, root);
    SlotsAreVisited(raws, clock, false);
    EmissionIsStableSort(steps, slots);
    forall slot
      ensures InSlot(SlotOrder(steps, slots, |slots|), slot) == InSlot([second, first], slot)
    {
      SwappedInSlot(first, second, slot);
    }
    StableSortIsUnique(SlotOrder(steps, slots, |slots|), [second, first]);
  }

  lemma SwappedInSlot(first: Step, second: Step, slot: int)
    requires first.slot != second.slot
    ensures InSlot([first, second], slot) == InSlot([second, first], slot)
  {
    InSlotAppend([first], second, slot);
    InSlotAppend([second], first, slot);
    InSlotAppend([], first, slot);
    InSlotAppend([], second, slot);
    assert [first] + [second] == [first, second] && [second] + [first] == [second, first];
    assert [] + [first] == [first] && [] + [second] == [second];
  }

  lemma RegisteredPair(first: RawInstruction, second: RawInstruction)
    requires first.clock == second.clock
    ensures Registered([first, second], first.clock) == [Lower(first, 0), Lower(second, 1)]
  {
    assert [first, second][..1] == [first];
    RegisteredOne(first);
  }

  lemma PhaseAfterPair(first: Instruction, second: Instruction)
    requires first.kind.SetPhase? && second.kind.ShiftPhase?
    ensures PhaseAfter([first, second]) == first.kind.phase + second.kind.phase
  {
    PhaseWithOneMore([first], second);
    PhaseWithOneMore([], first);
    assert [first] + [second] == [first, second] && [] + [first] == [first];
  }
}
