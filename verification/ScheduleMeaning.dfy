/** What a schedule means for the experiment it was compiled from: instructions
    that do not overlap in the source never do in the schedule, phases are those
    of the direct semantics, acquisitions are numbered without gaps. */
module ScheduleMeaning {
  import opened Prefixes
  import opened Timegrid
  import opened Channels
  import opened Schedules
  import opened ScheduleCompiler
  import opened ScheduleOrder
  import opened ScheduleTiming

  // --- from raw instructions to steps ---

  function StepsOn(raws: seq<RawInstruction>, clock: string, includeFreqOps: bool): seq<Step> {
    StepsOf(RecordedLog(raws, clock), includeFreqOps, |RecordedLog(raws, clock).instructions|)
  }

  ghost predicate Extends(log: ChannelLog, log': ChannelLog) {
    && log.instructions <= log'.instructions
    && log.phases <= log'.phases
    && log.frequencies <= log'.frequencies
    && log.acquisitions <= log'.acquisitions
  }

  lemma {:induction false} StepsOfExtended(log: ChannelLog, log': ChannelLog, includeFreqOps: bool, n: nat)
    requires log.Valid() && log'.Valid() && Extends(log, log') && n <= |log.instructions|
    ensures StepsOf(log', includeFreqOps, n) == StepsOf(log, includeFreqOps, n)
  {
    if n > 0 {
      StepsOfExtended(log, log', includeFreqOps, n - 1);
    }
  }

  lemma StepsOnAppend(raws: seq<RawInstruction>, raw: RawInstruction, clock: string, includeFreqOps: bool)
    ensures var log := RecordedLog(raws + [raw], clock);
            StepsOn(raws + [raw], clock, includeFreqOps) == StepsOn(raws, clock, includeFreqOps) +
              if raw.clock == clock && IsSchedulable(raw.kind, includeFreqOps)
              then [ToStep(log, log.instructions[|log.instructions| - 1])] else []
  {
    RecordedLogAppend(raws, raw, clock);
    var log, log' := RecordedLog(raws, clock), RecordedLog(raws + [raw], clock);
    if raw.clock == clock {
      StepsOfExtended(log, log', includeFreqOps, |log.instructions|);
    }
  }

  /** The index, among the steps of its clock, of the a-th instruction. */
  function StepIndex(raws: seq<RawInstruction>, a: nat, includeFreqOps: bool): nat
    requires a < |raws|
  {
    |StepsOn(raws[..a], raws[a].clock, includeFreqOps)|
  }

  ghost predicate IsStepOf(step: Step, raw: RawInstruction) {
    step.inst == Lower(raw, step.inst.position) && step.slot == RoundToTick(raw.t0)
  }

  lemma {:induction false} StepOfInstruction(raws: seq<RawInstruction>, a: nat, includeFreqOps: bool)
    requires a < |raws| && IsSchedulable(raws[a].kind, includeFreqOps)
    ensures StepIndex(raws, a, includeFreqOps) < |StepsOn(raws, raws[a].clock, includeFreqOps)|
    ensures IsStepOf(StepsOn(raws, raws[a].clock, includeFreqOps)[StepIndex(raws, a, includeFreqOps)], raws[a])
  {
    hide StepsOn;
    var front, last := raws[..|raws| - 1], raws[|raws| - 1];
    assert raws == front + [last];
    StepsOnAppend(front, last, raws[a].clock, includeFreqOps);
    if a < |raws| - 1 {
      assert front[..a] == raws[..a];
      StepOfInstruction(front, a, includeFreqOps);
    } else {
      RecordedLogAppend(front, last, last.clock);
      ToTickExact(last.t0);
    }
  }

  lemma StepIndicesFollowOrder(raws: seq<RawInstruction>, a: nat, b: nat, includeFreqOps: bool)
    requires a < b < |raws| && raws[a].clock == raws[b].clock && IsSchedulable(raws[a].kind, includeFreqOps)
    ensures StepIndex(raws, a, includeFreqOps) < StepIndex(raws, b, includeFreqOps)
  {
    assert raws[..b][..a] == raws[..a];
    StepOfInstruction(raws[..b], a, includeFreqOps);
  }

  lemma {:induction false} ClockOfInstruction(raws: seq<RawInstruction>, a: nat)
    requires a < |raws|
    ensures raws[a].clock in ClocksInOrder(raws)
  {
    if a < |raws| - 1 {
      ClockOfInstruction(raws[..|raws| - 1], a);
    }
  }

  // --- end to end ---

  ghost function SlotsUsed(raws: seq<RawInstruction>, includeFreqOps: bool): seq<int> {
    Sorted(AllSlots(PlansOf(raws, includeFreqOps)))
  }

  lemma PlanOfClock(raws: seq<RawInstruction>, clock: string, includeFreqOps: bool) returns (c: nat)
    requires clock in ClocksInOrder(raws)
    ensures DistinctClocks(PlansOf(raws, includeFreqOps)) && c < |PlansOf(raws, includeFreqOps)|
    ensures PlansOf(raws, includeFreqOps)[c].clock == clock
    ensures PlansOf(raws, includeFreqOps)[c].steps == StepsOn(raws, clock, includeFreqOps)
  {
    var clocks := ClocksInOrder(raws);
    c :| 0 <= c < |clocks| && clocks[c] == clock;
  }

  lemma SlotsAreVisited(raws: seq<RawInstruction>, clock: string, includeFreqOps: bool)
    requires clock in ClocksInOrder(raws)
    ensures Covers(SlotsUsed(raws, includeFreqOps), StepsOn(raws, clock, includeFreqOps))
  {
    var plans := PlansOf(raws, includeFreqOps);
    var c := PlanOfClock(raws, clock, includeFreqOps);
    forall step | step in plans[c].steps
      ensures step.slot in SlotsUsed(raws, includeFreqOps)
    {
      InSlotMembers(plans[c].steps, step.slot);
      SlotsInUsed(plans[c].steps, step.slot);
      SlotsOfUsed(plans, |plans|, step.slot);
    }
  }

  /** The start tick, in closed form, of the a-th instruction of the experiment. */
  ghost function StartTick(raws: seq<RawInstruction>, a: nat, includeFreqOps: bool): int
    requires a < |raws| && IsSchedulable(raws[a].kind, includeFreqOps)
  {
    StepOfInstruction(raws, a, includeFreqOps);
    ClockOfInstruction(raws, a);
    SlotsAreVisited(raws, raws[a].clock, includeFreqOps);
    StartOf(PlansOf(raws, includeFreqOps), SlotsUsed(raws, includeFreqOps),
            StepsOn(raws, raws[a].clock, includeFreqOps), StepIndex(raws, a, includeFreqOps))
  }

  lemma {:induction false} OnClockIsPart(entries: seq<Entry>, clock: string)
    ensures forall e :: e in OnClock(entries, clock) ==> e in entries
  {
    if entries != [] {
      OnClockIsPart(entries[..|entries| - 1], clock);
    }
  }

  /** Every schedulable instruction is in the schedule, at its start tick. */
  lemma InstructionIsScheduled(raws: seq<RawInstruction>, a: nat, includeFreqOps: bool, root: string)
    returns (entry: Entry)
    requires a < |raws| && IsSchedulable(raws[a].kind, includeFreqOps)
    ensures entry in ScheduleOf(PlansOf(raws, includeFreqOps), root)
    ensures entry.Timed? && entry.clock == raws[a].clock && IsStepOf(entry.step, raws[a])
    ensures entry.start == StartTick(raws, a, includeFreqOps)
  {
    var clock, i := raws[a].clock, StepIndex(raws, a, includeFreqOps);
    var plans, slots := PlansOf(raws, includeFreqOps), SlotsUsed(raws, includeFreqOps);
    StepOfInstruction(raws, a, includeFreqOps);
    ClockOfInstruction(raws, a);
    SlotsAreVisited(raws, clock, includeFreqOps);
    var c := PlanOfClock(raws, clock, includeFreqOps);
    EmittedAtStart(plans, slots, plans[c], i);
    entry := Timed(clock, plans[c].steps[i], StartOf(plans, slots, plans[c].steps, i));
    OnClockSchedule(plans, root, c);
    OnClockIsPart(ScheduleOf(plans, root), clock);
  }

  /** End to end: let one instruction end before another starts, in nanoseconds, on
      one clock.  After rounding start and duration to the grid, one by one, and
      delaying by barriers and dispatch, it still ends before the other starts --
      exactly when their starts are on different grid lines or they were given in
      this order. */
  lemma InstructionsDoNotOverlap(raws: seq<RawInstruction>, a: nat, b: nat, includeFreqOps: bool)
    requires a < |raws| && b < |raws| && a != b && raws[a].clock == raws[b].clock
    requires IsSchedulable(raws[a].kind, includeFreqOps) && IsSchedulable(raws[b].kind, includeFreqOps)
    requires raws[a].duration >= 0 && raws[a].t0 + raws[a].duration <= raws[b].t0
    ensures StartTick(raws, a, includeFreqOps) + RoundToTick(raws[a].duration) <= StartTick(raws, b, includeFreqOps)
            <==> RoundToTick(raws[a].t0) < RoundToTick(raws[b].t0) || a < b
  {
    var clock, i, j := raws[a].clock, StepIndex(raws, a, includeFreqOps), StepIndex(raws, b, includeFreqOps);
    StepOfInstruction(raws, a, includeFreqOps);
    StepOfInstruction(raws, b, includeFreqOps);
    ClockOfInstruction(raws, a);
    SlotsAreVisited(raws, clock, includeFreqOps);
    var c := PlanOfClock(raws, clock, includeFreqOps);
    if a < b {
      StepIndicesFollowOrder(raws, a, b, includeFreqOps);
    } else {
      StepIndicesFollowOrder(raws, b, a, includeFreqOps);
    }
    RoundMonotone(raws[a].t0, raws[b].t0);
    OvershootAtMostOneTick(raws[a].t0, raws[a].duration, raws[b].t0);
    StepsDoNotOverlap(PlansOf(raws, includeFreqOps), SlotsUsed(raws, includeFreqOps), c, i, j,
                      RoundToTick(raws[a].duration));
  }
}
