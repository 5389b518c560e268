/** Phases and acquisition numbers: what the emitted operations do to a clock is
    what the instructions of the experiment say. */
module SchedulePhases {
  import opened Prefixes
  import opened Timegrid
  import opened Channels
  import opened Schedules
  import opened ScheduleCompiler
  import opened ScheduleOrder
  import opened ScheduleTiming
  import opened ScheduleMeaning

  /** The phase an operation adds to its clock. */
  function ShiftBy(step: Step): real {
    if step.op.ShiftClockPhase? then step.op.shift else 0.0
  }

  /** The phase of a clock after playing the operations of the steps from phase 0. */
  function Replay(steps: seq<Step>): real {
    if steps == [] then 0.0 else Replay(steps[..|steps| - 1]) + ShiftBy(steps[|steps| - 1])
  }

  function AcquisitionsAmong(steps: seq<Step>): nat {
    if steps == [] then 0
    else AcquisitionsAmong(steps[..|steps| - 1]) + if steps[|steps| - 1].op.Acquisition? then 1 else 0
  }

  // --- in order of registration ---

  lemma ReplayAppend(steps: seq<Step>, step: Step)
    ensures Replay(steps + [step]) == Replay(steps) + ShiftBy(step)
    ensures AcquisitionsAmong(steps + [step]) == AcquisitionsAmong(steps) + if step.op.Acquisition? then 1 else 0
  {
    PrefixOfAppend(steps, step);
  }

  /** An instruction shifts its clock by what it changes in the direct semantics. */
  lemma ShiftOfInstruction(log: ChannelLog, n: nat)
    requires log.Valid() && 0 < n <= |log.instructions|
    ensures var step := ToStep(log, log.instructions[n - 1]);
            && PhaseAfter(log.instructions[..n]) == PhaseAfter(log.instructions[..n - 1]) + ShiftBy(step)
            && AcquisitionsIn(log.instructions[..n]) ==
               AcquisitionsIn(log.instructions[..n - 1]) + if step.op.Acquisition? then 1 else 0
  {
    assert log.instructions[..n][..n - 1] == log.instructions[..n - 1];
    assert log.phases[n - 1] == PhaseAfter(log.instructions[..n]);
    if n > 1 {
      assert log.phases[n - 2] == PhaseAfter(log.instructions[..n - 1]);
    }
  }

  /** Playing the shifts, which are differences of recorded phases or plain sums,
      gives the phase of assigning and adding. */
  lemma {:induction false} ReplayIsDirect(log: ChannelLog, includeFreqOps: bool, n: nat)
    requires log.Valid() && n <= |log.instructions|
    ensures Replay(StepsOf(log, includeFreqOps, n)) == PhaseAfter(log.instructions[..n])
    ensures AcquisitionsAmong(StepsOf(log, includeFreqOps, n)) == AcquisitionsIn(log.instructions[..n])
  {
    hide Replay, PhaseAfter, AcquisitionsAmong, AcquisitionsIn;
    if n == 0 {
      NothingPlayed(log);
    } else {
      ReplayIsDirect(log, includeFreqOps, n - 1);
      ShiftOfInstruction(log, n);
      ReplayAppend(StepsOf(log, includeFreqOps, n - 1), ToStep(log, log.instructions[n - 1]));
    }
  }

  lemma NothingPlayed(log: ChannelLog)
    ensures Replay([]) == PhaseAfter(log.instructions[..0]) &&
            AcquisitionsAmong([]) == AcquisitionsIn(log.instructions[..0])
  {
  }

  /** A prefix of the steps is the steps of a prefix of the instructions. */
  lemma {:induction false} StepsUpTo(log: ChannelLog, includeFreqOps: bool, n: nat, m: nat)
    requires log.Valid() && n <= |log.instructions| && m < |StepsOf(log, includeFreqOps, n)|
    ensures var steps := StepsOf(log, includeFreqOps, n);
            var at := steps[m].inst.position;
            && at < n && steps[m] == ToStep(log, log.instructions[at])
            && steps[..m] == StepsOf(log, includeFreqOps, at)
            && steps[..m + 1] == StepsOf(log, includeFreqOps, at + 1)
  {
    var before := StepsOf(log, includeFreqOps, n - 1);
    if m < |before| {
      StepsUpTo(log, includeFreqOps, n - 1, m);
      assert StepsOf(log, includeFreqOps, n)[..m + 1] == before[..m + 1];
      assert StepsOf(log, includeFreqOps, n)[..m] == before[..m];
    }
  }

  // --- slots of the instructions given ---

  /** Which instructions of a clock are looked at. */
  datatype Choice = Schedulable(includeFreqOps: bool) | Acquisitions {
    predicate Takes(kind: Kind) {
      match this
      case Schedulable(includeFreqOps) => IsSchedulable(kind, includeFreqOps)
      case Acquisitions => kind.Acquire?
    }
  }

  /** The grid lines that the chosen instructions of a clock are moved to, in the order
      in which they are given. */
  function TicksOf(raws: seq<RawInstruction>, clock: string, choice: Choice): seq<int> {
    if raws == [] then []
    else
      var before, last := TicksOf(raws[..|raws| - 1], clock, choice), raws[|raws| - 1];
      if last.clock == clock && choice.Takes(last.kind) then before + [RoundToTick(last.t0)] else before
  }

  ghost predicate NonDecreasing(ticks: seq<int>) {
    forall i, j :: 0 <= i <= j < |ticks| ==> ticks[i] <= ticks[j]
  }

  function SlotsAlong(steps: seq<Step>): seq<int> {
    seq(|steps|, i requires 0 <= i < |steps| => steps[i].slot)
  }

  function AcquisitionsOf(steps: seq<Step>): seq<Step> {
    if steps == [] then []
    else
      var before, last := AcquisitionsOf(steps[..|steps| - 1]), steps[|steps| - 1];
      if last.op.Acquisition? then before + [last] else before
  }

  lemma AcquisitionsAppend(steps: seq<Step>, step: Step)
    ensures AcquisitionsOf(steps + [step]) == AcquisitionsOf(steps) + if step.op.Acquisition? then [step] else []
  {
    PrefixOfAppend(steps, step);
  }

  /** The step of the last instruction, if it has one, is in the slot of its time. */
  lemma LastStepIn(front: seq<RawInstruction>, last: RawInstruction, clock: string, includeFreqOps: bool)
    ensures var steps, steps' := StepsOn(front, clock, includeFreqOps), StepsOn(front + [last], clock, includeFreqOps);
            if last.clock == clock && IsSchedulable(last.kind, includeFreqOps) then
              && |steps'| == |steps| + 1 && steps' == steps + [steps'[|steps|]]
              && steps'[|steps|].slot == RoundToTick(last.t0)
              && (steps'[|steps|].op.Acquisition? <==> last.kind.Acquire?)
            else
              steps' == steps
  {
    hide StepsOn;
    StepsOnAppend(front, last, clock, includeFreqOps);
    if last.clock == clock {
      RecordedLogAppend(front, last, clock);
      ToTickExact(last.t0);
    }
  }

  /** The slots of the steps are the grid lines of the instructions. */
  lemma {:induction false} SlotsAreTicks(raws: seq<RawInstruction>, clock: string, includeFreqOps: bool)
    ensures var steps := StepsOn(raws, clock, includeFreqOps);
            && SlotsAlong(steps) == TicksOf(raws, clock, Schedulable(includeFreqOps))
            && SlotsAlong(AcquisitionsOf(steps)) == TicksOf(raws, clock, Acquisitions)
  {
    hide StepsOn, AcquisitionsOf, RoundToTick;
    if raws == [] {
      NoSteps(clock, includeFreqOps);
    } else {
      var front, last := raws[..|raws| - 1], raws[|raws| - 1];
      var steps, steps' := StepsOn(front, clock, includeFreqOps), StepsOn(raws, clock, includeFreqOps);
      assert raws == front + [last];
      SlotsAreTicks(front, clock, includeFreqOps);
      LastStepIn(front, last, clock, includeFreqOps);
      if steps' != steps {
        AcquisitionsAppend(steps, steps'[|steps|]);
      }
    }
  }

  lemma NoSteps(clock: string, includeFreqOps: bool)
    ensures StepsOn([], clock, includeFreqOps) == [] && AcquisitionsOf([]) == []
  {
  }

  lemma SortedAlong(steps: seq<Step>)
    ensures SortedBySlot(steps) <==> NonDecreasing(SlotsAlong(steps))
  {
    if NonDecreasing(SlotsAlong(steps)) {
      forall i, j | 0 <= i <= j < |steps|
        ensures steps[i].slot <= steps[j].slot
      {
        assert SlotsAlong(steps)[i] <= SlotsAlong(steps)[j];
      }
    }
  }

  /** The instructions of the clock are given in non-decreasing order of time. */
  ghost predicate InTime(raws: seq<RawInstruction>, clock: string) {
    forall a, b :: 0 <= a < b < |raws| && raws[a].clock == clock && raws[b].clock == clock ==> raws[a].t0 <= raws[b].t0
  }

  lemma {:induction false} TicksUpTo(raws: seq<RawInstruction>, clock: string, choice: Choice, t0: int)
    requires forall raw :: raw in raws && raw.clock == clock ==> raw.t0 <= t0
    ensures forall tick :: tick in TicksOf(raws, clock, choice) ==> tick <= RoundToTick(t0)
  {
    hide RoundToTick;
    if raws != [] {
      var last := raws[|raws| - 1];
      assert last in raws;
      TicksUpTo(raws[..|raws| - 1], clock, choice, t0);
      if last.clock == clock {
        RoundMonotone(last.t0, t0);
      }
    }
  }

  lemma {:induction false} TicksInTime(raws: seq<RawInstruction>, clock: string, choice: Choice)
    requires InTime(raws, clock)
    ensures NonDecreasing(TicksOf(raws, clock, choice))
  {
    hide RoundToTick, NonDecreasing;
    if raws == [] {
      NoTicks(clock, choice);
    } else {
      var front, last := raws[..|raws| - 1], raws[|raws| - 1];
      TicksInTime(front, clock, choice);
      if last.clock == clock {
        forall raw | raw in front && raw.clock == clock
          ensures raw.t0 <= last.t0
        {
          var a :| 0 <= a < |front| && front[a] == raw;
          assert raws[a] == raw;
        }
        TicksUpTo(front, clock, choice, last.t0);
        NonDecreasingAppend(TicksOf(front, clock, choice), RoundToTick(last.t0));
      }
    }
  }

  lemma NoTicks(clock: string, choice: Choice)
    ensures NonDecreasing(TicksOf([], clock, choice))
  {
  }

  lemma NonDecreasingAppend(ticks: seq<int>, tick: int)
    requires NonDecreasing(ticks) && forall t :: t in ticks ==> t <= tick
    ensures NonDecreasing(ticks + [tick])
  {
    assert forall i :: 0 <= i < |ticks| ==> ticks[i] in ticks;
  }

  // --- what is played ---

  /** What the schedule plays on a clock, operation by operation. */
  ghost function Played(raws: seq<RawInstruction>, clock: string, includeFreqOps: bool, root: string): seq<Step>
    requires clock in ClocksInOrder(raws)
  {
    var entries := OnClock(ScheduleOf(PlansOf(raws, includeFreqOps), root), clock);
    OnClockIsTimed(ScheduleOf(PlansOf(raws, includeFreqOps), root), clock);
    StepsIn(entries)
  }

  lemma {:induction false} OnClockIsTimed(entries: seq<Entry>, clock: string)
    ensures forall e :: e in OnClock(entries, clock) ==> e.Timed?
  {
    if entries != [] {
      OnClockIsTimed(entries[..|entries| - 1], clock);
    }
  }

  lemma PlayedIsSlotOrder(raws: seq<RawInstruction>, clock: string, includeFreqOps: bool, root: string)
    requires clock in ClocksInOrder(raws)
    ensures var slots := SlotsUsed(raws, includeFreqOps);
            Played(raws, clock, includeFreqOps, root) ==
            SlotOrder(StepsOn(raws, clock, includeFreqOps), slots, |slots|)
  {
    hide OnClock, ScheduleOf, SlotOrder, InSlot, StepsOn;
    var plans, slots := PlansOf(raws, includeFreqOps), SlotsUsed(raws, includeFreqOps);
    var c := PlanOfClock(raws, clock, includeFreqOps);
    OnClockSchedule(plans, root, c);
    ClockEntriesAreTimed(plans, slots, plans[c], |slots|);
  }

  /** The grid lines of the clock do not decrease along the order of registration. */
  ghost predicate InSlotOrder(raws: seq<RawInstruction>, clock: string, includeFreqOps: bool) {
    NonDecreasing(TicksOf(raws, clock, Schedulable(includeFreqOps)))
  }

  lemma PlayedInSlotOrder(raws: seq<RawInstruction>, clock: string, includeFreqOps: bool, root: string)
    requires clock in ClocksInOrder(raws)
    ensures Played(raws, clock, includeFreqOps, root) == StepsOn(raws, clock, includeFreqOps) <==>
            InSlotOrder(raws, clock, includeFreqOps)
  {
    hide Played, SlotOrder, InSlot, StepsOn, SortedBySlot, NonDecreasing, TicksOf, SlotsAlong;
    PlayedIsSlotOrder(raws, clock, includeFreqOps, root);
    SlotsAreVisited(raws, clock, includeFreqOps);
    RegistrationOrderIsKept(StepsOn(raws, clock, includeFreqOps), SlotsUsed(raws, includeFreqOps));
    SlotsAreTicks(raws, clock, includeFreqOps);
    SortedAlong(StepsOn(raws, clock, includeFreqOps));
  }

  /** Phase meaning is preserved: for a clock whose instructions come in order of
      their slots, after every operation the phase played is the phase of the direct
      semantics at that instruction, and the value recorded by its channel. */
  lemma PhaseIsPreserved(raws: seq<RawInstruction>, clock: string, includeFreqOps: bool, root: string, m: nat)
    requires clock in ClocksInOrder(raws) && InSlotOrder(raws, clock, includeFreqOps)
    requires m < |Played(raws, clock, includeFreqOps, root)|
    ensures var played, log := Played(raws, clock, includeFreqOps, root), RecordedLog(raws, clock);
            var at := played[m].inst.position;
            && at < |log.instructions|
            && Replay(played[..m + 1]) == PhaseAfter(Registered(raws, clock)[..at + 1]) == log.phases[at]
  {
    hide Played, Replay, PhaseAfter, StepsOf, InSlotOrder, ChannelLog.Valid, Registered;
    PlayedInSlotOrder(raws, clock, includeFreqOps, root);
    var log := RecordedLog(raws, clock);
    PhaseUpTo(log, includeFreqOps, m);
  }

  lemma PhaseUpTo(log: ChannelLog, includeFreqOps: bool, m: nat)
    requires log.Valid() && m < |StepsOf(log, includeFreqOps, |log.instructions|)|
    ensures var steps := StepsOf(log, includeFreqOps, |log.instructions|);
            var at := steps[m].inst.position;
            && at < |log.instructions| == |log.phases|
            && Replay(steps[..m + 1]) == PhaseAfter(log.instructions[..at + 1]) == log.phases[at]
  {
    hide Replay, PhaseAfter, StepsOf, ToStep;
    StepsUpTo(log, includeFreqOps, |log.instructions|, m);
    ReplayIsDirect(log, includeFreqOps, StepsOf(log, includeFreqOps, |log.instructions|)[m].inst.position + 1);
  }

  // --- numbers of acquisitions ---

  /** Every acquisition bears the number of those before it. */
  ghost predicate Numbered(steps: seq<Step>) {
    forall m :: 0 <= m < |steps| && steps[m].op.Acquisition? ==> steps[m].op.index == AcquisitionsAmong(steps[..m])
  }

  /** The k-th step is acquisition k. */
  ghost predicate CountUp(steps: seq<Step>) {
    forall k :: 0 <= k < |steps| ==> steps[k].op.Acquisition? && steps[k].op.index == k
  }

  lemma NumberedAppend(steps: seq<Step>, step: Step)
    ensures Numbered(steps + [step]) <==>
            Numbered(steps) && (step.op.Acquisition? ==> step.op.index == AcquisitionsAmong(steps))
  {
    hide AcquisitionsAmong;
    var steps' := steps + [step];
    PrefixOfAppend(steps, step);
    assert forall m :: 0 <= m < |steps| ==> steps'[m] == steps[m] && steps'[..m] == steps[..m];
    assert steps'[|steps|] == step;
    if Numbered(steps') {
      forall m | 0 <= m < |steps| && steps[m].op.Acquisition?
        ensures steps[m].op.index == AcquisitionsAmong(steps[..m])
      {
        assert steps'[m].op.index == AcquisitionsAmong(steps'[..m]);
      }
    }
  }

  lemma {:induction false} NumberedMeans(steps: seq<Step>)
    ensures Numbered(steps) <==> CountUp(AcquisitionsOf(steps))
    ensures AcquisitionsAmong(steps) == |AcquisitionsOf(steps)|
  {
    if steps != [] {
      var front, last := steps[..|steps| - 1], steps[|steps| - 1];
      assert steps == front + [last];
      hide Numbered;
      NumberedMeans(front);
      NumberedAppend(front, last);
      AcquisitionsAppend(front, last);
      ReplayAppend(front, last);
      hide AcquisitionsOf, AcquisitionsAmong;
      CountUpAppend(AcquisitionsOf(front), last);
    }
  }

  lemma CountUpAppend(steps: seq<Step>, step: Step)
    ensures CountUp(steps + [step]) <==> CountUp(steps) && step.op.Acquisition? && step.op.index == |steps|
  {
    var steps' := steps + [step];
    assert steps'[|steps|] == step;
    assert forall k :: 0 <= k < |steps| ==> steps'[k] == steps[k];
  }

  /** In the order of registration acquisitions are numbered as they come. */
  lemma {:induction false} NumberedAsRegistered(log: ChannelLog, includeFreqOps: bool, n: nat)
    requires log.Valid() && n <= |log.instructions|
    ensures Numbered(StepsOf(log, includeFreqOps, n))
  {
    if n > 0 {
      hide Numbered, AcquisitionsAmong, AcquisitionsIn;
      NumberedAsRegistered(log, includeFreqOps, n - 1);
      var before, step := StepsOf(log, includeFreqOps, n - 1), ToStep(log, log.instructions[n - 1]);
      NumberedAppend(before, step);
      ReplayIsDirect(log, includeFreqOps, n - 1);
      ShiftOfInstruction(log, n);
      assert log.acquisitions[n - 1] == AcquisitionsIn(log.instructions[..n]);
    } else {
      hide StepsOf;
      assert StepsOf(log, includeFreqOps, 0) == [] by {
        NoneOf(log, includeFreqOps);
      }
    }
  }

  lemma NoneOf(log: ChannelLog, includeFreqOps: bool)
    requires log.Valid()
    ensures StepsOf(log, includeFreqOps, 0) == []
  {
  }

  lemma {:induction false} AcquisitionsConcat(a: seq<Step>, b: seq<Step>)
    ensures AcquisitionsOf(a + b) == AcquisitionsOf(a) + AcquisitionsOf(b)
  {
    if b == [] {
      assert a + b == a;
    } else {
      var c, last := b[..|b| - 1], b[|b| - 1];
      assert a + b == (a + c) + [last] && b == c + [last];
      AcquisitionsConcat(a, c);
      AcquisitionsAppend(a + c, last);
      AcquisitionsAppend(c, last);
    }
  }

  lemma {:induction false} AcquisitionsInSlot(steps: seq<Step>, slot: int)
    ensures AcquisitionsOf(InSlot(steps, slot)) == InSlot(AcquisitionsOf(steps), slot)
  {
    if steps != [] {
      var front, last := steps[..|steps| - 1], steps[|steps| - 1];
      AcquisitionsInSlot(front, slot);
      assert steps == front + [last];
      InSlotAppend(front, last, slot);
      AcquisitionsAppend(front, last);
      AcquisitionsAppend(InSlot(front, slot), last);
      InSlotAppend(AcquisitionsOf(front), last, slot);
    }
  }

  lemma {:induction false} AcquisitionsInOrder(steps: seq<Step>, slots: seq<int>, k: nat)
    requires k <= |slots|
    ensures AcquisitionsOf(SlotOrder(steps, slots, k)) == SlotOrder(AcquisitionsOf(steps), slots, k)
  {
    if k > 0 {
      hide AcquisitionsOf, InSlot;
      AcquisitionsInOrder(steps, slots, k - 1);
      AcquisitionsConcat(SlotOrder(steps, slots, k - 1), InSlot(steps, slots[k - 1]));
      AcquisitionsInSlot(steps, slots[k - 1]);
    }
  }

  lemma {:induction false} AcquisitionsMembers(steps: seq<Step>)
    ensures forall step :: step in AcquisitionsOf(steps) ==> step in steps
  {
    if steps != [] {
      AcquisitionsMembers(steps[..|steps| - 1]);
    }
  }

  lemma {:induction false} SlotOrderMembers(steps: seq<Step>, slots: seq<int>, k: nat)
    requires k <= |slots|
    ensures forall step :: step in SlotOrder(steps, slots, k) ==> step in steps
  {
    if k > 0 {
      SlotOrderMembers(steps, slots, k - 1);
      InSlotMembers(steps, slots[k - 1]);
    }
  }

  /** Steps that are numbered along the list are numbered along its slots only if that
      is the same order. */
  lemma CountUpInSlotOrder(steps: seq<Step>, slots: seq<int>)
    requires Covers(slots, steps) && CountUp(steps)
    ensures CountUp(SlotOrder(steps, slots, |slots|)) <==> SortedBySlot(steps)
  {
    hide SlotOrder, SortedBySlot;
    RegistrationOrderIsKept(steps, slots);
    SlotOrderLength(steps, slots);
    SlotOrderMembers(steps, slots, |slots|);
    var ordered := SlotOrder(steps, slots, |slots|);
    if CountUp(ordered) {
      forall k | 0 <= k < |steps|
        ensures ordered[k] == steps[k]
      {
        assert ordered[k] in steps;
        var j :| 0 <= j < |steps| && steps[j] == ordered[k];
      }
      assert ordered == steps;
    }
  }

  /** Acquisitions are numbered 0, 1, 2, ... in the order they are played, exactly if
      the grid lines of the acquisitions do not decrease along the list. */
  lemma AcquisitionsAreNumbered(raws: seq<RawInstruction>, clock: string, includeFreqOps: bool, root: string)
    requires clock in ClocksInOrder(raws)
    ensures Numbered(Played(raws, clock, includeFreqOps, root)) <==> NonDecreasing(TicksOf(raws, clock, Acquisitions))
  {
    hide Played, Numbered, CountUp, SlotOrder, InSlot, StepsOf, AcquisitionsOf, NonDecreasing, SortedBySlot, TicksOf;
    var log, steps, slots := RecordedLog(raws, clock), StepsOn(raws, clock, includeFreqOps),
      SlotsUsed(raws, includeFreqOps);
    PlayedIsSlotOrder(raws, clock, includeFreqOps, root);
    NumberedMeans(Played(raws, clock, includeFreqOps, root));
    AcquisitionsInOrder(steps, slots, |slots|);
    NumberedAsRegistered(log, includeFreqOps, |log.instructions|);
    NumberedMeans(steps);
    SlotsAreVisited(raws, clock, includeFreqOps);
    AcquisitionsMembers(steps);
    CountUpInSlotOrder(AcquisitionsOf(steps), slots);
    SlotsAreTicks(raws, clock, includeFreqOps);
    SortedAlong(AcquisitionsOf(steps));
  }

  /** An experiment whose instructions on a clock come in order of time is played as
      it is meant: phases and acquisitions alike. */
  lemma PlayedInTime(raws: seq<RawInstruction>, clock: string, includeFreqOps: bool, root: string, m: nat)
    requires clock in ClocksInOrder(raws) && InTime(raws, clock)
    requires m < |Played(raws, clock, includeFreqOps, root)|
    ensures var played, log := Played(raws, clock, includeFreqOps, root), RecordedLog(raws, clock);
            var at := played[m].inst.position;
            && at < |log.instructions|
            && Replay(played[..m + 1]) == PhaseAfter(Registered(raws, clock)[..at + 1]) == log.phases[at]
            && (played[m].op.Acquisition? ==> played[m].op.index == AcquisitionsAmong(played[..m]))
  {
    hide Played, Replay, PhaseAfter, AcquisitionsAmong, TicksOf, NonDecreasing, InTime, Registered, ChannelLog.Valid;
    TicksInTime(raws, clock, Schedulable(includeFreqOps));
    TicksInTime(raws, clock, Acquisitions);
    PhaseIsPreserved(raws, clock, includeFreqOps, root, m);
    AcquisitionsAreNumbered(raws, clock, includeFreqOps, root);
  }

  // --- in any order ---

  lemma {:induction false} ReplayConcat(a: seq<Step>, b: seq<Step>)
    ensures Replay(a + b) == Replay(a) + Replay(b)
  {
    if b == [] {
      assert a + b == a;
    } else {
      var c := b[..|b| - 1];
      assert (a + b)[..|a + b| - 1] == a + c;
      ReplayConcat(a, c);
    }
  }

  lemma {:induction false} ReplayWithOneMore(steps: seq<Step>, step: Step, slots: seq<int>, k: nat)
    requires k <= |slots| && Increasing(slots)
    ensures Replay(SlotOrder(steps + [step], slots, k)) ==
            Replay(SlotOrder(steps, slots, k)) + if step.slot in slots[..k] then ShiftBy(step) else 0.0
  {
    if k > 0 {
      hide Replay, InSlot, ShiftBy;
      var own := slots[k - 1];
      ReplayWithOneMore(steps, step, slots, k - 1);
      InSlotAppend(steps, step, own);
      ReplayConcat(SlotOrder(steps, slots, k - 1), InSlot(steps, own));
      ReplayConcat(SlotOrder(steps + [step], slots, k - 1), InSlot(steps + [step], own));
      if step.slot == own {
        ReplayAppend(InSlot(steps, own), step);
      } else {
        assert InSlot(steps + [step], own) == InSlot(steps, own);
      }
      PrefixGrows(slots, k - 1);
    }
  }

  lemma {:induction false} ReplayInSlotOrder(steps: seq<Step>, slots: seq<int>)
    requires Covers(slots, steps)
    ensures Replay(SlotOrder(steps, slots, |slots|)) == Replay(steps)
  {
    hide SlotOrder, InSlot, ShiftBy;
    if steps == [] {
      NothingInOrder(slots, |slots|);
    } else {
      var front, last := steps[..|steps| - 1], steps[|steps| - 1];
      ReplayInSlotOrder(front, slots);
      ReplayWithOneMore(front, last, slots, |slots|);
      PrefixWhole(slots);
      assert steps == front + [last];
      ReplayAppend(front, last);
    }
  }

  /** Whatever the order of the instructions, the phase a clock ends with is the
      final phase recorded by its channel. */
  lemma FinalPhaseIsConserved(raws: seq<RawInstruction>, clock: string, includeFreqOps: bool, root: string)
    requires clock in ClocksInOrder(raws)
    ensures Replay(Played(raws, clock, includeFreqOps, root)) == PhaseAfter(Registered(raws, clock))
  {
    hide Played, SlotOrder, InSlot, Replay, PhaseAfter;
    var log := RecordedLog(raws, clock);
    PlayedIsSlotOrder(raws, clock, includeFreqOps, root);
    SlotsAreVisited(raws, clock, includeFreqOps);
    ReplayInSlotOrder(StepsOn(raws, clock, includeFreqOps), SlotsUsed(raws, includeFreqOps));
    ReplayIsDirect(log, includeFreqOps, |log.instructions|);
    PrefixWhole(log.instructions);
  }
}
