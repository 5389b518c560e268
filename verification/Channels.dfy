/** Instructions, the per-clock channels that record them, and the registry of
    channels: what the compiler knows before it emits anything. */
module Channels {
  import opened Timegrid

  datatype Kind =
    | SetPhase(phase: real)        // 'setp'
    | ShiftPhase(phase: real)      // 'fc'
    | SetFreq(frequency: real)     // 'setf'
    | ShiftFreq(frequency: real)   // 'shiftf'
    | Acquire
    | Delay
    | Pulse
  {
    predicate IsFreqControl() {
      SetFreq? || ShiftFreq?
    }
  }

  /** An instruction as the experiment gives it, in source nanoseconds. */
  datatype RawInstruction =
    RawInstruction(clock: string, kind: Kind, t0: int, duration: int, name: string)

  /** The native instruction: its times are on the grid, and `position` is its
      index among the instructions of its channel. */
  datatype Instruction =
    Instruction(kind: Kind, t0: int, duration: int, name: string, position: nat)

  function Lower(raw: RawInstruction, position: nat): Instruction {
    Instruction(raw.kind, MapToTimegrid(raw.t0), MapToTimegrid(raw.duration), raw.name, position)
  }

  /** What one channel has recorded: its instructions and, after each of them,
      the running phase, frequency and number of acquisitions. */
  datatype ChannelLog = ChannelLog(
    instructions: seq<Instruction>,
    phases: seq<real>,
    frequencies: seq<real>,
    acquisitions: seq<int>)
  {
    /** The recorded values are those of the direct semantics, and each
        instruction knows its own index. */
    ghost predicate Valid() {
      && |phases| == |frequencies| == |acquisitions| == |instructions|
      && (forall i :: 0 <= i < |instructions| ==> instructions[i].position == i)
      && (forall i :: 0 <= i < |phases| ==> phases[i] == PhaseAfter(instructions[..i + 1]))
      && (forall i :: 0 <= i < |frequencies| ==> frequencies[i] == FrequencyAfter(instructions[..i + 1]))
      && (forall i :: 0 <= i < |acquisitions| ==> acquisitions[i] == AcquisitionsIn(instructions[..i + 1]))
    }

    function FinalPhase(): real {
      PlaybackAt(phases, |instructions| - 1, 0.0)
    }

    function FinalFrequency(): real {
      PlaybackAt(frequencies, |instructions| - 1, 0.0)
    }

    function FinalAcquisitions(): int {
      PlaybackAt(acquisitions, |instructions| - 1, 0)
    }

    function PhaseDelta(kind: Kind): real {
      match kind
      case SetPhase(phase) => phase - FinalPhase()
      case ShiftPhase(phase) => phase
      case _ => 0.0
    }

    function FrequencyDelta(kind: Kind): real {
      match kind
      case SetFreq(frequency) => frequency - FinalFrequency()
      case ShiftFreq(frequency) => frequency
      case _ => 0.0
    }

    function AcquisitionsDelta(kind: Kind): int {
      if kind.Acquire? then 1 else 0
    }

    /** The log with one more instruction: every playback grows by a delta. */
    function Extended(raw: RawInstruction): ChannelLog {
      ChannelLog(
        instructions + [Lower(raw, |instructions|)],
        phases + [FinalPhase() + PhaseDelta(raw.kind)],
        frequencies + [FinalFrequency() + FrequencyDelta(raw.kind)],
        acquisitions + [FinalAcquisitions() + AcquisitionsDelta(raw.kind)])
    }
  }

  const EMPTY_LOG := ChannelLog([], [], [], [])

  // --- the direct semantics of a list of instructions ---

  /** Phase after running the list from phase 0: 'setp' assigns, 'fc' adds. */
  function PhaseAfter(insts: seq<Instruction>): real {
    if insts == [] then 0.0
    else
      var before := PhaseAfter(insts[..|insts| - 1]);
      match insts[|insts| - 1].kind
      case SetPhase(phase) => phase
      case ShiftPhase(phase) => before + phase
      case _ => before
  }

  /** Frequency after running the list: 'setf' assigns, 'shiftf' adds. */
  function FrequencyAfter(insts: seq<Instruction>): real {
    if insts == [] then 0.0
    else
      var before := FrequencyAfter(insts[..|insts| - 1]);
      match insts[|insts| - 1].kind
      case SetFreq(frequency) => frequency
      case ShiftFreq(frequency) => before + frequency
      case _ => before
  }

  function AcquisitionsIn(insts: seq<Instruction>): nat {
    if insts == [] then 0
    else AcquisitionsIn(insts[..|insts| - 1]) + if insts[|insts| - 1].kind.Acquire? then 1 else 0
  }

  // --- the classes ---

  /** `playback[index]` as Python reads it: a negative index counts from the end,
      and the IndexError of a missing entry is answered with the default. */
  function PlaybackAt<T>(playback: seq<T>, index: int, default: T): T {
    if 0 <= index < |playback| then playback[index]
    else if -|playback| <= index < 0 then playback[|playback| + index]
    else default
  }

  class QuantifyChannel {
    const clock: string
    var instructions: seq<Instruction>
    var phasePlayback: seq<real>
    var frequencyPlayback: seq<real>
    var acquisitionPlayback: seq<int>

    function Log(): ChannelLog
      reads this
    {
      ChannelLog(instructions, phasePlayback, frequencyPlayback, acquisitionPlayback)
    }

    constructor (clock: string)
      ensures this.clock == clock && Log() == EMPTY_LOG
    {
      this.clock := clock;
      instructions, phasePlayback, frequencyPlayback, acquisitionPlayback := [], [], [], [];
    }

    /** Records the instruction at the end of the channel. */
    method RegisterInstruction(raw: RawInstruction) returns (index: nat)
      modifies this
      ensures index == old(|instructions|)
      ensures Log() == old(Log()).Extended(raw)
    {
      index := |instructions|;
      var phaseDelta := Log().PhaseDelta(raw.kind);
      var frequencyDelta := Log().FrequencyDelta(raw.kind);
      var acquisitionsDelta := Log().AcquisitionsDelta(raw.kind);

      phasePlayback := phasePlayback + [Log().FinalPhase() + phaseDelta];
      frequencyPlayback := frequencyPlayback + [Log().FinalFrequency() + frequencyDelta];
      acquisitionPlayback := acquisitionPlayback + [Log().FinalAcquisitions() + acquisitionsDelta];
      instructions := instructions + [Lower(raw, index)];
    }
  }

  /** The final values read from the playback are the direct semantics. */
  lemma FinalValues(log: ChannelLog)
    requires log.Valid()
    ensures log.FinalPhase() == PhaseAfter(log.instructions)
    ensures log.FinalFrequency() == FrequencyAfter(log.instructions)
    ensures log.FinalAcquisitions() == AcquisitionsIn(log.instructions)
  {
    assert log.instructions[..|log.instructions|] == log.instructions;
  }

  /** Adding up deltas is the direct semantics, at every position of the log. */
  lemma ExtendedIsValid(log: ChannelLog, raw: RawInstruction)
    requires log.Valid()
    ensures log.Extended(raw).Valid()
  {
    var n, log' := |log.instructions|, log.Extended(raw);
    FinalValues(log);
    assert log'.instructions[..n] == log.instructions;
    forall i | 0 <= i <= n
      ensures log'.phases[i] == PhaseAfter(log'.instructions[..i + 1])
      ensures log'.frequencies[i] == FrequencyAfter(log'.instructions[..i + 1])
      ensures log'.acquisitions[i] == AcquisitionsIn(log'.instructions[..i + 1])
    {
      if i < n {
        assert log'.instructions[..i + 1] == log.instructions[..i + 1];
      } else {
        assert log'.instructions[..i + 1] == log'.instructions;
      }
    }
  }

  // --- the registry ---

  /** The instructions of one clock, in the order they are given. */
  function Registered(raws: seq<RawInstruction>, clock: string): seq<Instruction> {
    if raws == [] then []
    else
      var before, last := Registered(raws[..|raws| - 1], clock), raws[|raws| - 1];
      if last.clock == clock then before + [Lower(last, |before|)] else before
  }

  function AddedOrder(order: seq<string>, clock: string): seq<string> {
    if clock in order then order else order + [clock]
  }

  /** The clocks in the order they are first used. */
  function ClocksInOrder(raws: seq<RawInstruction>): (clocks: seq<string>)
    ensures forall i, j :: 0 <= i < j < |clocks| ==> clocks[i] != clocks[j]
  {
    if raws == [] then []
    else AddedOrder(ClocksInOrder(raws[..|raws| - 1]), raws[|raws| - 1].clock)
  }

  /** What the channel of a clock records when the instructions are registered. */
  function RecordedLog(raws: seq<RawInstruction>, clock: string): (log: ChannelLog)
    ensures log.Valid() && log.instructions == Registered(raws, clock)
  {
    if raws == [] then EMPTY_LOG
    else
      var before, last := RecordedLog(raws[..|raws| - 1], clock), raws[|raws| - 1];
      ExtendedIsValid(before, last);
      if last.clock == clock then before.Extended(last) else before
  }

  ghost predicate Recorded(raws: seq<RawInstruction>, order: seq<string>, logs: map<string, ChannelLog>) {
    && order == ClocksInOrder(raws)
    && (forall clock :: clock in logs <==> clock in order)
    && (forall clock :: clock in logs ==> logs[clock] == RecordedLog(raws, clock))
  }

  /** The logs with one more instruction, on a new log if its clock has none. */
  function Added(logs: map<string, ChannelLog>, raw: RawInstruction): map<string, ChannelLog> {
    var log := if raw.clock in logs then logs[raw.clock] else EMPTY_LOG;
    logs[raw.clock := log.Extended(raw)]
  }

  lemma {:induction false} UnusedClock(raws: seq<RawInstruction>, clock: string)
    requires clock !in ClocksInOrder(raws)
    ensures RecordedLog(raws, clock) == EMPTY_LOG
  {
    if raws != [] {
      UnusedClock(raws[..|raws| - 1], clock);
    }
  }

  lemma RecordedLogAppend(raws: seq<RawInstruction>, raw: RawInstruction, clock: string)
    ensures RecordedLog(raws + [raw], clock) ==
            if raw.clock == clock then RecordedLog(raws, clock).Extended(raw) else RecordedLog(raws, clock)
  {
    assert (raws + [raw])[..|raws|] == raws;
  }

  lemma RecordOne(raws: seq<RawInstruction>, raw: RawInstruction, order: seq<string>, logs: map<string, ChannelLog>)
    requires Recorded(raws, order, logs)
    ensures Recorded(raws + [raw], AddedOrder(order, raw.clock), Added(logs, raw))
  {
    assert (raws + [raw])[..|raws|] == raws;
    forall clock {
      RecordedLogAppend(raws, raw, clock);
    }
    if raw.clock !in order {
      UnusedClock(raws, raw.clock);
    }
  }

  lemma OneLogAdded(logs': map<string, ChannelLog>, logs: map<string, ChannelLog>, clock: string, log: ChannelLog)
    requires forall c :: c in logs' <==> c in logs || c == clock
    requires forall c :: c in logs' ==> logs'[c] == if c == clock then log else logs[c]
    ensures logs' == logs[clock := log]
  {
  }

  /** A dictionary of channels that creates the ones it is asked for and lacks;
      `order` is the insertion order of the dictionary. */
  class QuantifyChannelRegistry {
    var order: seq<string>
    var channels: map<string, QuantifyChannel>

    ghost predicate WellKeyed()
      reads this
    {
      forall clock :: clock in channels ==> channels[clock].clock == clock
    }

    ghost function Logs(): (logs: map<string, ChannelLog>)
      reads this, channels.Values
    {
      map clock | clock in channels :: channels[clock].Log()
    }

    /** The registry holds exactly what registering the instructions records. */
    ghost predicate Holds(raws: seq<RawInstruction>)
      reads this, channels.Values
    {
      WellKeyed() && Recorded(raws, order, Logs())
    }

    constructor ()
      ensures Holds([]) && channels == map[]
    {
      order, channels := [], map[];
    }

    method Get(clock: string) returns (channel: QuantifyChannel)
      requires WellKeyed()
      modifies this
      ensures WellKeyed()
      ensures clock in channels && channel == channels[clock]
      ensures old(clock in channels) ==> order == old(order) && channels == old(channels)
      ensures old(clock !in channels) ==>
                && order == old(order) + [clock]
                && channels == old(channels)[clock := channel]
                && fresh(channel) && channel.Log() == EMPTY_LOG
    {
      if clock in channels {
        channel := channels[clock];
      } else {
        channel := new QuantifyChannel(clock);
        channels := channels[clock := channel];
        order := order + [clock];
      }
    }

    method AddInstruction(raw: RawInstruction)
      requires WellKeyed() && (raw.clock in order <==> raw.clock in channels)
      modifies this, channels.Values
      ensures WellKeyed()
      ensures order == AddedOrder(old(order), raw.clock)
      ensures Logs() == Added(old(Logs()), raw)
      ensures fresh(channels.Values - old(channels.Values))
    {
      hide ChannelLog.Extended;
      ghost var logs := Logs();
      var channel := Get(raw.clock);
      ghost var log := channel.Log();
      assert log == if raw.clock in logs then logs[raw.clock] else EMPTY_LOG;
      assert channels.Values <= old(channels.Values) + {channel};
      var _ := channel.RegisterInstruction(raw);
      forall clock | clock in channels
        ensures channels[clock].Log() == if clock == raw.clock then log.Extended(raw) else logs[clock]
      {
        assert clock != raw.clock ==> channels[clock] != channel;
      }
      OneLogAdded(Logs(), logs, raw.clock, log.Extended(raw));
    }

    /** Adds all instructions of an experiment to a new registry. */
    static method FromExperiment(raws: seq<RawInstruction>) returns (registry: QuantifyChannelRegistry)
      ensures fresh(registry) && fresh(registry.channels.Values)
      ensures registry.Holds(raws)
    {
      registry := new QuantifyChannelRegistry();
      for i := 0 to |raws|
        invariant registry.Holds(raws[..i])
        invariant fresh(registry) && fresh(registry.channels.Values)
      {
        RecordOne(raws[..i], raws[i], registry.order, registry.Logs());
        assert raws[..i + 1] == raws[..i] + [raws[i]];
        registry.AddInstruction(raws[i]);
      }
      assert raws[..|raws|] == raws;
    }
  }
}
