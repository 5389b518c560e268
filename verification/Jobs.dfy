/** Jobs as the store keeps them: stage, status and timestamps. */
module Jobs {
  import opened Wrappers
  import opened Prefixes
  import opened Queues

  datatype Stage = RegQ | RegW | PreProcQ | PreProcW | ExecQ | ExecW | PstProcQ | PstProcW | FinalQ | FinalW {
    function Number(): nat {
      match this
      case RegQ => 0 case RegW => 1 case PreProcQ => 2 case PreProcW => 3 case ExecQ => 4
      case ExecW => 5 case PstProcQ => 6 case PstProcW => 7 case FinalQ => 8 case FinalW => 9
    }
  }

  datatype Status = Pending | Executing | Failed | Successful | Cancelled {
    predicate IsTerminal() {
      Failed? || Successful? || Cancelled?
    }
  }

  datatype Phase = Registration | PreProcessing | Execution | PostProcessing | Final

  datatype Mark = Started | Finished

  datatype Label = Label(phase: Phase, mark: Mark) {
    /** The place of the label in the life of a job. */
    function Rank(): nat {
      var phases := match phase
        case Registration => 0 case PreProcessing => 1 case Execution => 2 case PostProcessing => 3 case Final => 4;
      2 * phases + if mark.Started? then 0 else 1
    }
  }

  type Timestamps = map<Label, int>

  type Seconds = duration: real | duration >= 0.0

  datatype Job = Job(id: string, stage: Stage, status: Status, estimated: Option<Seconds>, stamps: Timestamps) {
    /** What a queue stores of the job, and under which id. */
    function Queued(): QueuedJob {
      QueuedJob(id, estimated)
    }

    function Key(): StorageId {
      Queued().Key()
    }
  }

  function LabelsOf(stage: Stage): seq<Label> {
    match stage
    case RegQ => []
    case RegW => [Label(Registration, Started)]
    case PreProcQ => [Label(Registration, Finished)]
    case PreProcW => [Label(PreProcessing, Started)]
    case ExecQ => [Label(PreProcessing, Finished)]
    case ExecW => [Label(Execution, Started)]
    case PstProcQ => [Label(Execution, Finished)]
    case PstProcW => [Label(PostProcessing, Started)]
    case FinalQ => [Label(PostProcessing, Finished), Label(Final, Started)]
    case FinalW => [Label(Final, Finished)]
  }

  function StatusOf(stage: Stage): Status {
    match stage
    case RegQ | RegW | PreProcQ | ExecQ => Pending
    case PreProcW | ExecW | PstProcQ | PstProcW | FinalQ => Executing
    case FinalW => Successful
  }

  /** The timestamps with the same time at all the labels. */
  function WithUpdates(stamps: Timestamps, labels: seq<Label>, now: int): (updated: Timestamps)
    ensures forall at :: at in updated <==> at in stamps || at in labels
    ensures forall at :: at in updated ==> updated[at] == if at in labels then now else stamps[at]
  {
    if labels == [] then stamps
    else
      var front, last := labels[..|labels| - 1], labels[|labels| - 1];
      assert labels == front + [last];
      WithUpdates(stamps, front, now)[last := now]
  }

  /** The copy is changed label after label. */
  method UpdateStamps(stamps: Timestamps, labels: seq<Label>, now: int) returns (updated: Timestamps)
    ensures updated == WithUpdates(stamps, labels, now)
  {
    updated := stamps;
    for i := 0 to |labels|
      invariant updated == WithUpdates(stamps, labels[..i], now)
    {
      PrefixGrows(labels, i);
      updated := updated[labels[i] := now];
    }
    PrefixWhole(labels);
  }

  function NextStatus(status: Status, stage: Stage): Status {
    if status.IsTerminal() then status else StatusOf(stage)
  }

  /** `update_job_stage`, for one job. */
  function Moved(job: Job, stage: Stage, now: int): Job {
    job.(stage := stage, status := NextStatus(job.status, stage),
      stamps := WithUpdates(job.stamps, LabelsOf(stage), now))
  }

  // --- any interleaving of updates of one job ---

  datatype Update =
    | StageUpdate(stage: Stage, now: int)
    | Failure
    | Results
    | Withdrawal
    | Estimate(duration: Seconds)
  {
    /** Whether the update itself ends a job that is still alive. */
    predicate Ends() {
      Failure? || Results? || Withdrawal? || (StageUpdate? && stage == FinalW)
    }
  }

  function Updated(job: Job, update: Update): Job {
    match update
    case StageUpdate(stage, now) => Moved(job, stage, now)
    case Failure => job.(status := Failed)
    case Results => job.(status := Successful)
    case Withdrawal => job.(status := Cancelled)
    case Estimate(duration) => job.(estimated := Some(duration))
  }

  function AllUpdated(job: Job, updates: seq<Update>): Job {
    if updates == [] then job else Updated(AllUpdated(job, updates[..|updates| - 1]), updates[|updates| - 1])
  }

  /** Whatever the order of stage updates, failures, results and cancellations: a
      job has ended exactly when one of them ended it, or it had ended before; and
      no later update brings it back. */
  lemma {:induction false} EndedIsForever(job: Job, updates: seq<Update>)
    ensures AllUpdated(job, updates).status.IsTerminal() <==>
            job.status.IsTerminal() || exists update :: update in updates && update.Ends()
  {
    if updates != [] {
      var front, last := updates[..|updates| - 1], updates[|updates| - 1];
      EndedIsForever(job, front);
      assert updates == front + [last];
      assert last in updates;
    }
  }

  /** With which status it ended: that of the last update that writes a status
      outright, or, if there is none, success by the final stage. */
  lemma {:induction false} LastWordCounts(job: Job, before: seq<Update>, last: Update, after: seq<Update>)
    requires last.Failure? || last.Results? || last.Withdrawal?
    requires forall update :: update in after ==> update.StageUpdate? || update.Estimate?
    ensures AllUpdated(job, before + [last] + after).status == Updated(job, last).status
  {
    var all := before + [last] + after;
    if after == [] {
      assert all[..|all| - 1] == before;
    } else {
      var front := after[..|after| - 1];
      assert all[..|all| - 1] == before + [last] + front;
      assert all[|all| - 1] == after[|after| - 1];
      LastWordCounts(job, before, last, front);
    }
  }
}
