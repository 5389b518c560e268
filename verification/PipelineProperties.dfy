/** The pipeline over every run: each job is in one place, none is lost, and a
    cancelled job that waited does not come back. */
module PipelineProperties {
  import opened Wrappers
  import opened Queues
  import opened Runners
  import RunnerProperties
  import opened Jobs
  import opened Pipelines
  import opened PipelineStates
  import opened PipelineSteps

  /** Steps that drop a job that has not ended: its results file can be neither
      moved nor read, and the error is not one that the failure callback logs. */
  ghost predicate Abandons(p: Pipeline, step: Step) {
    match step
    case PostprocessingStarts(at, movable) =>
      && !movable && at < |p.postprocessing.tokens| && Handed(p.postprocessing).Some?
      && var id := Handed(p.postprocessing).value.job.jobId;
         id in p.jobs && !p.jobs[id].status.IsTerminal()
    case PostprocessingCrashes(i) =>
      Works(p, i, Postprocessing) && var id := p.workers[i].jobId; id in p.jobs && !p.jobs[id].status.IsTerminal()
    case _ => false
  }

  ghost predicate NothingLost(p: Pipeline) {
    forall id :: id in p.jobs ==> Kept(p, id)
  }

  /** The worker of the step has the job. */
  ghost predicate WorksOn(p: Pipeline, step: Step, id: string) {
    IsWork(step) && step.worker < |p.workers| && p.workers[step.worker].jobId == id
  }

  predicate IsWork(step: Step) {
    step.PreprocessingFails? || step.PreprocessingEnds? || step.ExecutionFails? || step.ExecutionEnds? ||
    step.PostprocessingFails? || step.PostprocessingCrashes? || step.ResultsSaved? ||
    step.SuccessCallback? || step.FailureCallback?
  }

  /** The jobs a step handles: some that were in a place, or the one submitted, or
      the one cancelled; afterwards they have ended or are in a place again. */
  ghost predicate Handles(p: Pipeline, step: Step, now: int, ids: set<string>) {
    var p' := After(p, step, now);
    && Effect(p, p', ids, now)
    && (forall id :: id in ids && id in p.jobs && step != Cancellation(id) ==>
      InSomeList(p, id) || WorksOn(p, step, id))
    && (Abandons(p, step) ==> exists id :: id in ids && id in p'.jobs && !Kept(p', id))
    && (!Abandons(p, step) ==> AllKept(p', ids))
  }

  lemma Handling(p: Pipeline, step: Step, now: int) returns (ids: set<string>)
    requires Inv(p, now)
    ensures Handles(p, step, now, ids)
  {
    match step
    case Submission(id, booking) =>
      ids := HandlingSubmission(p, now, id, booking);
    case PreprocessingStarts(_, _) | WaitlistFeedsBooking(_) | WaitlistFeedsNormal(_) |
      NormalStarts(_) | BookedStarts(_) =>
      ids := HandlingQueues(p, step, now);
    case PostprocessingStarts(_, _) =>
      ids := HandlingPostprocessing(p, step, now);
    case Cancellation(id) =>
      ids := HandlingCancellation(p, now, id);
    case _ =>
      ids := HandlingWork(p, step, now);
  }

  lemma HandlingSubmission(p: Pipeline, now: int, id: string, booking: Args) returns (ids: set<string>)
    requires Inv(p, now)
    ensures Handles(p, Submission(id, booking), now, ids)
  {
    hide Inv, Nowhere, Effect, Kept;
    if id in p.jobs {
      ids := {};
      Nothing(p, now);
    } else {
      ids := {id};
      Submitting(p, now, id, booking);
    }
  }

  lemma HandlingQueues(p: Pipeline, step: Step, now: int) returns (ids: set<string>)
    requires Inv(p, now)
    requires step.PreprocessingStarts? || step.WaitlistFeedsBooking? || step.WaitlistFeedsNormal? ||
             step.NormalStarts? || step.BookedStarts?
    ensures Handles(p, step, now, ids)
  {
    hide Inv, Nowhere, Effect, Kept, AllKept;
    match step
    case PreprocessingStarts(at, readable) =>
      ids := StartingPreprocessing(p, now, at, readable);
    case WaitlistFeedsBooking(usable) =>
      ids := FeedingBooking(p, now, usable);
    case WaitlistFeedsNormal(usable) =>
      ids := FeedingNormal(p, now, usable);
    case NormalStarts(at) =>
      ids := StartingNormal(p, now, at);
    case BookedStarts(at) =>
      ids := StartingBooked(p, now, at);
  }

  lemma StartingNormal(p: Pipeline, now: int, at: nat) returns (ids: set<string>)
    requires Inv(p, now)
    ensures var q := StartNormal(p, at, now); Effect(p, q, ids, now) && Found(p, ids) && AllKept(q, ids)
  {
    hide Inv, Nowhere, Effect, Kept, Next, Execute;
    if at >= |p.normal.tokens| {
      ids := {};
      Nothing(p, now);
    } else {
      ids := StartingExecution(p, p.(normal := Fire(p.normal, at)), now, NormalQueue, Handed(p.normal));
    }
  }

  lemma StartingBooked(p: Pipeline, now: int, at: nat) returns (ids: set<string>)
    requires Inv(p, now)
    ensures var q := StartBooked(p, at, now); Effect(p, q, ids, now) && Found(p, ids) && AllKept(q, ids)
  {
    hide Inv, Nowhere, Effect, Kept, Next, Execute;
    if at >= |p.booked.tokens| {
      ids := {};
      Nothing(p, now);
    } else {
      ids := StartingExecution(p, p.(booked := Fire(p.booked, at)), now, BookedQueue, Handed(p.booked));
    }
  }

  lemma HandlingPostprocessing(p: Pipeline, step: Step, now: int) returns (ids: set<string>)
    requires Inv(p, now) && step.PostprocessingStarts?
    ensures Handles(p, step, now, ids)
  {
    hide Inv, Nowhere, Effect, Next;
    ids := StartingPostprocessing(p, now, step.at, step.movable);
    var q := StartPostprocessing(p, step.at, step.movable, now);
    if !step.movable && step.at < |p.postprocessing.tokens| && Handed(p.postprocessing).Some? {
      var id := Handed(p.postprocessing).value.job.jobId;
      assert Kept(q, id) <==> p.jobs[id].status.IsTerminal();
      assert id in ids;
    }
  }

  lemma HandlingCancellation(p: Pipeline, now: int, id: string) returns (ids: set<string>)
    requires Inv(p, now)
    ensures Handles(p, Cancellation(id), now, ids)
  {
    hide Inv, Nowhere, Effect, Kept;
    if id in p.jobs {
      ids := {id};
      Cancelling(p, now, id);
    } else {
      ids := {};
      Nothing(p, now);
    }
  }

  lemma HandlingWork(p: Pipeline, step: Step, now: int) returns (ids: set<string>)
    requires Inv(p, now)
    requires IsWork(step)
    ensures Handles(p, step, now, ids)
  {
    hide Inv, Nowhere, Effect, After, Abandons, Kept;
    if step.worker >= |p.workers| {
      ids := {};
      Nothing(p, now);
      NoWorker(p, step, now);
    } else {
      ids := WorkingOn(p, step, now);
    }
  }

  lemma NoWorker(p: Pipeline, step: Step, now: int)
    requires IsWork(step)
    requires step.worker >= |p.workers|
    ensures After(p, step, now) == p && !Abandons(p, step)
  {
  }

  lemma WorkingOn(p: Pipeline, step: Step, now: int) returns (ids: set<string>)
    requires Inv(p, now)
    requires IsWork(step)
    requires step.worker < |p.workers|
    ensures Effect(p, After(p, step, now), ids, now)
    ensures ids == {} || ids == {p.workers[step.worker].jobId}
    ensures Abandons(p, step) ==>
              var id := p.workers[step.worker].jobId;
              id in ids && id in After(p, step, now).jobs && !Kept(After(p, step, now), id)
    ensures !Abandons(p, step) ==> AllKept(After(p, step, now), ids)
  {
    hide Inv, Nowhere, Effect, FinishPreprocessing, FinishExecuting, FailPostprocessing, SaveResults, Succeed,
      SetStatus;
    var i := step.worker;
    ids := {p.workers[i].jobId};
    match step
    case PreprocessingFails(_) =>
      FailingJob(p, now, i);
      if !p.workers[i].task.Preprocessing? { ids := {}; Nothing(p, now); }
    case PreprocessingEnds(_, admission) =>
      if p.workers[i].task.Preprocessing? {
        EndingPreprocessing(p, now, i, admission);
      } else { ids := {}; NoWork(p, step, now); Nothing(p, now); }
    case ExecutionFails(_) =>
      FailingJob(p, now, i);
      if !Works(p, i, Task.Executing) { ids := {}; Nothing(p, now); }
    case ExecutionEnds(_) =>
      if Works(p, i, Task.Executing) {
        EndingExecution(p, now, i);
      } else { ids := {}; NoWork(p, step, now); Nothing(p, now); }
    case PostprocessingFails(_, saved) =>
      if Works(p, i, Postprocessing) {
        FailingPostprocessing(p, now, i, saved);
      } else { ids := {}; NoWork(p, step, now); Nothing(p, now); }
    case PostprocessingCrashes(_) =>
      if Works(p, i, Postprocessing) {
        FreeingJob(p, now, i);
        FreeingKeepsJobs(p, i);
      } else { ids := {}; NoWork(p, step, now); Nothing(p, now); }
    case ResultsSaved(_) =>
      if Works(p, i, Postprocessing) {
        SavingResults(p, now, i);
      } else { ids := {}; NoWork(p, step, now); Nothing(p, now); }
    case SuccessCallback(_) =>
      if Works(p, i, Returned) {
        Succeeding(p, now, i);
      } else { ids := {}; NoWork(p, step, now); Nothing(p, now); }
    case FailureCallback(_) =>
      FailingJob(p, now, i);
      if !Works(p, i, Raised) { ids := {}; NoWork(p, step, now); Nothing(p, now); }
  }

  /** A worker does only what its task is. */
  lemma NoWork(p: Pipeline, step: Step, now: int)
    requires step.PreprocessingEnds? ==> step.worker < |p.workers| && !p.workers[step.worker].task.Preprocessing?
    requires step.ExecutionEnds? ==> !Works(p, step.worker, Task.Executing)
    requires step.PostprocessingFails? || step.PostprocessingCrashes? || step.ResultsSaved? ==>
               !Works(p, step.worker, Postprocessing)
    requires step.SuccessCallback? ==> !Works(p, step.worker, Returned)
    requires step.FailureCallback? ==> !Works(p, step.worker, Raised)
    requires step.PreprocessingEnds? || step.ExecutionEnds? || step.PostprocessingFails? ||
             step.PostprocessingCrashes? || step.ResultsSaved? || step.SuccessCallback? || step.FailureCallback?
    ensures After(p, step, now) == p
  {
  }

  // --- one step ---

  /** A job that has not ended is in some place: exactly the abandoning steps break
      this. */
  lemma OnlyAbandonedAreLost(p: Pipeline, step: Step, now: int)
    requires Inv(p, now) && NothingLost(p)
    ensures NothingLost(After(p, step, now)) <==> !Abandons(p, step)
  {
    hide Inv, Nowhere, After, Abandons;
    var ids := Handling(p, step, now);
    var p' := After(p, step, now);
    if !Abandons(p, step) {
      forall id | id in p'.jobs
        ensures Kept(p', id)
      {
        if id !in ids {
          assert Kept(p, id);
        }
      }
    }
  }

  /** No step moves a job back, rewrites a timestamp, or revives an ended job. */
  lemma EveryJobEvolves(p: Pipeline, step: Step, now: int, id: string)
    requires Inv(p, now) && id in p.jobs
    ensures id in After(p, step, now).jobs && Evolves(p.jobs[id], After(p, step, now).jobs[id])
  {
    hide Inv, Nowhere, After, Abandons, Evolves, AllKept;
    var ids := Handling(p, step, now);
    EvolvesBack(p, After(p, step, now), ids, id);
  }

  // --- runs ---

  function Clock(run: seq<Timed>): int {
    if run == [] then 0 else run[|run| - 1].now
  }

  lemma {:induction false} EveryRun(run: seq<Timed>)
    requires ClockRuns(run)
    ensures Inv(Reach(run), Clock(run))
    decreases |run|, 1
  {
    hide Inv, After;
    if run == [] {
      EmptyIsFine(0);
    } else {
      var last := run[|run| - 1];
      StateBefore(run);
      HandledIsFine(Reach(run[..|run| - 1]), last.step, last.now);
    }
  }

  lemma HandledIsFine(p: Pipeline, step: Step, now: int)
    requires Inv(p, now)
    ensures Inv(After(p, step, now), now)
  {
    hide Inv, After, Nowhere, Evolves;
    var ids := Handling(p, step, now);
  }

  lemma EmptyIsFine(now: int)
    ensures Inv(EmptyPipeline(), now)
  {
    forall place
      ensures At(EmptyPipeline(), place) == EmptyQueue()
    {
    }
  }

  /** So nothing is lost along a run without such steps. */
  lemma {:induction false} NothingIsLost(run: seq<Timed>)
    requires ClockRuns(run)
    requires forall i :: 0 <= i < |run| ==> !Abandons(Reach(run[..i]), run[i].step)
    ensures NothingLost(Reach(run))
  {
    hide After, Abandons, Kept, Inv;
    if run != [] {
      var front, last := run[..|run| - 1], run[|run| - 1];
      forall i | 0 <= i < |front|
        ensures !Abandons(Reach(front[..i]), front[i].step)
      {
        assert front[..i] == run[..i] && !Abandons(Reach(run[..i]), run[i].step);
      }
      NothingIsLost(front);
      StateBefore(run);
      OnlyAbandonedAreLost(Reach(front), last.step, last.now);
    }
  }

  lemma StateBefore(run: seq<Timed>)
    requires ClockRuns(run) && run != []
    ensures Inv(Reach(run[..|run| - 1]), run[|run| - 1].now)
    decreases |run|, 0
  {
    hide Inv;
    var front, last := run[..|run| - 1], run[|run| - 1];
    EveryRun(front);
    if front == [] {
      EmptyIsFine(last.now);
    } else {
      assert front[|front| - 1].now <= last.now;
      InvLater(Reach(front), Clock(front), last.now);
    }
  }

  function Times(list: seq<StorageId>, id: string): nat {
    if list == [] then 0 else Times(list[..|list| - 1], id) + if list[|list| - 1].uuid == id then 1 else 0
  }

  function TimesBusy(workers: seq<Worker>, id: string): nat {
    if workers == [] then 0
    else TimesBusy(workers[..|workers| - 1], id) + if workers[|workers| - 1].jobId == id then 1 else 0
  }

  /** How often a job occurs, in all lists and with all workers. */
  function Occurrences(p: Pipeline, id: string): nat {
    Times(p.preprocessing.queue.list, id) + Times(p.waitlist.list, id) + Times(p.normal.queue.list, id)
    + Times(p.booked.queue.list, id) + Times(p.postprocessing.queue.list, id) + TimesBusy(p.workers, id)
  }

  lemma {:induction false} TimesListed(list: seq<StorageId>, id: string)
    requires forall i, j :: 0 <= i < j < |list| ==> list[i].uuid != list[j].uuid
    ensures Times(list, id) == if Listed(list, id) then 1 else 0
  {
    if list != [] {
      var front, last := list[..|list| - 1], list[|list| - 1];
      TimesListed(front, id);
      assert list == front + [last] && last in list;
      if Listed(front, id) {
        var i: nat :| i < |front| && front[i].uuid == id;
        assert list[i].uuid != list[|front|].uuid;
        assert list[i] in list;
      }
    }
  }

  lemma {:induction false} TimesAtWork(workers: seq<Worker>, id: string)
    requires forall i, j :: 0 <= i < j < |workers| ==> workers[i].jobId != workers[j].jobId
    ensures TimesBusy(workers, id) == if Busy(workers, id) then 1 else 0
  {
    if workers != [] {
      var front, last := workers[..|workers| - 1], workers[|workers| - 1];
      TimesAtWork(front, id);
      if Busy(front, id) {
        var i := WorkerOf(front, id);
        assert workers[i].jobId == id && workers[i].jobId != workers[|front|].jobId;
      } else if last.jobId == id {
        assert workers[|front|].jobId == id;
      }
    }
  }

  lemma TimesAt(p: Pipeline, now: int, place: Place, id: string)
    requires Inv(p, now)
    ensures Times(At(p, place).list, id) == if Listed(At(p, place).list, id) then 1 else 0
  {
    PlacesHold(p, now, place);
    hide Inv, At;
    var list := At(p, place).list;
    forall i, j | 0 <= i < j < |list|
      ensures list[i].uuid != list[j].uuid
    {
      assert list[i] in list && list[j] in list && list[i] != list[j];
    }
    TimesListed(list, id);
  }

  /** No job is in two places, or twice in one; and the stored stage of a job that
      is in a list tells which list that can be. */
  lemma OneJobOnePlace(run: seq<Timed>, id: string)
    requires ClockRuns(run)
    ensures var p := Reach(run);
            && Occurrences(p, id) <= 1
            && (Occurrences(p, id) == 0 <==> Nowhere(p, id))
            && (forall place :: Listed(At(p, place).list, id) ==> id in p.jobs && p.jobs[id].stage == StageAt(place))
  {
    EveryRun(run);
    InOnePlace(Reach(run), Clock(run), id);
  }

  lemma InOnePlace(p: Pipeline, now: int, id: string)
    requires Inv(p, now)
    ensures Occurrences(p, id) <= 1 && (Occurrences(p, id) == 0 <==> Nowhere(p, id))
    ensures forall place :: Listed(At(p, place).list, id) ==> id in p.jobs && p.jobs[id].stage == StageAt(place)
  {
    assert TimesBusy(p.workers, id) == if Busy(p.workers, id) then 1 else 0 by {
      TimesAtWork(p.workers, id);
    }
    hide Inv, Listed, Busy, Times, TimesBusy;
    forall place
      ensures Times(At(p, place).list, id) == if Listed(At(p, place).list, id) then 1 else 0
      ensures Listed(At(p, place).list, id) ==> id in p.jobs && p.jobs[id].stage == StageAt(place)
      ensures Listed(At(p, place).list, id) ==>
                !Busy(p.workers, id) && forall other :: other != place ==> !Listed(At(p, other).list, id)
    {
      TimesAt(p, now, place, id);
      if Listed(At(p, place).list, id) {
        ListedIsKey(p, now, place, id);
        OnlyThere(p, now, place, id);
      }
    }
    Everywhere(p, id);
  }

  lemma Everywhere(p: Pipeline, id: string)
    requires forall place :: Times(At(p, place).list, id) == if Listed(At(p, place).list, id) then 1 else 0
    ensures Occurrences(p, id) ==
            (if Listed(At(p, PreprocessingQueue).list, id) then 1 else 0) +
            (if Listed(At(p, WaitingList).list, id) then 1 else 0) +
            (if Listed(At(p, NormalQueue).list, id) then 1 else 0) +
            (if Listed(At(p, BookedQueue).list, id) then 1 else 0) +
            (if Listed(At(p, PostprocessingQueue).list, id) then 1 else 0) + TimesBusy(p.workers, id)
    ensures (forall place :: !Listed(At(p, place).list, id)) <==>
            && !Listed(At(p, PreprocessingQueue).list, id) && !Listed(At(p, WaitingList).list, id)
            && !Listed(At(p, NormalQueue).list, id) && !Listed(At(p, BookedQueue).list, id)
            && !Listed(At(p, PostprocessingQueue).list, id)
  {
    hide Listed;
    assert Times(At(p, PreprocessingQueue).list, id) == Times(p.preprocessing.queue.list, id);
    assert Times(At(p, WaitingList).list, id) == Times(p.waitlist.list, id);
    assert Times(At(p, NormalQueue).list, id) == Times(p.normal.queue.list, id);
    assert Times(At(p, BookedQueue).list, id) == Times(p.booked.queue.list, id);
    assert Times(At(p, PostprocessingQueue).list, id) == Times(p.postprocessing.queue.list, id);
    if !Listed(At(p, PreprocessingQueue).list, id) && !Listed(At(p, WaitingList).list, id) &&
       !Listed(At(p, NormalQueue).list, id) && !Listed(At(p, BookedQueue).list, id) &&
       !Listed(At(p, PostprocessingQueue).list, id) {
      forall place
        ensures !Listed(At(p, place).list, id)
      {
        match place
        case PreprocessingQueue =>
        case WaitingList =>
        case NormalQueue =>
        case BookedQueue =>
        case PostprocessingQueue =>
      }
    }
  }

  /** The timestamps of a job, in every reachable state: those of the stages it has
      gone through, each no earlier than the ones before it. */
  lemma TimesAreOrdered(run: seq<Timed>, id: string, a: Label, b: Label)
    requires ClockRuns(run) && id in Reach(run).jobs
    requires var stamps := Reach(run).jobs[id].stamps; a in stamps && b in stamps && a.Rank() <= b.Rank()
    ensures Reach(run).jobs[id].stamps[a] <= Reach(run).jobs[id].stamps[b] <= Clock(run)
  {
    EveryRun(run);
    StoredUnderId(Reach(run).jobs, Clock(run), id);
  }

  // --- tokens ---

  /** No queue that runs jobs has fewer tokens than jobs. */
  ghost predicate Supplied(p: Pipeline) {
    && RunnerProperties.Enough(p.preprocessing) && RunnerProperties.Enough(p.normal)
    && RunnerProperties.Enough(p.booked) && RunnerProperties.Enough(p.postprocessing)
  }

  lemma EnqueueSupplies(r: Runner<Args>, job: QueuedJob, args: Args, id: string, stage: Stage)
    requires RunnerProperties.Enough(r)
    ensures RunnerProperties.Enough(Enqueue(r, job, args, TokenOf(id, stage)))
  {
    RunnerProperties.EnoughStep(r, RunnerProperties.Enqueued(job, args, TokenOf(id, stage)));
  }

  lemma FireSupplies(r: Runner<Args>, at: nat)
    requires RunnerProperties.Enough(r) && at < |r.tokens|
    ensures RunnerProperties.Enough(Fire(r, at))
  {
    RunnerProperties.EnoughStep(r, RunnerProperties.Fired(at));
  }

  lemma CancelSupplies(r: Runner<Args>, id: string, key: StorageId)
    requires RunnerProperties.Enough(r)
    ensures RunnerProperties.Enough(CancelJob(r, id, Some(key)))
  {
    RunnerProperties.EnoughStep(r, RunnerProperties.Cancelled(id, Some(key)));
  }

  lemma AdmitSupplies(p: Pipeline, id: string, now: int)
    requires Supplied(p)
    ensures Supplied(AdmitNormal(p, id, now)) && Supplied(AdmitBooked(p, id, now))
  {
    hide RunnerProperties.Enough, Enqueue, TokenOf;
    if id in p.jobs {
      var job := SetStage(p, id, ExecQ, now).jobs[id].Queued();
      EnqueueSupplies(p.normal, job, None, id, ExecQ);
      EnqueueSupplies(p.booked, job, None, id, ExecQ);
    }
  }

  lemma {:induction false} AdmitAllSupplies(p: Pipeline, items: seq<Item<Args>>, now: int)
    requires Supplied(p)
    ensures Supplied(AdmitAll(p, items, now))
  {
    hide Supplied, AdmitNormal;
    if items != [] {
      AdmitAllSupplies(p, items[..|items| - 1], now);
      AdmitSupplies(AdmitAll(p, items[..|items| - 1], now), items[|items| - 1].job.jobId, now);
    }
  }

  lemma FinishSupplies(p: Pipeline, i: nat, a: Admission, now: int)
    requires Supplied(p)
    ensures Supplied(FinishPreprocessing(p, i, a, now)) && Supplied(FinishExecuting(p, i, now))
  {
    hide RunnerProperties.Enough, Enqueue, TokenOf, AdmitNormal, AdmitBooked;
    if i < |p.workers| {
      var id, q := p.workers[i].jobId, Release(p, i);
      AdmitSupplies(SetEstimate(q, id, a.duration), id, now);
      if id in q.jobs {
        EnqueueSupplies(q.postprocessing, SetStage(q, id, PstProcQ, now).jobs[id].Queued(), None, id, PstProcQ);
      }
    }
  }

  lemma StepSupplies(p: Pipeline, step: Step, now: int)
    requires Supplied(p)
    ensures Supplied(After(p, step, now))
  {
    hide RunnerProperties.Enough, Enqueue, Fire, CancelJob, TokenOf, AdmitNormal, AdmitBooked, AdmitAll,
         FinishPreprocessing, FinishExecuting, Next, PopJob, PopMany;
    match step
    case Submission(id, booking) =>
      EnqueueSupplies(p.preprocessing, NewJob(id).Queued(), booking, id, PreProcQ);
    case PreprocessingStarts(at, readable) =>
      if at < |p.preprocessing.tokens| { FireSupplies(p.preprocessing, at); }
    case PreprocessingEnds(worker, admission) =>
      FinishSupplies(p, worker, admission, now);
    case WaitlistFeedsBooking(usable) =>
      var first := FirstShorter(p.waitlist.list, usable);
      if first.Some? {
        var (rest, item) := PopJob(p.waitlist, first.value);
        if item.Ok? { AdmitSupplies(p.(waitlist := rest), item.value.job.jobId, now); }
      }
    case WaitlistFeedsNormal(usable) =>
      AdmitAllSupplies(p.(waitlist := PopMany(p.waitlist, usable).queue), PopMany(p.waitlist, usable).items, now);
    case NormalStarts(at) =>
      if at < |p.normal.tokens| { FireSupplies(p.normal, at); }
    case BookedStarts(at) =>
      if at < |p.booked.tokens| { FireSupplies(p.booked, at); }
    case ExecutionEnds(worker) =>
      FinishSupplies(p, worker, Admission(0.0, 0.0, None, None, false), now);
    case PostprocessingStarts(at, movable) =>
      if at < |p.postprocessing.tokens| { FireSupplies(p.postprocessing, at); }
    case Cancellation(id) =>
      if id in p.jobs {
        CancelSupplies(p.preprocessing, p.jobs[id].id, StorageId(p.jobs[id].id, 0.0));
        CancelSupplies(p.normal, p.jobs[id].id, p.jobs[id].Key());
        CancelSupplies(p.booked, p.jobs[id].id, p.jobs[id].Key());
        CancelSupplies(p.postprocessing, p.jobs[id].id, p.jobs[id].Key());
      }
    case _ =>
  }

  /** So whatever waits in a queue can always be run. */
  lemma {:induction false} TokensSuffice(run: seq<Timed>)
    ensures Supplied(Reach(run))
  {
    hide After;
    if run != [] {
      TokensSuffice(run[..|run| - 1]);
      StepSupplies(Reach(run[..|run| - 1]), run[|run| - 1].step, run[|run| - 1].now);
    }
  }
}
