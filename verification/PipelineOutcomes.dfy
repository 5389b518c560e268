/** How jobs end: with the status that was written last, and by what. */
module PipelineOutcomes {
  import opened Wrappers
  import opened Queues
  import opened Runners
  import opened Jobs
  import opened Pipelines
  import opened PipelineStates
  import opened PipelineSteps
  import opened PipelineProperties
  import PipelineActions
  import PipelineWitnesses

  // --- what is said of a job ---

  /** The worker does so with the job. */
  predicate Does(p: Pipeline, i: nat, id: string, task: Task) {
    i < |p.workers| && p.workers[i] == Worker(id, task)
  }

  predicate Prepares(p: Pipeline, i: nat, id: string) {
    i < |p.workers| && p.workers[i].jobId == id && p.workers[i].task.Preprocessing?
  }

  /** The job is its booker's, in the booking, and longer than what is left of the
      whole of it beside the jobs that are queued and running. */
  predicate IsRejected(p: Pipeline, booking: Args, a: Admission) {
    && booking.Some? && a.active.Some? && a.active.value.owned && !a.force
    && p.booked.queue.total + a.running + a.duration > (a.active.value.end - a.active.value.start) as real
  }

  /** The status a step gives to a job outright, if it does. */
  function Word(p: Pipeline, step: Step, id: string): Option<Status> {
    match step
    case Cancellation(other) => if other == id && id in p.jobs then Some(Cancelled) else None
    case ResultsSaved(i) => if Does(p, i, id, Postprocessing) then Some(Successful) else None
    case PostprocessingFails(i, saved) => if saved && Does(p, i, id, Postprocessing) then Some(Successful) else None
    case FailureCallback(i) => if Does(p, i, id, Raised) then Some(Failed) else None
    case ExecutionFails(i) => if Does(p, i, id, Task.Executing) then Some(Failed) else None
    case PreprocessingFails(i) => if Prepares(p, i, id) then Some(Failed) else None
    case PreprocessingEnds(i, a) =>
      if Prepares(p, i, id) && IsRejected(p, p.workers[i].task.booking, a) then Some(Failed) else None
    case PreprocessingStarts(at, readable) =>
      var list := p.preprocessing.queue.list;
      if !readable && at < |p.preprocessing.tokens| && list != [] && list[0].uuid == id then Some(Failed) else None
    case _ => None
  }

  /** The last that was said of a job over a run. */
  function LastWord(run: seq<Timed>, id: string): Option<Status> {
    if run == [] then None
    else
      var front, last := run[..|run| - 1], run[|run| - 1];
      var word := Word(Reach(front), last.step, id);
      if word.Some? then word else LastWord(front, id)
  }

  /** A success callback has come for the job when it was successful. */
  ghost predicate CalledBack(run: seq<Timed>, id: string) {
    run != [] &&
    var front, last := run[..|run| - 1], run[|run| - 1];
    || CalledBack(front, id)
    || (last.step.SuccessCallback? && Does(Reach(front), last.step.worker, id, Returned) &&
        LastWord(front, id) == Some(Successful))
  }

  // --- changes that say nothing ---

  /** A job that has ended stays as it has ended; one that has not, has not. */
  ghost predicate Unsaid(jobs: map<string, Job>, jobs': map<string, Job>, id: string) {
    id in jobs' ==>
      if id in jobs then
        && (jobs[id].status.IsTerminal() ==> jobs'[id].status == jobs[id].status)
        && (jobs'[id].status.IsTerminal() ==> jobs[id].status.IsTerminal())
        && (jobs'[id].stage == FinalW ==> jobs[id].stage == FinalW)
      else
        !jobs'[id].status.IsTerminal() && jobs'[id].stage != FinalW
  }

  lemma UnsaidChain(a: map<string, Job>, b: map<string, Job>, c: map<string, Job>, id: string)
    requires Unsaid(a, b, id) && Unsaid(b, c, id) && (id in a ==> id in b)
    ensures Unsaid(a, c, id)
  {
  }

  lemma StageSaysNothing(p: Pipeline, other: string, stage: Stage, now: int, id: string)
    requires stage != FinalW
    ensures Unsaid(p.jobs, SetStage(p, other, stage, now).jobs, id)
    ensures SetStage(p, other, stage, now).jobs.Keys == p.jobs.Keys
    ensures other in p.jobs ==> SetStage(p, other, stage, now).jobs[other].stage == stage
  {
    hide WithUpdates;
  }

  lemma StatusIsWord(p: Pipeline, other: string, status: Status, id: string)
    ensures var jobs := SetStatus(p, other, status).jobs;
            && jobs.Keys == p.jobs.Keys
            && (id in p.jobs && id != other ==> jobs[id] == p.jobs[id])
            && (other in p.jobs ==> jobs[other].status == status && jobs[other].stage == p.jobs[other].stage)
  {
  }

  lemma EstimateSaysNothing(p: Pipeline, other: string, duration: Seconds, id: string)
    ensures Unsaid(p.jobs, SetEstimate(p, other, duration).jobs, id)
    ensures SetEstimate(p, other, duration).jobs.Keys == p.jobs.Keys
    ensures SetEstimate(p, other, duration).booked == p.booked
  {
  }

  lemma AdmittingSaysNothing(p: Pipeline, other: string, now: int, id: string)
    ensures Unsaid(p.jobs, AdmitNormal(p, other, now).jobs, id) && AdmitNormal(p, other, now).jobs.Keys == p.jobs.Keys
    ensures Unsaid(p.jobs, AdmitBooked(p, other, now).jobs, id) && AdmitBooked(p, other, now).jobs.Keys == p.jobs.Keys
    ensures Waitlist(p, other).jobs == p.jobs
  {
    hide SetStage, Enqueue, Add, Unsaid;
    StageSaysNothing(p, other, ExecQ, now, id);
    NothingSaid(p.jobs, id);
  }

  lemma NothingSaid(jobs: map<string, Job>, id: string)
    ensures Unsaid(jobs, jobs, id)
  {
  }

  lemma {:induction false} AdmittingAllSaysNothing(p: Pipeline, items: seq<Item<Args>>, now: int, id: string)
    ensures Unsaid(p.jobs, AdmitAll(p, items, now).jobs, id) && AdmitAll(p, items, now).jobs.Keys == p.jobs.Keys
  {
    hide Unsaid, AdmitNormal;
    if items == [] {
      NothingSaid(p.jobs, id);
    } else {
      var front := AdmitAll(p, items[..|items| - 1], now);
      AdmittingAllSaysNothing(p, items[..|items| - 1], now, id);
      AdmittingSaysNothing(front, items[|items| - 1].job.jobId, now, id);
      UnsaidChain(p.jobs, front.jobs, AdmitNormal(front, items[|items| - 1].job.jobId, now).jobs, id);
    }
  }

  // --- what a step says ---

  /** A step does to the status of a job what it says, if it says anything. */
  ghost predicate AsSaid(p: Pipeline, q: Pipeline, word: Option<Status>, id: string) {
    if word.None? then Unsaid(p.jobs, q.jobs, id)
    else
      && id in p.jobs && id in q.jobs && q.jobs[id].status == word.value
      && (q.jobs[id].stage == FinalW ==> p.jobs[id].stage == FinalW)
  }

  lemma ReleaseKeeps(p: Pipeline, i: nat)
    requires i < |p.workers|
    ensures Release(p, i).jobs == p.jobs && Release(p, i).booked == p.booked
  {
  }

  /** A worker's job gets a status, or nothing changes but places. */
  lemma StatusSaid(p: Pipeline, q: Pipeline, other: string, status: Status, id: string)
    requires q.jobs == SetStatus(p, other, status).jobs && other in p.jobs
    ensures AsSaid(p, q, if other == id then Some(status) else None, id)
  {
    StatusIsWord(p, other, status, id);
  }

  lemma WorkerIsStored(p: Pipeline, now: int, i: nat)
    requires Inv(p, now) && i < |p.workers|
    ensures p.workers[i].jobId in p.jobs
  {
    BusyIsAtWork(p, now, i);
  }

  lemma FailingSays(p: Pipeline, step: Step, now: int, id: string)
    requires Inv(p, now)
    requires step.PreprocessingFails? || step.ExecutionFails? || step.FailureCallback?
    ensures AsSaid(p, After(p, step, now), Word(p, step, id), id)
  {
    hide Inv, AsSaid, SetStatus, Unsaid;
    NothingSaid(p.jobs, id);
    SaidNothing(p, p, id);
    if step.worker < |p.workers| {
      var other := p.workers[step.worker].jobId;
      WorkerIsStored(p, now, step.worker);
      ReleaseKeeps(p, step.worker);
      SameStatusSet(Release(p, step.worker), p, other, Failed);
      StatusSaid(p, SetStatus(Release(p, step.worker), other, Failed), other, Failed, id);
    }
  }

  lemma SaidNothing(p: Pipeline, q: Pipeline, id: string)
    ensures Unsaid(p.jobs, q.jobs, id) <==> AsSaid(p, q, None, id)
  {
  }

  lemma SameStatusSet(p: Pipeline, q: Pipeline, other: string, status: Status)
    requires p.jobs == q.jobs
    ensures SetStatus(p, other, status).jobs == SetStatus(q, other, status).jobs
  {
  }

  lemma ResultsSay(p: Pipeline, step: Step, now: int, id: string)
    requires Inv(p, now)
    requires step.ResultsSaved? || step.PostprocessingFails? || step.PostprocessingCrashes?
    ensures AsSaid(p, After(p, step, now), Word(p, step, id), id)
  {
    hide Inv, AsSaid, SetStatus, Unsaid;
    NothingSaid(p.jobs, id);
    SaidNothing(p, p, id);
    var q := After(p, step, now);
    SaidNothing(p, q, id);
    if Works(p, step.worker, Postprocessing) {
      var other := p.workers[step.worker].jobId;
      WorkerIsStored(p, now, step.worker);
      if step.ResultsSaved? || (step.PostprocessingFails? && step.saved) {
        StatusSaid(p, q, other, Successful, id);
      }
    }
  }

  lemma CancellationSays(p: Pipeline, step: Step, now: int, id: string)
    requires step.Cancellation?
    ensures AsSaid(p, After(p, step, now), Word(p, step, id), id)
  {
    hide AsSaid, SetStatus, Unsaid, PopJob, CancelJob;
    NothingSaid(p.jobs, id);
    SaidNothing(p, p, id);
    if step.id in p.jobs {
      SameStatusSet(CancelInQueues(p, p.jobs[step.id]), p, step.id, Cancelled);
      StatusSaid(p, After(p, step, now), step.id, Cancelled, id);
    }
  }

  lemma SubmissionSays(p: Pipeline, step: Step, now: int, id: string)
    requires step.Submission?
    ensures AsSaid(p, After(p, step, now), Word(p, step, id), id)
  {
    hide Enqueue;
  }

  lemma HandedIsHead(p: Pipeline, now: int)
    requires Inv(p, now)
    ensures var list, item := p.preprocessing.queue.list, Handed(p.preprocessing);
            if list == [] then item.None?
            else item.Some? && item.value.job.jobId == list[0].uuid && list[0].uuid in p.jobs
  {
    hide Store, Workforce, Listed, Busy;
    var q := At(p, PreprocessingQueue);
    assert InPlace(p.jobs, q, StageAt(PreprocessingQueue));
    if q.list != [] {
      assert q.list[0] in q.list;
      assert q.jobs[q.list[0]].Key() == q.list[0];
    }
  }

  lemma PreprocessingSays(p: Pipeline, step: Step, now: int, id: string)
    requires Inv(p, now) && step.PreprocessingStarts?
    ensures AsSaid(p, After(p, step, now), Word(p, step, id), id)
  {
    hide Inv, AsSaid, SetStatus, SetStage, Unsaid, Handed, Fire;
    NothingSaid(p.jobs, id);
    HandedIsHead(p, now);
    var q := After(p, step, now);
    SaidNothing(p, q, id);
    if step.at < |p.preprocessing.tokens| && p.preprocessing.queue.list != [] {
      var other, fired := p.preprocessing.queue.list[0].uuid, p.(preprocessing := Fire(p.preprocessing, step.at));
      if step.readable {
        StageSaysNothing(fired, other, PreProcW, now, id);
      } else {
        SameStatusSet(fired, p, other, Failed);
        StatusSaid(p, q, other, Failed, id);
      }
    }
  }

  lemma PreparedSays(p: Pipeline, step: Step, now: int, id: string)
    requires Inv(p, now) && step.PreprocessingEnds?
    ensures AsSaid(p, After(p, step, now), Word(p, step, id), id)
  {
    hide Inv, AsSaid, SetStatus, Unsaid, SetEstimate, AdmitNormal, AdmitBooked, Waitlist;
    NothingSaid(p.jobs, id);
    var q, i, a := After(p, step, now), step.worker, step.admission;
    SaidNothing(p, q, id);
    if i < |p.workers| && p.workers[i].task.Preprocessing? {
      var other := p.workers[i].jobId;
      WorkerIsStored(p, now, i);
      ReleaseKeeps(p, i);
      var estimated := SetEstimate(Release(p, i), other, a.duration);
      EstimateSaysNothing(Release(p, i), other, a.duration, id);
      EstimateSaysNothing(Release(p, i), other, a.duration, other);
      AdmittingSaysNothing(estimated, other, now, id);
      UnsaidChain(p.jobs, estimated.jobs, AdmitNormal(estimated, other, now).jobs, id);
      UnsaidChain(p.jobs, estimated.jobs, AdmitBooked(estimated, other, now).jobs, id);
      RejectionSays(p, estimated, other, id);
    }
  }

  lemma RejectionSays(p: Pipeline, q: Pipeline, other: string, id: string)
    requires other in p.jobs && q.jobs.Keys == p.jobs.Keys
    requires Unsaid(p.jobs, q.jobs, id) && Unsaid(p.jobs, q.jobs, other)
    ensures AsSaid(p, SetStatus(q, other, Failed), if other == id then Some(Failed) else None, id)
  {
    StatusIsWord(q, other, Failed, id);
  }

  lemma MovingSays(p: Pipeline, step: Step, now: int, id: string)
    requires step.WaitlistFeedsBooking? || step.WaitlistFeedsNormal? || step.NormalStarts? || step.BookedStarts? ||
             step.ExecutionEnds? || step.PostprocessingStarts?
    ensures AsSaid(p, After(p, step, now), Word(p, step, id), id)
  {
    hide AsSaid, SetStage, Unsaid, AdmitBooked, AdmitAll, Enqueue, Handed, Fire, PopJob, PopMany, FirstShorter;
    NothingSaid(p.jobs, id);
    var q := After(p, step, now);
    SaidNothing(p, q, id);
    match step
    case WaitlistFeedsBooking(usable) =>
      var first := FirstShorter(p.waitlist.list, usable);
      if first.Some? {
        var (rest, item) := PopJob(p.waitlist, first.value);
        if item.Ok? {
          AdmittingSaysNothing(p.(waitlist := rest), item.value.job.jobId, now, id);
        }
      }
    case WaitlistFeedsNormal(usable) =>
      var sweep := PopMany(p.waitlist, usable);
      AdmittingAllSaysNothing(p.(waitlist := sweep.queue), sweep.items, now, id);
    case NormalStarts(at) =>
      if at < |p.normal.tokens| {
        ExecutingSaysNothing(p, p.(normal := Fire(p.normal, at)), Handed(p.normal), now, id);
      }
    case BookedStarts(at) =>
      if at < |p.booked.tokens| {
        ExecutingSaysNothing(p, p.(booked := Fire(p.booked, at)), Handed(p.booked), now, id);
      }
    case ExecutionEnds(i) =>
      if Works(p, i, Task.Executing) {
        ReleaseKeeps(p, i);
        StageSaysNothing(Release(p, i), p.workers[i].jobId, PstProcQ, now, id);
      }
    case PostprocessingStarts(at, movable) =>
      if at < |p.postprocessing.tokens| && Handed(p.postprocessing).Some? {
        StageSaysNothing(p.(postprocessing := Fire(p.postprocessing, at)),
                         Handed(p.postprocessing).value.job.jobId, PstProcW, now, id);
      }
  }

  lemma ExecutingSaysNothing(p: Pipeline, q: Pipeline, item: Option<Item<Args>>, now: int, id: string)
    requires q.jobs == p.jobs
    ensures Unsaid(p.jobs, Execute(p, q, item, now).jobs, id)
  {
    hide SetStage, Unsaid;
    NothingSaid(p.jobs, id);
    if item.Some? {
      StageSaysNothing(q, item.value.job.jobId, ExecW, now, id);
    }
  }

  /** Every step but the success callback does to the status of a job what it says. */
  lemma StepSays(p: Pipeline, step: Step, now: int, id: string)
    requires Inv(p, now) && !step.SuccessCallback?
    ensures AsSaid(p, After(p, step, now), Word(p, step, id), id)
  {
    hide Inv, AsSaid, After, Word;
    match step
    case Submission(_, _) => SubmissionSays(p, step, now, id);
    case PreprocessingStarts(_, _) => PreprocessingSays(p, step, now, id);
    case PreprocessingEnds(_, _) => PreparedSays(p, step, now, id);
    case PreprocessingFails(_) => FailingSays(p, step, now, id);
    case ExecutionFails(_) => FailingSays(p, step, now, id);
    case FailureCallback(_) => FailingSays(p, step, now, id);
    case ResultsSaved(_) => ResultsSay(p, step, now, id);
    case PostprocessingFails(_, _) => ResultsSay(p, step, now, id);
    case PostprocessingCrashes(_) => ResultsSay(p, step, now, id);
    case Cancellation(_) => CancellationSays(p, step, now, id);
    case _ => MovingSays(p, step, now, id);
  }

  /** The success callback says nothing, and ends the way of a successful job. */
  lemma CallbackSays(p: Pipeline, i: nat, now: int, id: string)
    requires Inv(p, now) && id in p.jobs
    ensures var q := After(p, SuccessCallback(i), now);
            && id in q.jobs && q.jobs[id].status == p.jobs[id].status
            && (q.jobs[id].stage == FinalW <==>
                p.jobs[id].stage == FinalW || (Does(p, i, id, Returned) && p.jobs[id].status == Successful))
  {
    hide Inv, WithUpdates, Store;
    if Works(p, i, Returned) {
      WorkerEnded(p, now, i);
    }
  }

  lemma WorkerEnded(p: Pipeline, now: int, i: nat)
    requires Inv(p, now) && Works(p, i, Returned)
    ensures var id := p.workers[i].jobId;
            id in p.jobs && p.jobs[id].status.IsTerminal() && p.jobs[id].stage == PstProcW
  {
    BusyIsAtWork(p, now, i);
  }

  // --- over runs ---

  /** The status of a job that nothing has been said of, by its stage. */
  ghost predicate IsUnderWay(job: Job) {
    job.status == if job.stage == PreProcQ || job.stage == ExecQ then Pending else Status.Executing
  }

  lemma WordIsTerminal(p: Pipeline, step: Step, id: string)
    ensures Word(p, step, id).Some? ==> Word(p, step, id).value.IsTerminal()
  {
  }

  lemma AliveIsUnderWay(p: Pipeline, now: int, id: string)
    requires Inv(p, now) && id in p.jobs && !p.jobs[id].status.IsTerminal()
    ensures IsUnderWay(p.jobs[id])
  {
    assert JobOk(p.jobs[id], now);
  }

  lemma LastStageIsKept(job: Job, job': Job)
    requires Evolves(job, job') && job.stage == FinalW
    ensures job'.stage == FinalW
  {
  }

  /** Nothing is said of a job that has not been submitted. */
  lemma {:induction false} NotYetSaid(run: seq<Timed>, id: string)
    requires ClockRuns(run) && id !in Reach(run).jobs
    ensures LastWord(run, id).None? && !CalledBack(run, id)
  {
    if run != [] {
      hide Inv, After, Word, Unsaid;
      var front, last := run[..|run| - 1], run[|run| - 1];
      var p := Reach(front);
      StateBefore(run);
      if id in p.jobs {
        EveryJobEvolves(p, last.step, last.now, id);
      }
      NotYetSaid(front, id);
      if last.step.SuccessCallback? {
        if last.step.worker < |p.workers| {
          WorkerIsStored(p, last.now, last.step.worker);
        }
        CallbackIsNoWord(p, last.step, id);
      } else {
        StepSays(p, last.step, last.now, id);
      }
    }
  }

  lemma CallbackIsNoWord(p: Pipeline, step: Step, id: string)
    requires step.SuccessCallback?
    ensures Word(p, step, id).None?
  {
  }

  /** What holds of a job after a run. */
  ghost predicate Told(job: Job, word: Option<Status>, calledBack: bool) {
    && (word.Some? ==> job.status == word.value && job.status.IsTerminal())
    && (word.None? ==> IsUnderWay(job))
    && (job.stage == FinalW <==> calledBack)
  }

  /** A job has the status that was written last, by whichever step: cancelled by a
      cancellation, successful by saved results, failed by an error.  If none was,
      it is under way.  And it is in its last stage exactly if the success callback
      came when it was successful. */
  lemma {:induction false} StatusIsLastWord(run: seq<Timed>, id: string)
    requires ClockRuns(run) && id in Reach(run).jobs
    ensures Told(Reach(run).jobs[id], LastWord(run, id), CalledBack(run, id))
  {
    if run != [] {
      hide Inv, After, Word, Told;
      var front, last := run[..|run| - 1], run[|run| - 1];
      StateBefore(run);
      EveryRun(run);
      var p := Reach(front);
      if id in p.jobs {
        StatusIsLastWord(front, id);
        EveryJobEvolves(p, last.step, last.now, id);
        if last.step.SuccessCallback? {
          ToldByCallback(p, last.step, last.now, id, LastWord(front, id), CalledBack(front, id));
        } else {
          ToldByStep(p, last.step, last.now, id, LastWord(front, id), CalledBack(front, id));
        }
      } else {
        NotYetSaid(front, id);
        ToldAtFirst(p, last.step, last.now, id);
      }
    }
  }

  lemma ToldByStep(p: Pipeline, step: Step, now: int, id: string, word: Option<Status>, calledBack: bool)
    requires Inv(p, now) && id in p.jobs && !step.SuccessCallback? && Told(p.jobs[id], word, calledBack)
    ensures id in After(p, step, now).jobs
    ensures var said := Word(p, step, id);
            Told(After(p, step, now).jobs[id], if said.Some? then said else word, calledBack)
  {
    hide Inv, After, Word, Evolves;
    StepSays(p, step, now, id);
    WordIsTerminal(p, step, id);
    EveryJobEvolves(p, step, now, id);
    HandledIsFine(p, step, now);
    var q := After(p, step, now);
    if p.jobs[id].stage == FinalW {
      LastStageIsKept(p.jobs[id], q.jobs[id]);
    }
    if !q.jobs[id].status.IsTerminal() {
      AliveIsUnderWay(q, now, id);
    }
  }

  lemma ToldByCallback(p: Pipeline, step: Step, now: int, id: string, word: Option<Status>, calledBack: bool)
    requires Inv(p, now) && id in p.jobs && step.SuccessCallback? && Told(p.jobs[id], word, calledBack)
    ensures id in After(p, step, now).jobs && Word(p, step, id).None?
    ensures Told(After(p, step, now).jobs[id], word,
                 calledBack || (Does(p, step.worker, id, Returned) && word == Some(Successful)))
  {
    hide Inv, After, Word;
    CallbackIsNoWord(p, step, id);
    CallbackSays(p, step.worker, now, id);
    HandledIsFine(p, step, now);
    var q := After(p, step, now);
    if !q.jobs[id].status.IsTerminal() {
      AliveIsUnderWay(q, now, id);
    }
  }

  lemma ToldAtFirst(p: Pipeline, step: Step, now: int, id: string)
    requires Inv(p, now) && id !in p.jobs && id in After(p, step, now).jobs
    ensures Word(p, step, id).None? && Told(After(p, step, now).jobs[id], None, false)
    ensures step.SuccessCallback? ==> !Does(p, step.worker, id, Returned)
  {
    hide Inv, After, Word;
    HandledIsFine(p, step, now);
    if step.SuccessCallback? {
      CallbackIsNoWord(p, step, id);
      CallbackAddsNothing(p, step, now);
      assert false;
    } else {
      StepSays(p, step, now, id);
      AliveIsUnderWay(After(p, step, now), now, id);
    }
  }

  lemma CallbackAddsNothing(p: Pipeline, step: Step, now: int)
    requires step.SuccessCallback?
    ensures After(p, step, now).jobs.Keys == p.jobs.Keys
  {
    hide WithUpdates;
  }

  /** Which end a job comes to: exactly that which was said of it last. */
  lemma EndsExactly(run: seq<Timed>, id: string)
    requires ClockRuns(run) && id in Reach(run).jobs
    ensures var status, word := Reach(run).jobs[id].status, LastWord(run, id);
            && (status == Successful <==> word == Some(Successful))
            && (status == Failed <==> word == Some(Failed))
            && (status == Cancelled <==> word == Some(Cancelled))
            && (status == Pending || status == Status.Executing <==> word == None)
  {
    hide LastWord, CalledBack, Reach;
    StatusIsLastWord(run, id);
  }

  /** The way of a success.  Once its results are saved, a job is successful; and if
      nothing more is said of it, its success callback takes it to the last stage. */
  lemma SavedIsSuccessful(run: seq<Timed>, i: nat, id: string, at: int)
    requires ClockRuns(run + [Timed(ResultsSaved(i), at)]) && Does(Reach(run), i, id, Postprocessing)
    ensures var p := Reach(run + [Timed(ResultsSaved(i), at)]);
            && id in p.jobs && p.jobs[id].status == Successful && Does(p, i, id, Returned)
    ensures LastWord(run + [Timed(ResultsSaved(i), at)], id) == Some(Successful)
  {
    hide Inv, After;
    var all := run + [Timed(ResultsSaved(i), at)];
    assert all[..|run|] == run;
    StateBefore(all);
    WorkerIsStored(Reach(run), at, i);
    SavingMeans(Reach(run), i, id, at);
  }

  lemma SavingMeans(p: Pipeline, i: nat, id: string, at: int)
    requires Does(p, i, id, Postprocessing) && id in p.jobs
    ensures var q := After(p, ResultsSaved(i), at);
            && id in q.jobs && q.jobs[id].status == Successful && Does(q, i, id, Returned)
  {
  }

  lemma SuccessIsFinal(run: seq<Timed>, i: nat, id: string, now: int)
    requires ClockRuns(run + [Timed(SuccessCallback(i), now)])
    requires Does(Reach(run), i, id, Returned) && LastWord(run, id) == Some(Successful)
    ensures var p := Reach(run + [Timed(SuccessCallback(i), now)]);
            id in p.jobs && p.jobs[id].status == Successful && p.jobs[id].stage == FinalW
  {
    hide Inv, After, LastWord;
    var all := run + [Timed(SuccessCallback(i), now)];
    assert all[..|run|] == run;
    StateBefore(all);
    WorkerIsStored(Reach(run), now, i);
    ClockRanBefore(run, Timed(SuccessCallback(i), now));
    StatusIsLastWord(run, id);
    CallbackSays(Reach(run), i, now, id);
  }

  lemma ClockRanBefore(run: seq<Timed>, last: Timed)
    requires ClockRuns(run + [last])
    ensures ClockRuns(run)
  {
    var all := run + [last];
    assert forall i :: 0 <= i < |run| ==> all[i] == run[i];
  }

  /** And there is such a way: a job of any length is submitted, prepared, executed, its
      results are saved, and it is in its last stage, successful, and nowhere. */
  lemma JobSucceeds(id: string, duration: Seconds, at: int) returns (run: seq<Timed>)
    ensures ClockRuns(run) && id in Reach(run).jobs
    ensures var job := Reach(run).jobs[id];
            job.stage == FinalW && job.status == Successful && Nowhere(Reach(run), id)
  {
    hide Reach, Inv, After, Nowhere, LastWord;
    run := Processed(id, duration, at);
    PipelineWitnesses.AtOnceRuns(run + [Timed(ResultsSaved(0), at)], at);
    SavedIsSuccessful(run, 0, id, at);
    run := run + [Timed(ResultsSaved(0), at)];
    EveryRun(run);
    PipelineWitnesses.AtOnceRuns(run + [Timed(SuccessCallback(0), at)], at);
    SuccessIsFinal(run, 0, id, at);
    PipelineWitnesses.ReachOneMore(run, SuccessCallback(0), at);
    CalledBackIsNowhere(Reach(run), at, 0, id);
    run := run + [Timed(SuccessCallback(0), at)];
  }

  lemma CalledBackIsNowhere(p: Pipeline, now: int, i: nat, id: string)
    requires Inv(p, now) && Does(p, i, id, Returned)
    ensures Nowhere(After(p, SuccessCallback(i), now), id)
  {
    hide Inv, Nowhere, Succeed, Effect, Kept;
    Succeeding(p, now, i);
  }

  /** Submitted, prepared and executed, a job is with a worker that processes its
      results. */
  lemma Processed(id: string, duration: Seconds, at: int) returns (run: seq<Timed>)
    ensures PipelineWitnesses.AtOnce(run, at) && Does(Reach(run), 0, id, Postprocessing)
  {
    hide Reach, Inv, After, PipelineWitnesses.Waits;
    run := PipelineWitnesses.OnWorker(id, duration, at);
    var p, key := Reach(run), StorageId(id, duration);
    PipelineWitnesses.AtOnceRuns(run, at);
    EveryRun(run);
    PipelineWitnesses.ExecutionFinished(p, id, at);
    PipelineActions.WorkerIsFree(p, ExecutionEnds(0), at);
    PipelineWitnesses.ReachOneMore(run, ExecutionEnds(0), at);
    AfterExecution(p, at);
    run := run + [Timed(ExecutionEnds(0), at)];
    var q := Reach(run);
    PipelineWitnesses.AtOnceRuns(run, at);
    EveryRun(run);
    PipelineWitnesses.HasToken(q.postprocessing, key, None);
    PipelineWitnesses.WaitsAlone(q.postprocessing, key);
    PipelineActions.PostprocessingStartMeans(q, at, 0, true);
    PipelineWitnesses.ReachOneMore(run, PostprocessingStarts(0, true), at);
    AfterPostprocessingStart(q, at);
    run := run + [Timed(PostprocessingStarts(0, true), at)];
  }

  lemma AfterExecution(p: Pipeline, now: int)
    ensures After(p, ExecutionEnds(0), now) == FinishExecuting(p, 0, now)
  {
  }

  lemma AfterPostprocessingStart(p: Pipeline, now: int)
    ensures After(p, PostprocessingStarts(0, true), now) == StartPostprocessing(p, 0, true, now)
  {
  }
}
