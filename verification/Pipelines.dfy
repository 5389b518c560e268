/** The way of a job from its submission to its end, on values.  Every task, and
    every request to cancel, is one or more atomic steps; a worker holds a job from
    one step to the next. */
module Pipelines {
  import opened Wrappers
  import opened Queues
  import opened Runners
  import opened Jobs

  /** The booking in which a job was submitted, if any. */
  type Args = Option<string>

  /** What a worker is doing with a job.  The last two wait for a callback. */
  datatype Task = Preprocessing(booking: Args) | Executing | Postprocessing | Returned | Raised

  datatype Worker = Worker(jobId: string, task: Task)

  datatype Pipeline = Pipeline(
    jobs: map<string, Job>,
    preprocessing: Runner<Args>,
    waitlist: Queue<Args>,
    normal: Runner<Args>,
    booked: Runner<Args>,
    postprocessing: Runner<Args>,
    workers: seq<Worker>)

  function EmptyPipeline(): Pipeline {
    Pipeline(map[], EmptyRunner(), EmptyQueue(), EmptyRunner(), EmptyRunner(), EmptyRunner(), [])
  }

  function StageName(stage: Stage): string {
    match stage
    case RegQ => "REG_Q" case RegW => "REG_W"
    case PreProcQ => "PRE_PROC_Q" case PreProcW => "PRE_PROC_W"
    case ExecQ => "EXEC_Q" case ExecW => "EXEC_W"
    case PstProcQ => "PST_PROC_Q" case PstProcW => "PST_PROC_W"
    case FinalQ => "FINAL_Q" case FinalW => "FINAL_W"
  }

  function TokenOf(jobId: string, stage: Stage): Option<TokenId> {
    Some(Explicit(jobId + "_" + StageName(stage)))
  }

  // --- pieces of steps ---

  /** An update of a job that is not in the store fails. */
  function SetStage(p: Pipeline, id: string, stage: Stage, now: int): Pipeline {
    if id in p.jobs then p.(jobs := p.jobs[id := Moved(p.jobs[id], stage, now)]) else p
  }

  function SetStatus(p: Pipeline, id: string, status: Status): Pipeline {
    if id in p.jobs then p.(jobs := p.jobs[id := p.jobs[id].(status := status)]) else p
  }

  function SetEstimate(p: Pipeline, id: string, duration: Seconds): Pipeline {
    if id in p.jobs then p.(jobs := p.jobs[id := p.jobs[id].(estimated := Some(duration))]) else p
  }

  function Assign(p: Pipeline, id: string, task: Task): Pipeline {
    p.(workers := p.workers + [Worker(id, task)])
  }

  function Release(p: Pipeline, i: nat): Pipeline
    requires i < |p.workers|
  {
    p.(workers := p.workers[..i] + p.workers[i + 1..])
  }

  /** The job a firing token hands to a worker, if the list is not empty. */
  function Handed(r: Runner<Args>): Option<Item<Args>> {
    var next := Next(r.queue).1;
    if next.Ok? then next.value else None
  }

  predicate Works(p: Pipeline, i: nat, task: Task) {
    i < |p.workers| && p.workers[i].task == task
  }

  // --- submission and preprocessing ---

  function NewJob(id: string): Job {
    Job(id, PreProcQ, Pending, None, map[])
  }

  /** A conflict if the id is taken. */
  function Submit(p: Pipeline, id: string, booking: Args): Pipeline {
    if id in p.jobs then p
    else p.(jobs := p.jobs[id := NewJob(id)],
            preprocessing := Enqueue(p.preprocessing, NewJob(id).Queued(), booking, TokenOf(id, PreProcQ)))
  }

  /** A job whose file cannot be read fails before its stage is updated. */
  function StartPreprocessing(p: Pipeline, at: nat, readable: bool, now: int): Pipeline {
    if at >= |p.preprocessing.tokens| then p
    else
      var item, q := Handed(p.preprocessing), p.(preprocessing := Fire(p.preprocessing, at));
      if item.None? || item.value.job.jobId !in p.jobs then q
      else
        var id := item.value.job.jobId;
        if readable then Assign(SetStage(q, id, PreProcW, now), id, Preprocessing(item.value.args))
        else SetStatus(q, id, Failed)
  }

  function FailPreprocessing(p: Pipeline, i: nat): Pipeline {
    if i < |p.workers| && p.workers[i].task.Preprocessing? then
      SetStatus(Release(p, i), p.workers[i].jobId, Failed)
    else
      p
  }

  /** The booking under which the job came: from when to when it lasts, in seconds,
      and whether it belongs to the user of the job. */
  datatype Active = Active(start: int, end: int, owned: bool) {
    function Total(): real {
      (end - start) as real
    }
  }

  /** What is known when a job is to be admitted: how long it takes, how long the
      running job of the queue still does, the time to the next booking, and the
      booking under which the job came. */
  datatype Admission = Admission(duration: Seconds, running: real, next: Option<real>, active: Option<Active>,
                                 force: bool)

  function Waitlist(p: Pipeline, id: string): Pipeline {
    if id in p.jobs then p.(waitlist := Add(p.waitlist, p.jobs[id].Queued(), None)) else p
  }

  function AdmitNormal(p: Pipeline, id: string, now: int): Pipeline {
    if id !in p.jobs then p
    else
      var q := SetStage(p, id, ExecQ, now);
      q.(normal := Enqueue(q.normal, q.jobs[id].Queued(), None, TokenOf(id, ExecQ)))
  }

  function AdmitBooked(p: Pipeline, id: string, now: int): Pipeline {
    if id !in p.jobs then p
    else
      var q := SetStage(p, id, ExecQ, now);
      q.(booked := Enqueue(q.booked, q.jobs[id].Queued(), None, TokenOf(id, ExecQ)))
  }

  predicate TooLongForNormal(p: Pipeline, a: Admission) {
    a.next.Some? && a.duration > a.next.value - (p.normal.queue.total + a.running)
  }

  predicate TooLongForBooking(p: Pipeline, a: Admission) {
    a.active.Some? && a.duration > a.active.value.Total() - (p.booked.queue.total + a.running)
  }

  function TryNormal(p: Pipeline, id: string, a: Admission, now: int): Pipeline {
    if TooLongForNormal(p, a) then Waitlist(p, id) else AdmitNormal(p, id, now)
  }

  function TryBooked(p: Pipeline, id: string, a: Admission, now: int): Pipeline {
    if a.active.None? || !a.active.value.owned || a.force then Waitlist(p, id)
    else if TooLongForBooking(p, a) then SetStatus(p, id, Failed)
    else AdmitBooked(p, id, now)
  }

  function FinishPreprocessing(p: Pipeline, i: nat, a: Admission, now: int): Pipeline {
    if i < |p.workers| && p.workers[i].task.Preprocessing? then
      var id := p.workers[i].jobId;
      var q := SetEstimate(Release(p, i), id, a.duration);
      if p.workers[i].task.booking.None? then TryNormal(q, id, a, now) else TryBooked(q, id, a, now)
    else p
  }

  // --- the waitlist ---

  predicate IsShorter(id: StorageId, usable: Budget) {
    usable.None? || id.duration < usable.value
  }

  function FirstShorter(list: seq<StorageId>, usable: Budget): Option<StorageId> {
    if list == [] then None else if IsShorter(list[0], usable) then Some(list[0]) else FirstShorter(list[1..], usable)
  }

  function WaitlistToBooking(p: Pipeline, usable: Budget, now: int): Pipeline {
    var first := FirstShorter(p.waitlist.list, usable);
    if first.None? then p
    else
      var (rest, item) := PopJob(p.waitlist, first.value);
      var q := p.(waitlist := rest);
      if item.Err? then q else AdmitBooked(q, item.value.job.jobId, now)
  }

  function AdmitAll(p: Pipeline, items: seq<Item<Args>>, now: int): Pipeline {
    if items == [] then p
    else AdmitNormal(AdmitAll(p, items[..|items| - 1], now), items[|items| - 1].job.jobId, now)
  }

  function WaitlistToNormal(p: Pipeline, usable: Budget, now: int): Pipeline {
    var sweep := PopMany(p.waitlist, usable);
    AdmitAll(p.(waitlist := sweep.queue), sweep.items, now)
  }

  // --- execution ---

  function Execute(p: Pipeline, q: Pipeline, item: Option<Item<Args>>, now: int): Pipeline {
    if item.None? || item.value.job.jobId !in p.jobs then q
    else Assign(SetStage(q, item.value.job.jobId, ExecW, now), item.value.job.jobId, Task.Executing)
  }

  function StartNormal(p: Pipeline, at: nat, now: int): Pipeline {
    if at >= |p.normal.tokens| then p
    else Execute(p, p.(normal := Fire(p.normal, at)), Handed(p.normal), now)
  }

  function StartBooked(p: Pipeline, at: nat, now: int): Pipeline {
    if at >= |p.booked.tokens| then p
    else Execute(p, p.(booked := Fire(p.booked, at)), Handed(p.booked), now)
  }

  /** A job cancelled while it ran goes no further. */
  function FinishExecuting(p: Pipeline, i: nat, now: int): Pipeline {
    if !Works(p, i, Task.Executing) then p
    else
      var id, q := p.workers[i].jobId, Release(p, i);
      if id !in p.jobs || p.jobs[id].status == Cancelled then q
      else
        var moved := SetStage(q, id, PstProcQ, now);
        moved.(postprocessing := Enqueue(moved.postprocessing, moved.jobs[id].Queued(), None, TokenOf(id, PstProcQ)))
  }

  function FailExecuting(p: Pipeline, i: nat): Pipeline {
    if Works(p, i, Task.Executing) then SetStatus(Release(p, i), p.workers[i].jobId, Failed) else p
  }

  // --- postprocessing ---

  /** A results file that cannot be moved ends the task before the stage is updated,
      with an error that no callback logs. */
  function StartPostprocessing(p: Pipeline, at: nat, movable: bool, now: int): Pipeline {
    if at >= |p.postprocessing.tokens| then p
    else
      var item, q := Handed(p.postprocessing), p.(postprocessing := Fire(p.postprocessing, at));
      if item.None? || item.value.job.jobId !in p.jobs || !movable then q
      else Assign(SetStage(q, item.value.job.jobId, PstProcW, now), item.value.job.jobId, Postprocessing)
  }

  function SaveResults(p: Pipeline, i: nat): Pipeline {
    if Works(p, i, Postprocessing) then
      var q := SetStatus(p, p.workers[i].jobId, Successful);
      q.(workers := q.workers[i := Worker(p.workers[i].jobId, Returned)])
    else p
  }

  /** The failure may come before the results are saved, or after. */
  function FailPostprocessing(p: Pipeline, i: nat, saved: bool): Pipeline {
    if Works(p, i, Postprocessing) then
      var q := if saved then SetStatus(p, p.workers[i].jobId, Successful) else p;
      q.(workers := q.workers[i := Worker(p.workers[i].jobId, Raised)])
    else p
  }

  /** A results file that cannot be read: again an error that no callback logs. */
  function CrashPostprocessing(p: Pipeline, i: nat): Pipeline {
    if Works(p, i, Postprocessing) then Release(p, i) else p
  }

  /** The success callback. */
  function Succeed(p: Pipeline, i: nat, now: int): Pipeline {
    if !Works(p, i, Returned) then p
    else
      var id := p.workers[i].jobId;
      var q := SetStage(Release(p, i), id, FinalQ, now);
      if id in q.jobs && q.jobs[id].status == Successful then SetStage(q, id, FinalW, now) else q
  }

  /** The failure callback. */
  function LogFailure(p: Pipeline, i: nat): Pipeline {
    if Works(p, i, Raised) then SetStatus(Release(p, i), p.workers[i].jobId, Failed) else p
  }

  // --- cancellation ---

  function CancelInQueues(p: Pipeline, job: Job): Pipeline {
    p.(waitlist := PopJob(p.waitlist, job.Key()).0,
       preprocessing := CancelJob(p.preprocessing, job.id, Some(StorageId(job.id, 0.0))),
       normal := CancelJob(p.normal, job.id, Some(job.Key())),
       booked := CancelJob(p.booked, job.id, Some(job.Key())),
       postprocessing := CancelJob(p.postprocessing, job.id, Some(job.Key())))
  }

  function Cancel(p: Pipeline, id: string): Pipeline {
    if id in p.jobs then SetStatus(CancelInQueues(p, p.jobs[id]), id, Cancelled) else p
  }

  // --- runs ---

  datatype Step =
    | Submission(id: string, booking: Args)
    | PreprocessingStarts(at: nat, readable: bool)
    | PreprocessingFails(worker: nat)
    | PreprocessingEnds(worker: nat, admission: Admission)
    | WaitlistFeedsBooking(usable: Budget)
    | WaitlistFeedsNormal(usable: Budget)
    | NormalStarts(at: nat)
    | BookedStarts(at: nat)
    | ExecutionFails(worker: nat)
    | ExecutionEnds(worker: nat)
    | PostprocessingStarts(at: nat, movable: bool)
    | PostprocessingFails(worker: nat, saved: bool)
    | PostprocessingCrashes(worker: nat)
    | ResultsSaved(worker: nat)
    | SuccessCallback(worker: nat)
    | FailureCallback(worker: nat)
    | Cancellation(id: string)

  function After(p: Pipeline, step: Step, now: int): Pipeline {
    match step
    case Submission(id, booking) => Submit(p, id, booking)
    case PreprocessingStarts(at, readable) => StartPreprocessing(p, at, readable, now)
    case PreprocessingFails(worker) => FailPreprocessing(p, worker)
    case PreprocessingEnds(worker, admission) => FinishPreprocessing(p, worker, admission, now)
    case WaitlistFeedsBooking(usable) => WaitlistToBooking(p, usable, now)
    case WaitlistFeedsNormal(usable) => WaitlistToNormal(p, usable, now)
    case NormalStarts(at) => StartNormal(p, at, now)
    case BookedStarts(at) => StartBooked(p, at, now)
    case ExecutionFails(worker) => FailExecuting(p, worker)
    case ExecutionEnds(worker) => FinishExecuting(p, worker, now)
    case PostprocessingStarts(at, movable) => StartPostprocessing(p, at, movable, now)
    case PostprocessingFails(worker, saved) => FailPostprocessing(p, worker, saved)
    case PostprocessingCrashes(worker) => CrashPostprocessing(p, worker)
    case ResultsSaved(worker) => SaveResults(p, worker)
    case SuccessCallback(worker) => Succeed(p, worker, now)
    case FailureCallback(worker) => LogFailure(p, worker)
    case Cancellation(id) => Cancel(p, id)
  }

  /** A step, and the time at which it is taken. */
  datatype Timed = Timed(step: Step, now: int)

  function Reach(run: seq<Timed>): Pipeline {
    if run == [] then EmptyPipeline() else After(Reach(run[..|run| - 1]), run[|run| - 1].step, run[|run| - 1].now)
  }

  /** The clock never goes back. */
  ghost predicate ClockRuns(run: seq<Timed>) {
    forall i, j :: 0 <= i < j < |run| ==> run[i].now <= run[j].now
  }
}
