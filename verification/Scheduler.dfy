/** The tasks of the scheduler as they run: store and queues changed one after the
    other, in place, proved against `Pipelines`. */
module Scheduler {
  import opened Wrappers
  import opened Prefixes
  import opened Queues
  import opened StaticQueues
  import opened Runners
  import opened RunnerQueues
  import opened Jobs
  import opened Pipelines

  class QueuePool {
    const preprocessing: RunnerQueue<Args>
    const waitlist: StaticQueue<Args>
    const normal: RunnerQueue<Args>
    const booked: RunnerQueue<Args>
    const postprocessing: RunnerQueue<Args>
    var jobs: map<string, Job>
    var workers: seq<Worker>

    /** The queues do not share anything. */
    ghost predicate Apart() {
      && preprocessing != normal && preprocessing != booked && preprocessing != postprocessing
      && normal != booked && normal != postprocessing && booked != postprocessing
      && preprocessing.queue != normal.queue && preprocessing.queue != booked.queue
      && preprocessing.queue != postprocessing.queue && normal.queue != booked.queue
      && normal.queue != postprocessing.queue && booked.queue != postprocessing.queue
      && waitlist != preprocessing.queue && waitlist != normal.queue && waitlist != booked.queue
      && waitlist != postprocessing.queue
    }

    function State(): Pipeline
      reads this, preprocessing, waitlist, normal, booked, postprocessing
      reads preprocessing.queue, normal.queue, booked.queue, postprocessing.queue
    {
      Pipeline(jobs, preprocessing.State(), waitlist.State(), normal.State(), booked.State(),
               postprocessing.State(), workers)
    }

    constructor ()
      ensures Apart() && State() == EmptyPipeline()
      ensures fresh(preprocessing) && fresh(waitlist) && fresh(normal) && fresh(booked) && fresh(postprocessing)
      ensures fresh(preprocessing.queue) && fresh(normal.queue) && fresh(booked.queue) && fresh(postprocessing.queue)
    {
      preprocessing := new RunnerQueue();
      waitlist := new StaticQueue();
      normal := new RunnerQueue();
      booked := new RunnerQueue();
      postprocessing := new RunnerQueue();
      jobs, workers := map[], [];
    }

    // --- the store ---

    method UpdateJobStage(id: string, stage: Stage, now: int) returns (job: Option<Job>)
      modifies `jobs
      ensures State() == SetStage(old(State()), id, stage, now)
      ensures id in old(jobs) ==>
                var status := old(jobs)[id].status;
                && id in jobs && jobs == old(jobs)[id := jobs[id]]
                && jobs[id] == old(jobs)[id].(stage := stage, status := jobs[id].status, stamps := jobs[id].stamps)
                && jobs[id].status == (if status in {Failed, Successful, Cancelled} then status
                                       else if stage in {RegQ, RegW, PreProcQ, ExecQ} then Pending
                                       else if stage == FinalW then Successful
                                       else Status.Executing)
      ensures job == if id in old(jobs) then Some(jobs[id]) else None
    {
      if id !in jobs {
        return None;
      }
      var stamps := UpdateStamps(jobs[id].stamps, LabelsOf(stage), now);
      var status := NextStatus(jobs[id].status, stage);
      var updated := jobs[id].(status := status, stage := stage, stamps := stamps);
      jobs := jobs[id := updated];
      job := Some(updated);
    }

    method UpdateStatus(id: string, status: Status)
      modifies `jobs
      ensures State() == SetStatus(old(State()), id, status)
      ensures jobs == if id in old(jobs) then old(jobs)[id := old(jobs)[id].(status := status)] else old(jobs)
    {
      if id in jobs {
        jobs := jobs[id := jobs[id].(status := status)];
      }
    }

    // --- submission and preprocessing ---

    method SubmitJob(id: string, booking: Args) returns (job: Option<Job>)
      requires Apart()
      modifies `jobs, preprocessing, preprocessing.queue
      ensures State() == Submit(old(State()), id, booking)
      ensures job == if id in old(jobs) then None else Some(NewJob(id))
    {
      if id in jobs {
        return None;
      }
      job := Some(NewJob(id));
      jobs := jobs[id := job.value];
      preprocessing.Enqueue(job.value.Queued(), booking, TokenOf(id, PreProcQ));
    }

    method PreprocessStarts(at: nat, readable: bool, now: int)
      requires Apart() && at < |preprocessing.tokens|
      modifies this, preprocessing, preprocessing.queue
      ensures State() == StartPreprocessing(old(State()), at, readable, now)
    {
      var next := preprocessing.Fire(at);
      if next.Ok? && next.value.Some? {
        var id, booking := next.value.value.job.jobId, next.value.value.args;
        if !readable {
          UpdateStatus(id, Failed);
        } else {
          var job := UpdateJobStage(id, PreProcW, now);
          if job.Some? {
            workers := workers + [Worker(id, Preprocessing(booking))];
          }
        }
      }
    }

    method PushToWaitlist(id: string)
      requires Apart()
      modifies waitlist
      ensures State() == Waitlist(old(State()), id)
    {
      if id in jobs {
        waitlist.Add(jobs[id].Queued(), None);
      }
    }

    method EnqueueOnNormal(id: string, now: int)
      requires Apart()
      modifies `jobs, normal, normal.queue
      ensures State() == AdmitNormal(old(State()), id, now)
    {
      var job := UpdateJobStage(id, ExecQ, now);
      if job.Some? {
        normal.Enqueue(job.value.Queued(), None, TokenOf(id, ExecQ));
      }
    }

    method EnqueueOnBooked(id: string, now: int)
      requires Apart()
      modifies `jobs, booked, booked.queue
      ensures State() == AdmitBooked(old(State()), id, now)
    {
      var job := UpdateJobStage(id, ExecQ, now);
      if job.Some? {
        booked.Enqueue(job.value.Queued(), None, TokenOf(id, ExecQ));
      }
    }

    /** The usable time accounts for the jobs that are already scheduled. */
    method TryEnqueueOnNormalQueue(id: string, a: Admission, now: int)
      requires Apart()
      modifies `jobs, waitlist, normal, normal.queue
      ensures State() == TryNormal(old(State()), id, a, now)
    {
      if a.next.Some? {
        var usable := a.next.value - (normal.queue.total + a.running);
        if a.duration > usable {
          PushToWaitlist(id);
          return;
        }
      }
      EnqueueOnNormal(id, now);
    }

    method TryEnqueueOnBookedQueue(id: string, a: Admission, now: int)
      requires Apart()
      modifies `jobs, waitlist, booked, booked.queue
      ensures State() == TryBooked(old(State()), id, a, now)
    {
      var usable, isBooker := 0.0, false;
      if a.active.Some? {
        usable := a.active.value.Total() - (booked.queue.total + a.running);
        isBooker := a.active.value.owned;
      }
      if isBooker {
        if a.force {
          PushToWaitlist(id);
        } else if a.duration > usable {
          UpdateStatus(id, Failed);
        } else {
          EnqueueOnBooked(id, now);
        }
      } else {
        PushToWaitlist(id);
      }
    }

    method PreprocessEnds(i: nat, a: Admission, now: int)
      requires Apart() && i < |workers| && workers[i].task.Preprocessing?
      modifies this, waitlist, normal, normal.queue, booked, booked.queue
      ensures State() == FinishPreprocessing(old(State()), i, a, now)
    {
      var id, booking := workers[i].jobId, workers[i].task.booking;
      workers := workers[..i] + workers[i + 1..];
      if id in jobs {
        jobs := jobs[id := jobs[id].(estimated := Some(a.duration))];
      }
      if booking.None? {
        TryEnqueueOnNormalQueue(id, a, now);
      } else {
        TryEnqueueOnBookedQueue(id, a, now);
      }
    }

    // --- the waitlist ---

    method PopWaitlistToBooking(usable: Budget, now: int)
      requires Apart()
      modifies `jobs, waitlist, booked, booked.queue
      ensures State() == WaitlistToBooking(old(State()), usable, now)
      ensures (forall j :: 0 <= j < |old(waitlist.list)| ==>
                 usable.Some? && old(waitlist.list)[j].duration >= usable.value) ==> State() == old(State())
      ensures forall at :: 0 <= at < |old(waitlist.list)| && IsFirstShort(old(waitlist.list), at, usable) ==>
                IsMovedToBooking(old(State()), State(), old(waitlist.list)[at])
    {
      hide PopJob, AdmitBooked, Runners.Enqueue, SetStage, IsMovedToBooking;
      ghost var list := waitlist.list;
      MovingToBooking(State(), usable, now);
      var next := waitlist.PopFirst(id => IsShorter(id, usable));
      ghost var at := FirstPlace(list, usable);
      if next.Ok? && next.value.Some? {
        EnqueueOnBooked(next.value.value.job.jobId, now);
      }
    }

    /** Job after job, as the sweep yields them. */
    method PopWaitlistToNormalQueue(usable: Budget, now: int)
      requires Apart()
      modifies `jobs, waitlist, normal, normal.queue
      ensures State() == WaitlistToNormal(old(State()), usable, now)
    {
      var items, _, _ := waitlist.PopMany(usable);
      ghost var p := State();
      for i := 0 to |items|
        invariant State() == AdmitAll(p, items[..i], now)
      {
        PrefixGrows(items, i);
        PrefixOfAppend(items[..i], items[i]);
        EnqueueOnNormal(items[i].job.jobId, now);
      }
      PrefixWhole(items);
    }

    // --- execution ---

    method ExecuteStarts(next: Result<Option<Item<Args>>, QueueError>, now: int)
      modifies this
      ensures var item := if next.Ok? then next.value else None;
              State() == Execute(old(State()), old(State()), item, now)
    {
      if next.Ok? && next.value.Some? {
        var id := next.value.value.job.jobId;
        var job := UpdateJobStage(id, ExecW, now);
        if job.Some? {
          workers := workers + [Worker(id, Task.Executing)];
        }
      }
    }

    method NormalStarts(at: nat, now: int)
      requires Apart() && at < |normal.tokens|
      modifies this, normal, normal.queue
      ensures State() == StartNormal(old(State()), at, now)
    {
      var next := normal.Fire(at);
      ExecuteStarts(next, now);
    }

    method BookedStarts(at: nat, now: int)
      requires Apart() && at < |booked.tokens|
      modifies this, booked, booked.queue
      ensures State() == StartBooked(old(State()), at, now)
    {
      var next := booked.Fire(at);
      ExecuteStarts(next, now);
    }

    method ExecuteEnds(i: nat, now: int)
      requires Apart() && i < |workers| && workers[i].task == Task.Executing
      modifies this, postprocessing, postprocessing.queue
      ensures State() == FinishExecuting(old(State()), i, now)
    {
      var id := workers[i].jobId;
      workers := workers[..i] + workers[i + 1..];
      if id !in jobs || jobs[id].status == Cancelled {
        return;
      }
      var job := UpdateJobStage(id, PstProcQ, now);
      postprocessing.Enqueue(job.value.Queued(), None, TokenOf(id, PstProcQ));
    }

    /** The task of a worker ends with an error that is logged as a failure of its
        job: in preprocessing, in execution, or by the failure callback. */
    method Fails(i: nat)
      requires i < |workers|
      requires workers[i].task.Preprocessing? || workers[i].task == Task.Executing || workers[i].task == Raised
      modifies this
      ensures var p, task := old(State()), old(workers)[i].task;
              State() == (if task.Preprocessing? then FailPreprocessing(p, i)
                          else if task == Raised then LogFailure(p, i) else FailExecuting(p, i))
      ensures var id := old(workers)[i].jobId;
              && workers == old(workers)[..i] + old(workers)[i + 1..]
              && (id in old(jobs) ==> jobs == old(jobs)[id := old(jobs)[id].(status := Failed)])
    {
      var id := workers[i].jobId;
      workers := workers[..i] + workers[i + 1..];
      UpdateStatus(id, Failed);
    }

    // --- postprocessing ---

    method PostprocessStarts(at: nat, movable: bool, now: int)
      requires Apart() && at < |postprocessing.tokens|
      modifies this, postprocessing, postprocessing.queue
      ensures State() == StartPostprocessing(old(State()), at, movable, now)
    {
      var next := postprocessing.Fire(at);
      if next.Ok? && next.value.Some? && movable {
        var id := next.value.value.job.jobId;
        var job := UpdateJobStage(id, PstProcW, now);
        if job.Some? {
          workers := workers + [Worker(id, Postprocessing)];
        }
      }
    }

    /** The results may be saved, and MSS told of them; an error before or after the
        first of these is raised for the failure callback. */
    method PostprocessEnds(i: nat, saved: bool, told: bool)
      requires i < |workers| && workers[i].task == Postprocessing
      modifies this
      ensures State() == if saved && told then SaveResults(old(State()), i)
              else FailPostprocessing(old(State()), i, saved)
      ensures var id := old(workers)[i].jobId;
              && (saved && id in old(jobs) ==> jobs == old(jobs)[id := old(jobs)[id].(status := Successful)])
              && (!saved ==> jobs == old(jobs))
              && workers == old(workers)[i := Worker(id, if saved && told then Returned else Raised)]
    {
      var id := workers[i].jobId;
      if saved {
        UpdateStatus(id, Successful);
      }
      workers := workers[i := Worker(id, if saved && told then Returned else Raised)];
    }

    /** A results file that cannot be read: nothing is logged. */
    method PostprocessCrashes(i: nat)
      requires i < |workers| && workers[i].task == Postprocessing
      modifies this
      ensures State() == CrashPostprocessing(old(State()), i)
    {
      workers := workers[..i] + workers[i + 1..];
    }

    method OnPostprocessingSuccess(i: nat, now: int)
      requires i < |workers| && workers[i].task == Returned
      modifies this
      ensures State() == Succeed(old(State()), i, now)
      ensures var id := old(workers)[i].jobId;
              && workers == old(workers)[..i] + old(workers)[i + 1..]
              && (id in old(jobs) ==> id in jobs)
              && (id in old(jobs) && old(jobs)[id].status == Successful ==>
                    jobs[id].stage == FinalW && jobs[id].status == Successful)
              && (id in old(jobs) && old(jobs)[id].status in {Failed, Cancelled} ==>
                    jobs[id].stage == FinalQ && jobs[id].status == old(jobs)[id].status)
    {
      var id := workers[i].jobId;
      workers := workers[..i] + workers[i + 1..];
      var job := UpdateJobStage(id, FinalQ, now);
      if job.Some? && job.value.status == Successful {
        var _ := UpdateJobStage(id, FinalW, now);
      }
    }

    // --- cancellation ---

    method CancelJobInQueues(job: Job)
      requires Apart()
      modifies preprocessing, waitlist, normal, booked, postprocessing
      modifies preprocessing.queue, normal.queue, booked.queue, postprocessing.queue
      ensures State() == CancelInQueues(old(State()), job)
    {
      hide PopJob, Runners.CancelJob;
      var preprocessingId := StorageId(job.id, 0.0);
      var executionId := job.Key();
      var _ := waitlist.PopJob(executionId);
      var _ := preprocessing.CancelJob(job.id, Some(preprocessingId));
      var _ := normal.CancelJob(job.id, Some(executionId));
      var _ := booked.CancelJob(job.id, Some(executionId));
      var _ := postprocessing.CancelJob(job.id, Some(executionId));
    }

    method CancelJob(id: string) returns (job: Option<Job>)
      requires Apart()
      modifies `jobs, preprocessing, waitlist, normal, booked, postprocessing
      modifies preprocessing.queue, normal.queue, booked.queue, postprocessing.queue
      ensures State() == Cancel(old(State()), id)
      ensures id in old(jobs) ==> jobs == old(jobs)[id := old(jobs)[id].(status := Cancelled)]
      ensures job == if id in old(jobs) then Some(jobs[id]) else None
    {
      if id !in jobs {
        return None;
      }
      CancelJobInQueues(jobs[id]);
      UpdateStatus(id, Cancelled);
      job := Some(jobs[id]);
    }
  }

  /** The job is shorter than the usable time, if there is a limit, and none before it
      is. */
  ghost predicate IsFirstShort(list: seq<StorageId>, at: nat, usable: Budget)
    requires at < |list|
  {
    && (usable.Some? ==> list[at].duration < usable.value)
    && (forall j :: 0 <= j < at ==> usable.Some? && list[j].duration >= usable.value)
  }

  /** The id is off the waitlist; and if there is a job under it, that is the last in
      the booked queue. */
  ghost predicate IsMovedToBooking(p: Pipeline, q: Pipeline, key: StorageId) {
    && DropsFirst(p.waitlist.list, key, q.waitlist.list)
    && (key in p.waitlist.jobs && key in p.waitlist.args && p.waitlist.jobs[key].jobId in p.jobs ==>
          q.booked.queue.list == p.booked.queue.list + [p.jobs[p.waitlist.jobs[key].jobId].Key()])
  }

  /** Where the first short enough job is listed. */
  lemma {:induction false} FirstPlace(list: seq<StorageId>, usable: Budget) returns (at: nat)
    ensures at <= |list|
    ensures forall j :: 0 <= j < at ==> !IsShorter(list[j], usable) && usable.Some? && list[j].duration >= usable.value
    ensures at == |list| ==> FirstShorter(list, usable).None?
    ensures at < |list| ==> IsShorter(list[at], usable) && FirstShorter(list, usable) == Some(list[at])
    ensures at < |list| && usable.Some? ==> list[at].duration < usable.value
  {
    if list == [] || usable.None? || list[0].duration < usable.value {
      at := 0;
    } else {
      var rest := FirstPlace(list[1..], usable);
      at := rest + 1;
    }
  }

  lemma MovingToBooking(p: Pipeline, usable: Budget, now: int)
    ensures (forall j :: 0 <= j < |p.waitlist.list| ==> usable.Some? && p.waitlist.list[j].duration >= usable.value) ==>
              WaitlistToBooking(p, usable, now) == p
    ensures forall at :: 0 <= at < |p.waitlist.list| && IsFirstShort(p.waitlist.list, at, usable) ==>
              IsMovedToBooking(p, WaitlistToBooking(p, usable, now), p.waitlist.list[at])
  {
    hide PopJob, AdmitBooked;
    var list := p.waitlist.list;
    var first := FirstPlace(list, usable);
    if first < |list| {
      PoppingMeans(p.waitlist, list[first]);
      var (rest, item) := PopJob(p.waitlist, list[first]);
      if item.Ok? {
        AdmittedToBooking(p.(waitlist := rest), item.value.job.jobId, now);
      }
    }
  }

  lemma AdmittedToBooking(p: Pipeline, id: string, now: int)
    ensures var q := AdmitBooked(p, id, now);
            && q.waitlist == p.waitlist
            && (id in p.jobs ==> q.booked.queue.list == p.booked.queue.list + [p.jobs[id].Key()])
  {
    hide WithUpdates;
  }
}
