/** What the recorded totals of the queues say about the jobs in them, and so about
    the room before the next booking. */
module PipelineTotals {
  import opened Wrappers
  import opened Queues
  import opened QueueProperties
  import opened PopManyProperties
  import opened Runners
  import opened Jobs
  import opened Pipelines
  import opened PipelineStates
  import opened PipelineSteps
  import opened PipelineProperties

  /** By how much the recorded total is off. */
  function Drift(q: Queue<Args>): real {
    q.total - Sum(q.list)
  }

  ghost predicate SameDrift(p: Pipeline, p': Pipeline) {
    forall place :: Drift(At(p', place)) == Drift(At(p, place))
  }

  lemma AddDrift(q: Queue<Args>, job: QueuedJob, args: Args)
    ensures Drift(Add(q, job, args)) == Drift(q)
  {
    SumConcat(q.list, [job.Key()]);
    SumOne(job.Key());
  }

  lemma NextDrift(q: Queue<Args>)
    ensures Drift(Next(q).0) == Drift(q)
  {
    if q.list != [] {
      assert q.list == [q.list[0]] + q.list[1..];
      SumConcat([q.list[0]], q.list[1..]);
      SumOne(q.list[0]);
    }
  }

  lemma PopDrift(q: Queue<Args>, key: StorageId)
    requires Distinct(q.list)
    ensures Drift(PopJob(q, key).0) == Drift(q) - if key in q.list then 0.0 else key.duration
  {
    hide Distinct, Sum;
    RemovingDistinct(q.list, key);
  }

  lemma {:induction false} SumSplits(list: seq<StorageId>, ids: set<StorageId>)
    ensures Sum(Among(list, ids, true)) + Sum(Among(list, ids, false)) == Sum(list)
  {
    if list != [] {
      var front, last := list[..|list| - 1], list[|list| - 1];
      SumSplits(front, ids);
      SumConcat(Among(front, ids, last in ids), [last]);
      SumOne(last);
    }
  }

  lemma SweepDrift(q: Queue<Args>, usable: Budget)
    requires q.Valid() && NonNegative(q.list)
    ensures Drift(PopMany(q, usable).queue) == Drift(q)
  {
    hide PopMany, Sum, Among;
    var popped := PopManyIsFifoWithinBudget(q, usable);
    SumSplits(q.list, IdsOf(popped));
  }

  // --- steps that put jobs in lists ---

  lemma AdmitDrift(p: Pipeline, id: string, now: int)
    ensures SameDrift(p, AdmitNormal(p, id, now)) && SameDrift(p, AdmitBooked(p, id, now)) &&
            SameDrift(p, Waitlist(p, id))
  {
    hide Drift, Add;
    if id in p.jobs {
      var job := SetStage(p, id, ExecQ, now).jobs[id].Queued();
      AddDrift(p.normal.queue, job, None);
      AddDrift(p.booked.queue, job, None);
      AddDrift(p.waitlist, p.jobs[id].Queued(), None);
    }
  }

  lemma {:induction false} AdmitAllDrift(p: Pipeline, items: seq<Item<Args>>, now: int)
    ensures SameDrift(p, AdmitAll(p, items, now))
  {
    hide Drift, AdmitNormal, At;
    if items != [] {
      AdmitAllDrift(p, items[..|items| - 1], now);
      AdmitDrift(AdmitAll(p, items[..|items| - 1], now), items[|items| - 1].job.jobId, now);
    }
  }

  lemma FinishDrift(p: Pipeline, i: nat, a: Admission, now: int)
    ensures SameDrift(p, FinishPreprocessing(p, i, a, now))
  {
    if i < |p.workers| && p.workers[i].task.Preprocessing? {
      var id := p.workers[i].jobId;
      var q := SetEstimate(Release(p, i), id, a.duration);
      SameLists(p, q);
      SameLists(q, SetStatus(q, id, Failed));
      hide Drift, At, Release, SetEstimate, SetStatus, AdmitNormal, AdmitBooked, Waitlist, TooLongForNormal,
        TooLongForBooking;
      AdmitDrift(q, id, now);
    }
  }

  lemma FinishExecutingDrift(p: Pipeline, i: nat, now: int)
    ensures SameDrift(p, FinishExecuting(p, i, now))
  {
    hide Drift, Add;
    if Works(p, i, Task.Executing) && p.workers[i].jobId in p.jobs {
      AddDrift(p.postprocessing.queue, Moved(p.jobs[p.workers[i].jobId], PstProcQ, now).Queued(), None);
    }
  }

  // --- one step ---

  /** Only cancellations make a total drift. */
  lemma StepDrift(p: Pipeline, step: Step, now: int)
    requires Inv(p, now) && !step.Cancellation?
    ensures SameDrift(p, After(p, step, now))
  {
    hide Inv, Drift, Add, Next, PopJob, PopMany, AdmitAll, AdmitBooked, FinishPreprocessing, FinishExecuting, InPlace;
    match step
    case Submission(id, booking) =>
      AddDrift(p.preprocessing.queue, NewJob(id).Queued(), booking);
    case PreprocessingStarts(at, _) =>
      NextDrift(p.preprocessing.queue);
    case PreprocessingEnds(worker, admission) =>
      FinishDrift(p, worker, admission, now);
    case WaitlistFeedsBooking(usable) =>
      FeedBookingDrift(p, now, usable);
    case WaitlistFeedsNormal(usable) =>
      FeedNormalDrift(p, now, usable);
    case NormalStarts(at) =>
      NextDrift(p.normal.queue);
    case BookedStarts(at) =>
      NextDrift(p.booked.queue);
    case ExecutionEnds(worker) =>
      FinishExecutingDrift(p, worker, now);
    case PostprocessingStarts(at, _) =>
      NextDrift(p.postprocessing.queue);
    case _ =>
  }

  lemma FeedBookingDrift(p: Pipeline, now: int, usable: Budget)
    requires Inv(p, now)
    ensures SameDrift(p, WaitlistToBooking(p, usable, now))
  {
    hide Inv, Drift, PopJob, FirstShorter, AdmitBooked, Distinct, InPlace;
    PlacesHold(p, now, WaitingList);
    var first := FirstShorter(p.waitlist.list, usable);
    if first.Some? {
      FirstIsListed(p.waitlist.list, usable);
      ListIsDistinct(p.jobs, p.waitlist, PreProcW);
      PopDrift(p.waitlist, first.value);
      var (rest, item) := PopJob(p.waitlist, first.value);
      var q := p.(waitlist := rest);
      WaitingDrift(p, q);
      if item.Ok? {
        hide At;
        AdmitDrift(q, item.value.job.jobId, now);
      }
    }
  }

  lemma ListIsDistinct(jobs: map<string, Job>, q: Queue<Args>, stage: Stage)
    requires InPlace(jobs, q, stage)
    ensures Distinct(q.list)
  {
  }

  lemma WaitingDrift(p: Pipeline, q: Pipeline)
    requires q == p.(waitlist := q.waitlist) && Drift(q.waitlist) == Drift(p.waitlist)
    ensures SameDrift(p, q)
  {
    hide Drift;
  }

  lemma FeedNormalDrift(p: Pipeline, now: int, usable: Budget)
    requires Inv(p, now)
    ensures SameDrift(p, WaitlistToNormal(p, usable, now))
  {
    PlacesHold(p, now, WaitingList);
    WaitingIsNonNegative(p.jobs, p.waitlist);
    hide Inv, Drift, PopMany, AdmitAll;
    SweepDrift(p.waitlist, usable);
    AdmitAllDrift(p.(waitlist := PopMany(p.waitlist, usable).queue), PopMany(p.waitlist, usable).items, now);
  }

  /** What a cancellation takes off the total of a list that has not got the job. */
  function Missed(p: Pipeline, id: string, place: Place): real {
    if id !in p.jobs || place == PreprocessingQueue || p.jobs[id].Key() in At(p, place).list then 0.0
    else p.jobs[id].Key().duration
  }

  lemma CancelDrift(p: Pipeline, now: int, id: string, place: Place)
    requires Inv(p, now)
    ensures Drift(At(Cancel(p, id), place)) == Drift(At(p, place)) - Missed(p, id, place)
  {
    PlacesHold(p, now, place);
    hide Inv, Drift, PopJob, CancelToken, Distinct;
    if id in p.jobs {
      KeysToCancel(p, now, id);
      PopDrift(At(p, place), if place == PreprocessingQueue then StorageId(id, 0.0) else p.jobs[id].Key());
    }
  }

  // --- runs ---

  function MissedBy(run: seq<Timed>, place: Place): real {
    if run == [] then 0.0
    else
      var front, last := run[..|run| - 1], run[|run| - 1].step;
      MissedBy(front, place) + if last.Cancellation? then Missed(Reach(front), last.id, place) else 0.0
  }

  lemma NothingRecorded(place: Place)
    ensures At(EmptyPipeline(), place).total == Sum(At(EmptyPipeline(), place).list) == 0.0
  {
  }

  /** In every reachable state each list is recorded at the duration of its jobs,
      less that of the jobs that were cancelled while they were elsewhere. */
  lemma {:induction false} TotalsAreConserved(run: seq<Timed>, place: Place)
    requires ClockRuns(run)
    ensures At(Reach(run), place).total == Sum(At(Reach(run), place).list) - MissedBy(run, place)
    ensures MissedBy(run, place) >= 0.0
  {
    hide After, Inv, Sum;
    if run == [] {
      NothingRecorded(place);
    } else {
      var front, last := run[..|run| - 1], run[|run| - 1];
      TotalsAreConserved(front, place);
      StateBefore(run);
      if last.step.Cancellation? {
        CancelDrift(Reach(front), last.now, last.step.id, place);
        assert After(Reach(front), last.step, last.now) == Cancel(Reach(front), last.step.id) by {
          AfterCancellation(Reach(front), last.step.id, last.now);
        }
      } else {
        StepDrift(Reach(front), last.step, last.now);
      }
    }
  }

  lemma AfterCancellation(p: Pipeline, id: string, now: int)
    ensures After(p, Cancellation(id), now) == Cancel(p, id)
  {
  }

  /** A job prepared outside bookings is put on the normal queue exactly if it, the
      jobs queued there and the running one end before the next booking, when the
      jobs cancelled so far are counted as time gained. */
  lemma AdmissionCountsCancelledJobs(run: seq<Timed>, a: Admission)
    requires ClockRuns(run) && a.next.Some?
    ensures !TooLongForNormal(Reach(run), a) <==>
            Sum(Reach(run).normal.queue.list) + a.running + a.duration <= a.next.value + MissedBy(run, NormalQueue)
  {
    TotalsAreConserved(run, NormalQueue);
  }

  /** So it is in a booking, with its whole length, however much of it has passed. */
  lemma BookedAdmissionCountsCancelledJobs(run: seq<Timed>, a: Admission)
    requires ClockRuns(run) && a.active.Some?
    ensures !TooLongForBooking(Reach(run), a) <==>
            Sum(Reach(run).booked.queue.list) + a.running + a.duration <=
              a.active.value.Total() + MissedBy(run, BookedQueue)
  {
    TotalsAreConserved(run, BookedQueue);
  }

  /** What is left of the booking. */
  function TimeLeft(booking: Active, now: int): real {
    (booking.end - now) as real
  }

  /** What the jobs of the booked queue, the running one, and one more take. */
  function BusyFor(p: Pipeline, a: Admission): real {
    Sum(p.booked.queue.list) + a.running + a.duration
  }

  /** Whatever the length of the job, admitted means finished by the end of the
      booking: exactly while no more of the booking has passed than can be made up
      for, which is to say none, unless the clock is behind its start; or if nothing
      is admitted any more. */
  lemma AdmittedEndsInTimeExactly(run: seq<Timed>, a: Admission, now: int)
    requires ClockRuns(run) && a.active.Some?
    ensures var p, booking := Reach(run), a.active.value;
            (forall duration: Seconds ::
               var b := a.(duration := duration);
               !TooLongForBooking(p, b) ==> BusyFor(p, b) <= TimeLeft(booking, now)) <==>
            || now as real + MissedBy(run, BookedQueue) <= booking.start as real
            || booking.Total() + MissedBy(run, BookedQueue) < Sum(p.booked.queue.list) + a.running
  {
    var p, booking, missed := Reach(run), a.active.value, MissedBy(run, BookedQueue);
    forall duration: Seconds
      ensures !TooLongForBooking(p, a.(duration := duration)) <==>
              BusyFor(p, a.(duration := duration)) <= booking.Total() + missed
    {
      BookedAdmissionCountsCancelledJobs(run, a.(duration := duration));
    }
    var longest := booking.Total() + missed - Sum(p.booked.queue.list) - a.running;
    if longest >= 0.0 {
      var b := a.(duration := longest);
      assert BusyFor(p, b) == booking.Total() + missed;
    }
  }
}
