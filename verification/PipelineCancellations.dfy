/** What becomes of cancelled jobs. */
module PipelineCancellations {
  import opened Wrappers
  import opened Queues
  import opened Runners
  import opened Jobs
  import opened Pipelines
  import opened PipelineStates
  import opened PipelineSteps
  import opened PipelineProperties

  /** The pipeline some more steps later. */
  function Continue(p: Pipeline, run: seq<Timed>): Pipeline {
    if run == [] then p else After(Continue(p, run[..|run| - 1]), run[|run| - 1].step, run[|run| - 1].now)
  }

  ghost predicate Gone(p: Pipeline, id: string) {
    Nowhere(p, id) && id in p.jobs && p.jobs[id].status == Cancelled
  }

  lemma NowhereIsUntouched(p: Pipeline, step: Step, id: string)
    requires Nowhere(p, id)
    ensures !InSomeList(p, id) && !WorksOn(p, step, id)
  {
  }

  lemma NowhereIsIdle(p: Pipeline, id: string)
    requires Nowhere(p, id)
    ensures !Busy(p.workers, id)
  {
  }

  lemma GoneStaysGone(p: Pipeline, step: Step, now: int, id: string)
    requires Inv(p, now) && Gone(p, id)
    ensures Gone(After(p, step, now), id) && After(p, step, now).jobs[id] == p.jobs[id]
  {
    hide Inv, Nowhere, Abandons, Evolves, AllKept;
    if step == Cancellation(id) {
      hide Effect, Cancel, Busy;
      Cancelling(p, now, id);
      NowhereIsIdle(p, id);
    } else {
      hide After;
      var ids := Handling(p, step, now);
      NowhereIsUntouched(p, step, id);
      assert id !in ids;
    }
  }

  /** A job cancelled while it waits in a list is in no list from then on, no worker
      ever gets it, and its record does not change any more. */
  lemma {:induction false} CancelledIsGone(p: Pipeline, now: int, id: string, run: seq<Timed>)
    requires Inv(p, now) && id in p.jobs && !Busy(p.workers, id)
    requires ClockRuns(run) && (run != [] ==> now <= run[0].now)
    ensures var q := Continue(Cancel(p, id), run);
            Gone(q, id) && q.jobs[id] == p.jobs[id].(status := Cancelled)
    ensures Inv(Continue(Cancel(p, id), run), if run == [] then now else Clock(run))
  {
    hide Inv, After, Nowhere, Busy, Cancel, Effect;
    if run == [] {
      Cancelling(p, now, id);
      EffectKeeps(p, Cancel(p, id), {id}, now);
    } else {
      var front, last := run[..|run| - 1], run[|run| - 1];
      CancelledIsGone(p, now, id, front);
      var q, before := Continue(Cancel(p, id), front), if front == [] then now else Clock(front);
      if front != [] {
        assert front[|front| - 1].now <= last.now && front[0] == run[0];
      }
      InvLater(q, before, last.now);
      GoneStaysGone(q, last.step, last.now, id);
      HandledIsFine(q, last.step, last.now);
    }
  }

  /** Not so a job cancelled while a worker prepares it: it goes where it would have
      gone, and is cancelled there, unless it is rejected. */
  lemma PreparedThoughCancelled(p: Pipeline, now: int, i: nat, a: Admission)
    requires Inv(p, now) && i < |p.workers| && p.workers[i].task.Preprocessing?
    ensures var id, booking := p.workers[i].jobId, p.workers[i].task.booking;
            var c := Cancel(p, id);
            var q, destination := FinishPreprocessing(c, i, a, now), DestinationOf(c, booking, a);
            && (forall place :: Listed(At(q, place).list, id) <==> destination == ToQueue(place))
            && id in q.jobs && q.jobs[id].status == if destination.Rejected? then Failed else Cancelled
  {
    hide Inv, Effect, Kept, FinishPreprocessing, DestinationOf, Nowhere, At, Listed, Cancel;
    var id := p.workers[i].jobId;
    BusyIsHere(p, now, i);
    Cancelling(p, now, id);
    CancelKeepsWorkers(p, id);
    var c := Cancel(p, id);
    EffectKeeps(p, c, {id}, now);
    PreparedJobIsRouted(c, now, i, a);
    CancelledStatusKept(c, i, a, now);
  }

  lemma CancelKeepsWorkers(p: Pipeline, id: string)
    ensures Cancel(p, id).workers == p.workers
  {
    hide CancelJob, PopJob;
  }

  lemma CancelledStatusKept(c: Pipeline, i: nat, a: Admission, now: int)
    requires i < |c.workers| && c.workers[i].task.Preprocessing? && c.workers[i].jobId in c.jobs
    requires c.jobs[c.workers[i].jobId].status == Cancelled
    ensures var q, id := FinishPreprocessing(c, i, a, now), c.workers[i].jobId;
            && id in q.jobs
            && (!DestinationOf(c, c.workers[i].task.booking, a).Rejected? ==> q.jobs[id].status == Cancelled)
  {
    hide Add, Enqueue;
  }

  // --- which cancelled jobs are gone for good ---

  /** Cancelled, in no list, and with a worker at most to be called back. */
  ghost predicate Settled(p: Pipeline, id: string) {
    && id in p.jobs && p.jobs[id].status == Cancelled
    && (Nowhere(p, id) || Worker(id, Returned) in p.workers)
  }

  /** What a step of a worker does to the workers: nothing, or it lets its own go, or
      gives it another task. */
  lemma WorkersAfterWork(p: Pipeline, step: Step, now: int)
    requires IsWork(step) && step.worker < |p.workers|
    ensures var workers, i := After(p, step, now).workers, step.worker;
            || workers == p.workers || workers == p.workers[..i] + p.workers[i + 1..]
            || workers == p.workers[i := Worker(p.workers[i].jobId, Returned)]
            || workers == p.workers[i := Worker(p.workers[i].jobId, Raised)]
  {
    hide Add, Enqueue, TooLongForNormal, TooLongForBooking, TokenOf, Moved;
  }

  /** Other steps may add a worker. */
  lemma WorkersAfterOthers(p: Pipeline, step: Step, now: int)
    requires !IsWork(step) || step.worker >= |p.workers|
    ensures p.workers <= After(p, step, now).workers
  {
    hide Next, PopJob, PopMany, Add, Enqueue, CancelJob, AdmitAll, FirstShorter, TokenOf, Moved, Fire;
    if step.WaitlistFeedsNormal? {
      var sweep := PopMany(p.waitlist, step.usable);
      AdmitAllKeepsWorkers(p.(waitlist := sweep.queue), sweep.items, now);
    }
  }

  /** A worker keeps its job and task unless the step is its own. */
  lemma WorkerStays(p: Pipeline, step: Step, now: int, w: Worker)
    requires w in p.workers && !WorksOn(p, step, w.jobId)
    ensures w in After(p, step, now).workers
  {
    hide After;
    if IsWork(step) && step.worker < |p.workers| {
      WorkersAfterWork(p, step, now);
      StaysAmong(p.workers, step.worker, w, Returned);
      StaysAmong(p.workers, step.worker, w, Raised);
    } else {
      WorkersAfterOthers(p, step, now);
      StaysInLonger(p.workers, After(p, step, now).workers, w);
    }
  }

  lemma StaysInLonger(workers: seq<Worker>, longer: seq<Worker>, w: Worker)
    requires workers <= longer && w in workers
    ensures w in longer
  {
  }

  lemma StaysAmong(workers: seq<Worker>, i: nat, w: Worker, task: Task)
    requires w in workers && i < |workers| && workers[i] != w
    ensures w in workers[..i] + workers[i + 1..] && w in workers[i := Worker(workers[i].jobId, task)]
  {
    var j :| 0 <= j < |workers| && workers[j] == w;
    var rest := workers[..i] + workers[i + 1..];
    assert rest[if j < i then j else j - 1] == w;
    assert workers[i := Worker(workers[i].jobId, task)][j] == w;
  }

  lemma {:induction false} AdmitAllKeepsWorkers(p: Pipeline, items: seq<Item<Args>>, now: int)
    ensures AdmitAll(p, items, now).workers == p.workers
  {
    if items != [] {
      AdmitAllKeepsWorkers(p, items[..|items| - 1], now);
    }
  }

  /** A job with a worker is in no list. */
  lemma BusyIsUnlisted(p: Pipeline, now: int, w: Worker)
    requires Inv(p, now) && w in p.workers
    ensures !InSomeList(p, w.jobId)
  {
    var i :| 0 <= i < |p.workers| && p.workers[i] == w;
    assert Busy(p.workers, w.jobId);
    if InSomeList(p, w.jobId) {
      var place :| Listed(At(p, place).list, w.jobId);
      OnlyThere(p, now, place, w.jobId);
    }
  }

  lemma SettledStep(p: Pipeline, step: Step, now: int, id: string)
    requires Inv(p, now) && Settled(p, id)
    ensures Settled(After(p, step, now), id)
  {
    hide Inv, Nowhere, After, Abandons, Evolves, AllKept, InSomeList, Effect;
    if Nowhere(p, id) {
      GoneStaysGone(p, step, now, id);
    } else {
      var w := Worker(id, Returned);
      BusyIsUnlisted(p, now, w);
      if step == Cancellation(id) {
        CancelSettles(p, step, now, id);
      } else if WorksOn(p, step, id) {
        CallbackSettles(p, step, now, id);
      } else {
        WorkerStays(p, step, now, w);
        var ids := Handling(p, step, now);
        Untouched(p, After(p, step, now), ids, id, now);
      }
    }
  }

  lemma CancelSettles(p: Pipeline, step: Step, now: int, id: string)
    requires Inv(p, now) && step == Cancellation(id) && id in p.jobs && Worker(id, Returned) in p.workers
    ensures Settled(After(p, step, now), id)
  {
    hide Inv, Nowhere, Effect, Cancel;
    Cancelling(p, now, id);
    CancelKeepsWorkers(p, id);
  }

  lemma Untouched(p: Pipeline, p': Pipeline, ids: set<string>, id: string, now: int)
    requires Effect(p, p', ids, now) && id !in ids && id in p.jobs
    ensures id in p'.jobs && p'.jobs[id] == p.jobs[id]
  {
    hide Inv, Nowhere;
  }

  /** The success callback leaves a cancelled job cancelled; no other step finds the
      worker at its task. */
  lemma CallbackSettles(p: Pipeline, step: Step, now: int, id: string)
    requires Inv(p, now) && Settled(p, id) && WorksOn(p, step, id) && Worker(id, Returned) in p.workers
    ensures Settled(After(p, step, now), id)
  {
    OneWorker(p, now, step.worker, Worker(id, Returned));
    hide Inv, Nowhere, Effect, Succeed, Kept, After, Busy;
    if step.SuccessCallback? {
      IsSucceed(p, step, now);
      Succeeding(p, now, step.worker);
    } else {
      NotThatTask(p, step, now);
    }
  }

  lemma IsSucceed(p: Pipeline, step: Step, now: int)
    requires step.SuccessCallback?
    ensures After(p, step, now) == Succeed(p, step.worker, now)
  {
  }

  lemma OneWorker(p: Pipeline, now: int, i: nat, w: Worker)
    requires Inv(p, now) && i < |p.workers| && w in p.workers && p.workers[i].jobId == w.jobId
    ensures p.workers[i] == w
  {
    var j :| 0 <= j < |p.workers| && p.workers[j] == w;
    assert i == j;
  }

  lemma NotThatTask(p: Pipeline, step: Step, now: int)
    requires IsWork(step) && !step.SuccessCallback? && step.worker < |p.workers| &&
             p.workers[step.worker].task == Returned
    ensures After(p, step, now) == p
  {
  }

  /** From now on the clock does not go back. */
  ghost predicate Follows(now: int, run: seq<Timed>) {
    ClockRuns(run) && (run != [] ==> now <= run[0].now)
  }

  lemma {:induction false} SettledForGood(p: Pipeline, now: int, id: string, run: seq<Timed>)
    requires Inv(p, now) && Settled(p, id) && Follows(now, run)
    ensures Settled(Continue(p, run), id)
    ensures Inv(Continue(p, run), if run == [] then now else Clock(run))
  {
    hide Inv, After, Settled;
    if run != [] {
      var front, last := run[..|run| - 1], run[|run| - 1];
      SettledForGood(p, now, id, front);
      var q, before := Continue(p, front), if front == [] then now else Clock(front);
      if front != [] {
        assert front[|front| - 1].now <= last.now && front[0] == run[0];
      }
      InvLater(q, before, last.now);
      SettledStep(q, last.step, last.now, id);
      HandledIsFine(q, last.step, last.now);
    }
  }

  ghost predicate StaysCancelled(p: Pipeline, now: int, id: string) {
    forall run :: Follows(now, run) ==>
      var q := Continue(p, run);
      id in q.jobs && q.jobs[id].status == Cancelled && !InSomeList(q, id)
  }

  /** A step that ends the job otherwise, for each task but one. */
  lemma Overruled(c: Pipeline, now: int, id: string, i: nat) returns (step: Step)
    requires id in c.jobs && i < |c.workers| && c.workers[i].jobId == id && c.workers[i].task != Returned
    ensures var q := After(c, step, now); id in q.jobs && q.jobs[id].status != Cancelled
  {
    match c.workers[i].task
    case Preprocessing(_) => step := PreprocessingFails(i);
    case Executing => step := ExecutionFails(i);
    case Postprocessing => step := ResultsSaved(i);
    case Raised => step := FailureCallback(i);
    case Returned =>
  }

  /** A cancelled job stays cancelled and is never again in a list, whatever happens,
      exactly if at the time no worker had it, or the worker had finished it and only
      waited for the success callback. */
  lemma CancelledForGoodExactly(p: Pipeline, now: int, id: string)
    requires Inv(p, now) && id in p.jobs
    ensures StaysCancelled(Cancel(p, id), now, id) <==> !Busy(p.workers, id) || Worker(id, Returned) in p.workers
  {
    hide Inv, Nowhere, Effect, Cancel, Continue, After, InSomeList, Busy;
    var c := Cancel(p, id);
    Cancelling(p, now, id);
    CancelKeepsWorkers(p, id);
    EffectKeeps(p, c, {id}, now);
    if !Busy(p.workers, id) || Worker(id, Returned) in p.workers {
      forall run | Follows(now, run)
        ensures var q := Continue(c, run); id in q.jobs && q.jobs[id].status == Cancelled && !InSomeList(q, id)
      {
        SettledForGood(c, now, id, run);
        SettledIsUnlisted(Continue(c, run), if run == [] then now else Clock(run), id);
      }
    } else {
      var i := WorkerOf(p.workers, id);
      var step := Overruled(c, now, id, i);
      OneStepOn(c, step, now);
      assert Follows(now, [Timed(step, now)]);
    }
  }

  lemma SettledIsUnlisted(p: Pipeline, now: int, id: string)
    requires Inv(p, now) && Settled(p, id)
    ensures !InSomeList(p, id)
  {
    if Nowhere(p, id) {
      NowhereIsUntouched(p, Cancellation(id), id);
    } else {
      hide Inv, Nowhere;
      BusyIsUnlisted(p, now, Worker(id, Returned));
    }
  }

  lemma OneStepOn(p: Pipeline, step: Step, now: int)
    ensures Continue(p, [Timed(step, now)]) == After(p, step, now)
  {
    hide After;
    assert [Timed(step, now)][..0] == [];
    assert Continue(p, []) == p;
  }
}
