/** Runs, from the empty pipeline, on which it does not do what one would expect. */
module PipelineWitnesses {
  import opened Wrappers
  import opened Queues
  import QueueProperties
  import PopManyProperties
  import opened Runners
  import opened Jobs
  import opened Pipelines
  import opened PipelineStates
  import opened PipelineSteps
  import opened PipelineProperties
  import opened PipelineTotals

  // --- one step at a time ---

  /** One job waits in a queue, with a token. */
  ghost predicate Waits(r: Runner<Args>, key: StorageId, args: Args) {
    && r.queue.list == [key] && |r.tokens| >= 1
    && key in r.queue.jobs && r.queue.jobs[key].jobId == key.uuid
    && key in r.queue.args && r.queue.args[key] == args
  }

  lemma EnqueuedWaits(r: Runner<Args>, job: QueuedJob, args: Args, id: Option<TokenId>)
    requires r.queue.list == []
    ensures Waits(Enqueue(r, job, args, id), job.Key(), args)
  {
  }

  lemma FiredWasWaiting(r: Runner<Args>, key: StorageId, args: Args)
    requires Waits(r, key, args)
    ensures Fire(r, 0).queue.list == []
    ensures Handed(r).Some? && Handed(r).value.job.jobId == key.uuid && Handed(r).value.args == args
  {
  }

  /** Submitted to an idle queue. */
  lemma Submitted(p: Pipeline, id: string, booking: Args)
    requires id !in p.jobs && p.preprocessing.queue.list == []
    ensures var q := Submit(p, id, booking);
            && q == p.(jobs := p.jobs[id := NewJob(id)], preprocessing := q.preprocessing)
            && Waits(q.preprocessing, StorageId(id, 0.0), booking)
  {
    hide Enqueue, Waits;
    EnqueuedWaits(p.preprocessing, NewJob(id).Queued(), booking, TokenOf(id, PreProcQ));
  }

  lemma PreprocessingStarted(p: Pipeline, id: string, booking: Args, now: int)
    requires Waits(p.preprocessing, StorageId(id, 0.0), booking) && id in p.jobs
    ensures var q := StartPreprocessing(p, 0, true, now);
            && q.preprocessing.queue.list == []
            && q == p.(jobs := p.jobs[id := Moved(p.jobs[id], PreProcW, now)],
                       preprocessing := q.preprocessing, workers := p.workers + [Worker(id, Preprocessing(booking))])
  {
    hide Fire, Handed, Moved;
    FiredWasWaiting(p.preprocessing, StorageId(id, 0.0), booking);
    HasToken(p.preprocessing, StorageId(id, 0.0), booking);
  }

  lemma HasToken(r: Runner<Args>, key: StorageId, args: Args)
    requires Waits(r, key, args)
    ensures |r.tokens| >= 1
  {
  }

  function Prepared(job: Job, duration: Seconds, now: int): Job {
    Moved(job.(estimated := Some(duration)), ExecQ, now)
  }

  /** The last worker has prepared its job, which goes to the normal queue. */
  lemma PreparedForNormal(p: Pipeline, workers: seq<Worker>, id: string, a: Admission, now: int)
    requires p.workers == workers + [Worker(id, Preprocessing(None))] && id in p.jobs && p.jobs[id].id == id
    requires !TooLongForNormal(p, a)
    ensures var q, job := FinishPreprocessing(p, |workers|, a, now), Prepared(p.jobs[id], a.duration, now);
            q == p.(jobs := p.jobs[id := job], workers := workers,
                    normal := Enqueue(p.normal, QueuedJob(id, Some(a.duration)), None, TokenOf(id, ExecQ)))
  {
    hide Enqueue, TokenOf, Moved;
    assert p.workers[..|workers|] + p.workers[|workers| + 1..] == workers;
    MovedKeeps(p.jobs[id].(estimated := Some(a.duration)), ExecQ, now);
    var prepared := p.jobs[id := p.jobs[id].(estimated := Some(a.duration))];
    assert prepared[id := Moved(prepared[id], ExecQ, now)] == p.jobs[id := Prepared(p.jobs[id], a.duration, now)];
  }

  lemma PreparedForBooked(p: Pipeline, workers: seq<Worker>, id: string, booking: string, a: Admission, now: int)
    requires p.workers == workers + [Worker(id, Preprocessing(Some(booking)))] && id in p.jobs && p.jobs[id].id == id
    requires a.active.Some? && a.active.value.owned && !a.force && !TooLongForBooking(p, a)
    ensures var q, job := FinishPreprocessing(p, |workers|, a, now), Prepared(p.jobs[id], a.duration, now);
            q == p.(jobs := p.jobs[id := job], workers := workers,
                    booked := Enqueue(p.booked, QueuedJob(id, Some(a.duration)), None, TokenOf(id, ExecQ)))
  {
    hide Enqueue, TokenOf, Moved;
    assert p.workers[..|workers|] + p.workers[|workers| + 1..] == workers;
    MovedKeeps(p.jobs[id].(estimated := Some(a.duration)), ExecQ, now);
    var prepared := p.jobs[id := p.jobs[id].(estimated := Some(a.duration))];
    assert prepared[id := Moved(prepared[id], ExecQ, now)] == p.jobs[id := Prepared(p.jobs[id], a.duration, now)];
  }

  lemma MovedKeeps(job: Job, stage: Stage, now: int)
    ensures var moved := Moved(job, stage, now);
            && moved.id == job.id && moved.estimated == job.estimated
            && moved.status == NextStatus(job.status, stage)
  {
  }

  lemma NormalStarted(p: Pipeline, key: StorageId, now: int)
    requires Waits(p.normal, key, None) && key.uuid in p.jobs
    ensures var q, id := StartNormal(p, 0, now), key.uuid;
            && q.normal.queue.list == []
            && q == p.(jobs := p.jobs[id := Moved(p.jobs[id], ExecW, now)],
                       normal := q.normal, workers := p.workers + [Worker(id, Task.Executing)])
  {
    hide Fire, Handed, Moved;
    FiredWasWaiting(p.normal, key, None);
    HasToken(p.normal, key, None);
  }

  lemma ReachOneMore(run: seq<Timed>, step: Step, at: int)
    ensures Reach(run + [Timed(step, at)]) == After(Reach(run), step, at)
    ensures forall place :: MissedBy(run + [Timed(step, at)], place) ==
              MissedBy(run, place) + if step.Cancellation? then Missed(Reach(run), step.id, place) else 0.0
  {
    hide After, Missed;
    assert (run + [Timed(step, at)])[..|run|] == run;
  }

  /** All steps at one time. */
  ghost predicate AtOnce(run: seq<Timed>, at: int) {
    forall timed :: timed in run ==> timed.now == at
  }

  lemma AtOnceRuns(run: seq<Timed>, at: int)
    requires AtOnce(run, at)
    ensures ClockRuns(run)
  {
    forall i, j | 0 <= i < j < |run|
      ensures run[i].now <= run[j].now
    {
      assert run[i] in run && run[j] in run;
    }
  }

  // --- a job on its way to a worker ---

  const NOTHING_AHEAD := Admission(0.0, 0.0, None, None, false)

  /** A job is submitted, and taken by a worker to be prepared. */
  lemma Brought(run: seq<Timed>, id: string, booking: Args, at: int) returns (more: seq<Timed>)
    requires AtOnce(run, at) && id !in Reach(run).jobs && Reach(run).preprocessing.queue.list == []
    ensures AtOnce(more, at) && more != [] && forall place :: MissedBy(more, place) == MissedBy(run, place)
    ensures var p, q := Reach(run), Reach(more);
            && q == p.(jobs := p.jobs[id := Moved(NewJob(id), PreProcW, at)],
                       preprocessing := q.preprocessing, workers := p.workers + [Worker(id, Preprocessing(booking))])
            && q.preprocessing.queue.list == []
  {
    hide Reach, Enqueue, Waits, Moved, MissedBy;
    var p := Reach(run);
    Submitted(p, id, booking);
    ReachOneMore(run, Submission(id, booking), at);
    more := run + [Timed(Submission(id, booking), at)];
    var p1 := Reach(more);
    PreprocessingStarted(p1, id, booking, at);
    ReachOneMore(more, PreprocessingStarts(0, true), at);
    more := more + [Timed(PreprocessingStarts(0, true), at)];
    assert p1.jobs[id := Moved(NewJob(id), PreProcW, at)] == p.jobs[id := Moved(NewJob(id), PreProcW, at)];
  }

  /** One job waits in the normal queue of an otherwise idle pipeline. */
  ghost predicate OnlyWaits(p: Pipeline, id: string, duration: Seconds) {
    && Waits(p.normal, StorageId(id, duration), None) && p.waitlist.list == []
    && p.preprocessing.queue.list == [] && p.postprocessing.queue.list == [] && p.workers == []
    && p.jobs.Keys == {id} && p.jobs[id].id == id && p.jobs[id].estimated == Some(duration)
    && p.jobs[id].status == Pending
  }

  lemma FirstOnNormalQueue(p: Pipeline, id: string, duration: Seconds, at: int)
    requires p.preprocessing.queue.list == []
    requires p == EmptyPipeline().(jobs := map[id := Moved(NewJob(id), PreProcW, at)],
                                   preprocessing := p.preprocessing, workers := [Worker(id, Preprocessing(None))])
    ensures OnlyWaits(FinishPreprocessing(p, 0, NOTHING_AHEAD.(duration := duration), at), id, duration)
  {
    hide Enqueue, Waits, Moved, FinishPreprocessing;
    var a := NOTHING_AHEAD.(duration := duration);
    MovedKeeps(NewJob(id), PreProcW, at);
    PreparedForNormal(p, [], id, a, at);
    MovedKeeps(p.jobs[id].(estimated := Some(duration)), ExecQ, at);
    EnqueuedWaits(p.normal, QueuedJob(id, Some(duration)), None, TokenOf(id, ExecQ));
  }

  /** Submitted and prepared outside bookings, the job waits there. */
  lemma OnNormalQueue(id: string, duration: Seconds, at: int) returns (run: seq<Timed>)
    ensures AtOnce(run, at) && run != [] && (forall place :: MissedBy(run, place) == 0.0)
    ensures OnlyWaits(Reach(run), id, duration)
  {
    hide Reach, Moved, MissedBy, OnlyWaits, FinishPreprocessing;
    NothingReached();
    run := Brought([], id, None, at);
    assert map[][id := Moved(NewJob(id), PreProcW, at)] == map[id := Moved(NewJob(id), PreProcW, at)];
    FirstOnNormalQueue(Reach(run), id, duration, at);
    var a := NOTHING_AHEAD.(duration := duration);
    ReachOneMore(run, PreprocessingEnds(0, a), at);
    run := run + [Timed(PreprocessingEnds(0, a), at)];
  }

  lemma NothingReached()
    ensures Reach([]) == EmptyPipeline() && (forall place :: MissedBy([], place) == 0.0) && forall at :: AtOnce([], at)
  {
  }

  /** And then it is executed. */
  lemma OnWorker(id: string, duration: Seconds, at: int) returns (run: seq<Timed>)
    ensures AtOnce(run, at) && run != [] && (forall place :: MissedBy(run, place) == 0.0)
    ensures var p := Reach(run);
            && p.normal.queue.list == [] && p.workers == [Worker(id, Task.Executing)]
            && p.preprocessing.queue.list == [] && p.postprocessing.queue.list == []
            && p.jobs.Keys == {id} && p.jobs[id].id == id && p.jobs[id].estimated == Some(duration)
            && p.jobs[id].status == Status.Executing
  {
    hide Reach, Enqueue, Waits, Moved, MissedBy;
    run := OnNormalQueue(id, duration, at);
    var p := Reach(run);
    NormalStarted(p, StorageId(id, duration), at);
    MovedKeeps(p.jobs[id], ExecW, at);
    ReachOneMore(run, NormalStarts(0), at);
    run := run + [Timed(NormalStarts(0), at)];
  }

  // --- a job is lost ---

  /** A job that is executed, but whose results file cannot be moved. */
  lemma JobIsLost(id: string, duration: Seconds, at: int) returns (run: seq<Timed>)
    ensures ClockRuns(run) && !NothingLost(Reach(run))
    ensures var p := Reach(run); id in p.jobs && !p.jobs[id].status.IsTerminal() && Nowhere(p, id)
  {
    hide Reach, Enqueue, Waits, Moved, Nowhere;
    run := OnWorker(id, duration, at);
    var p := Reach(run);
    var key := StorageId(id, duration);
    ExecutionFinished(p, id, at);
    MovedKeeps(p.jobs[id], PstProcQ, at);
    ReachOneMore(run, ExecutionEnds(0), at);
    run := run + [Timed(ExecutionEnds(0), at)];
    var q := Reach(run);
    AtOnceRuns(run, at);
    EveryRun(run);
    FiredWasWaiting(q.postprocessing, key, None);
    HasToken(q.postprocessing, key, None);
    Abandoned(q, id, at);
    ReachOneMore(run, PostprocessingStarts(0, false), at);
    run := run + [Timed(PostprocessingStarts(0, false), at)];
    AtOnceRuns(run, at);
  }

  lemma ExecutionFinished(p: Pipeline, id: string, now: int)
    requires p.workers == [Worker(id, Task.Executing)] && id in p.jobs && p.jobs[id].id == id
    requires p.jobs[id].status != Cancelled && p.jobs[id].estimated.Some? && p.postprocessing.queue.list == []
    ensures var q := FinishExecuting(p, 0, now);
            && q.jobs == p.jobs[id := Moved(p.jobs[id], PstProcQ, now)]
            && Waits(q.postprocessing, StorageId(id, p.jobs[id].estimated.value), None)
  {
    hide Enqueue, Waits, Moved;
    var moved := Moved(p.jobs[id], PstProcQ, now);
    MovedKeeps(p.jobs[id], PstProcQ, now);
    EnqueuedWaits(p.postprocessing, moved.Queued(), None, TokenOf(id, PstProcQ));
  }

  lemma Abandoned(p: Pipeline, id: string, now: int)
    requires Inv(p, now) && id in p.jobs && !p.jobs[id].status.IsTerminal() && |p.postprocessing.tokens| >= 1
    requires Handed(p.postprocessing).Some? && Handed(p.postprocessing).value.job.jobId == id
    ensures var q := After(p, PostprocessingStarts(0, false), now);
            id in q.jobs && q.jobs[id] == p.jobs[id] && Nowhere(q, id) && !NothingLost(q)
  {
    hide Inv, Nowhere, Effect, Handed, Fire;
    var _ := StartingPostprocessing(p, now, 0, false);
  }

  // --- a job is admitted though it does not fit ---

  /** A job of length c, cancelled while it is executed. */
  lemma CancelledOnWorker(id: string, c: Seconds, at: int) returns (run: seq<Timed>)
    ensures AtOnce(run, at) && run != [] && MissedBy(run, NormalQueue) == c
    ensures var p := Reach(run);
            p.normal.queue.list == [] && p.preprocessing.queue.list == [] && |p.workers| == 1 && p.jobs.Keys == {id}
  {
    hide Reach, MissedBy, Cancel, Inv, Missed;
    run := OnWorker(id, c, at);
    AtOnceRuns(run, at);
    EveryRun(run);
    CancelledElsewhere(Reach(run), id, Clock(run));
    ReachOneMore(run, Cancellation(id), at);
    AfterCancellation(Reach(run), id, at);
    run := run + [Timed(Cancellation(id), at)];
  }

  /** A job of length c is cancelled while it is executed.  A job of length d is then
      put on the normal queue, though the next booking starts in less than that: the
      cancelled job counts as time gained. */
  lemma AdmittedThoughTooLong(cancelled: string, id: string, c: Seconds, d: Seconds, next: real, at: int)
    returns (run: seq<Timed>)
    requires cancelled != id && next < d <= next + c
    ensures ClockRuns(run) && run != []
    ensures var before, a := run[..|run| - 1], Admission(d, 0.0, Some(next), None, false);
            && run[|run| - 1].step == PreprocessingEnds(1, a) && a.duration > a.next.value
            && MissedBy(before, NormalQueue) == c && Reach(before).normal.queue.list == []
            && Reach(run).normal.queue.list == [StorageId(id, d)]
  {
    hide Reach, Enqueue, Waits, Moved, MissedBy;
    var first := CancelledOnWorker(cancelled, c, at);
    var before := Brought(first, id, None, at);
    MovedKeeps(NewJob(id), PreProcW, at);
    var p, a := Reach(before), Admission(d, 0.0, Some(next), None, false);
    AtOnceRuns(before, at);
    TotalsAreConserved(before, NormalQueue);
    EmptySum(p);
    PreparedForNormal(p, Reach(first).workers, id, a, at);
    EnqueuedWaits(p.normal, QueuedJob(id, Some(d)), None, TokenOf(id, ExecQ));
    WaitsAlone(Enqueue(p.normal, QueuedJob(id, Some(d)), None, TokenOf(id, ExecQ)), StorageId(id, d));
    ReachOneMore(before, PreprocessingEnds(1, a), at);
    run := before + [Timed(PreprocessingEnds(1, a), at)];
    assert run[..|run| - 1] == before;
    AtOnceRuns(run, at);
  }

  lemma WaitsAlone(r: Runner<Args>, key: StorageId)
    requires Waits(r, key, None)
    ensures r.queue.list == [key]
  {
  }

  lemma EmptySum(p: Pipeline)
    ensures p.normal.queue.list == [] ==> Sum(At(p, NormalQueue).list) == 0.0
    ensures p.booked.queue.list == [] ==> Sum(At(p, BookedQueue).list) == 0.0
    ensures At(p, NormalQueue) == p.normal.queue && At(p, BookedQueue) == p.booked.queue
  {
  }

  /** Cancelling a job that is executed takes its length off the total of a queue that
      has not got it. */
  lemma CancelledElsewhere(p: Pipeline, id: string, now: int)
    requires Inv(p, now) && p.workers == [Worker(id, Task.Executing)] && p.jobs.Keys == {id} && p.jobs[id].id == id
    requires p.jobs[id].estimated.Some? && p.normal.queue.list == [] && p.preprocessing.queue.list == []
    ensures var q := Cancel(p, id);
            && Missed(p, id, NormalQueue) == p.jobs[id].estimated.value
            && q.normal.queue.list == [] && q.preprocessing.queue.list == [] && q.workers == p.workers
            && q.jobs.Keys == {id}
  {
    hide Inv, CancelToken;
    assert RemoveFirst<StorageId>([], p.jobs[id].Key()) == [];
    assert RemoveFirst<StorageId>([], StorageId(id, 0.0)) == [];
    assert p.jobs[id := p.jobs[id].(status := Cancelled)].Keys == {id};
  }

  // --- a job is admitted in a booking that is all but over ---

  /** The whole booking counts: a job that takes all of it is admitted at any time of
      the booking, and so will end after it unless that is the first moment. */
  lemma AdmittedAtTheEnd(id: string, booking: string, start: int, end: int, now: int) returns (run: seq<Timed>)
    requires start < now <= end
    ensures ClockRuns(run) && run != []
    ensures var before := run[..|run| - 1];
            var a := Admission((end - start) as real, 0.0, None, Some(Active(start, end, true)), false);
            && run[|run| - 1] == Timed(PreprocessingEnds(0, a), now)
            && BusyFor(Reach(before), a) > TimeLeft(a.active.value, now)
            && Reach(run).booked.queue.list == [StorageId(id, a.duration)]
  {
    hide Reach, Enqueue, Waits, Moved, MissedBy;
    NothingReached();
    var before := Brought([], id, Some(booking), now);
    MovedKeeps(NewJob(id), PreProcW, now);
    var length: Seconds := (end - start) as real;
    var p, a := Reach(before), Admission(length, 0.0, None, Some(Active(start, end, true)), false);
    AtOnceRuns(before, now);
    TotalsAreConserved(before, BookedQueue);
    EmptySum(p);
    PreparedForBooked(p, [], id, booking, a, now);
    EnqueuedWaits(p.booked, QueuedJob(id, Some(length)), None, TokenOf(id, ExecQ));
    WaitsAlone(Enqueue(p.booked, QueuedJob(id, Some(length)), None, TokenOf(id, ExecQ)), StorageId(id, length));
    ReachOneMore(before, PreprocessingEnds(0, a), now);
    run := before + [Timed(PreprocessingEnds(0, a), now)];
    assert run[..|run| - 1] == before;
    AtOnceRuns(run, now);
  }

  // --- a sweep queues more than fits before a booking ---

  /** The last worker has prepared its job, which goes to the waitlist. */
  lemma PreparedForWaitlist(p: Pipeline, workers: seq<Worker>, id: string, a: Admission, now: int)
    requires p.workers == workers + [Worker(id, Preprocessing(None))] && id in p.jobs && p.jobs[id].id == id
    requires TooLongForNormal(p, a) && p.waitlist.list == []
    ensures var q := FinishPreprocessing(p, |workers|, a, now);
            q.normal == p.normal && q.waitlist.list == [StorageId(id, a.duration)]
  {
    hide TokenOf, Moved;
    assert p.workers[..|workers|] + p.workers[|workers| + 1..] == workers;
  }

  /** A job alone on the waitlist that fits is swept. */
  lemma OneIsSwept(p: Pipeline, now: int, key: StorageId, next: real)
    requires Inv(p, now) && p.waitlist.list == [key] && next > 0.0 && key.duration <= next
    ensures WaitlistToNormal(p, Some(next), now).normal.queue.list == p.normal.queue.list + [key]
  {
    hide Inv, PopMany, AdmitAll, InPlace;
    PlacesHold(p, now, WaitingList);
    WaitingIsNonNegative(p.jobs, p.waitlist);
    PopManyProperties.CompleteUpToOneBatch(p.waitlist, Some(next));
    var popped := SweptJobsAreQueued(p, now, Some(next));
    OneIsSplit(key, popped, PopMany(p.waitlist, Some(next)).queue.list);
  }

  lemma AmongOne(key: StorageId, ids: set<StorageId>, keep: bool)
    ensures QueueProperties.Among([key], ids, keep) == if (key in ids) == keep then [key] else []
  {
    assert QueueProperties.Among([], ids, keep) == [];
    assert [key][..0] == [];
  }

  lemma OneIsSplit(key: StorageId, popped: seq<StorageId>, rest: seq<StorageId>)
    requires QueueProperties.Splits([key], popped, rest)
    ensures popped == [key] || (popped == [] && key in rest)
  {
    var ids := QueueProperties.IdsOf(popped);
    AmongOne(key, ids, true);
    AmongOne(key, ids, false);
  }

  /** A job of length d is waitlisted, since it does not fit behind one of length c. */
  lemma WaitsBehind(first: string, id: string, c: Seconds, d: Seconds, next: real, at: int) returns (run: seq<Timed>)
    requires first != id && next < c + d
    ensures AtOnce(run, at) && run != []
    ensures run[|run| - 1].step == PreprocessingEnds(0, Admission(d, 0.0, Some(next), None, false))
    ensures Reach(run).normal.queue.list == [StorageId(first, c)] && Reach(run).waitlist.list == [StorageId(id, d)]
  {
    hide Reach, Enqueue, Waits, Moved, MissedBy;
    run := OnNormalQueue(first, c, at);
    run := Brought(run, id, None, at);
    MovedKeeps(NewJob(id), PreProcW, at);
    var p, a := Reach(run), Admission(d, 0.0, Some(next), None, false);
    AtOnceRuns(run, at);
    TotalsAreConserved(run, NormalQueue);
    QueuedAlone(p, StorageId(first, c));
    PreparedForWaitlist(p, [], id, a, at);
    ReachOneMore(run, PreprocessingEnds(0, a), at);
    run := run + [Timed(PreprocessingEnds(0, a), at)];
  }

  /** The job is waitlisted, since it does not fit before the next booking.  The sweep
      then puts it there all the same. */
  lemma SweptThoughTooLong(first: string, id: string, c: Seconds, d: Seconds, next: real, at: int)
    returns (run: seq<Timed>)
    requires first != id && 0.0 < next && d <= next < c + d
    ensures ClockRuns(run) && |run| >= 2
    ensures run[|run| - 2].step == PreprocessingEnds(0, Admission(d, 0.0, Some(next), None, false))
    ensures run[|run| - 1].step == WaitlistFeedsNormal(Some(next))
    ensures Reach(run[..|run| - 1]).waitlist.list == [StorageId(id, d)]
    ensures var list := Reach(run).normal.queue.list;
            list == [StorageId(first, c), StorageId(id, d)] && Sum(list) > next
  {
    hide Reach, Inv, WaitlistToNormal;
    var before := WaitsBehind(first, id, c, d, next, at);
    AtOnceRuns(before, at);
    EveryRun(before);
    OneIsSwept(Reach(before), at, StorageId(id, d), next);
    ReachOneMore(before, WaitlistFeedsNormal(Some(next)), at);
    run := before + [Timed(WaitlistFeedsNormal(Some(next)), at)];
    assert run[..|run| - 1] == before;
    AtOnceRuns(run, at);
    SumOfTwo(StorageId(first, c), StorageId(id, d));
  }

  lemma QueuedAlone(p: Pipeline, key: StorageId)
    requires Waits(p.normal, key, None)
    ensures p.normal.queue.list == [key] && At(p, NormalQueue) == p.normal.queue && Sum([key]) == key.duration
  {
  }

  lemma SumOfTwo(a: StorageId, b: StorageId)
    ensures Sum([a, b]) == a.duration + b.duration
  {
    assert [a, b][..1] == [a] && [a, b][1..] == [b] && [b][1..] == [] && [a][..0] == [];
    assert Sum([a]) == a.duration && Sum([b]) == b.duration;
  }
}
