/** What each step of the pipeline does, said of lists, workers and records. */
module PipelineActions {
  import opened Wrappers
  import opened Queues
  import opened QueueProperties
  import opened Runners
  import opened Jobs
  import opened Pipelines
  import opened PipelineStates
  import opened PipelineSteps

  // --- stages ---

  /** A job gets to its next stage: the labels of that stage get the present time, all
      others stay; and unless it has ended, its status is that of the stage. */
  lemma MovingMeans(job: Job, stage: Stage, now: int)
    requires JobOk(job, now) && stage.Number() == job.stage.Number() + 1
    ensures var job' := Moved(job, stage, now);
            && job'.id == job.id && job'.stage == stage && job'.estimated == job.estimated
            && job'.status == (if job.status in {Failed, Successful, Cancelled} then job.status
                               else if stage == ExecQ then Pending
                               else if stage == FinalW then Successful
                               else Status.Executing)
            && (forall at :: at in job'.stamps <==> at in job.stamps || StageOfLabel(at) == stage.Number())
            && (forall at :: at in job'.stamps ==> job'.stamps[at] == if at in job.stamps then job.stamps[at] else now)
  {
    LabelsOfStage(stage);
  }

  // --- names of tokens ---

  /** The last character of the name of a stage, its third and fourth from the end, and
      the eighth if there is one, tell the stage. */
  lemma StageEndings(stage: Stage)
    ensures var s := StageName(stage);
            && |s| >= 5
            && s[|s| - 1] == (if stage in {RegQ, PreProcQ, ExecQ, PstProcQ, FinalQ} then 'Q' else 'W')
            && s[|s| - 3] == (if stage in {RegQ, RegW} then 'G' else if stage in {FinalQ, FinalW} then 'L' else 'C')
            && s[|s| - 4] == (if stage in {PreProcQ, PreProcW, PstProcQ, PstProcW} then 'O'
                              else if stage in {FinalQ, FinalW} then 'A' else 'E')
            && (stage in {PreProcQ, PreProcW, PstProcQ, PstProcW} ==>
                  |s| == 10 && s[2] == if stage in {PreProcQ, PreProcW} then 'E' else 'T')
  {
  }

  /** Stages with the same such characters are the same. */
  lemma EndingsTell(s: Stage, t: Stage)
    requires |StageName(s)| >= 5 && |StageName(t)| >= 5
    requires StageName(s)[|StageName(s)| - 1] == StageName(t)[|StageName(t)| - 1]
    requires StageName(s)[|StageName(s)| - 3] == StageName(t)[|StageName(t)| - 3]
    requires StageName(s)[|StageName(s)| - 4] == StageName(t)[|StageName(t)| - 4]
    requires |StageName(s)| == 10 && |StageName(t)| == 10 ==> StageName(s)[2] == StageName(t)[2]
    ensures s == t
  {
    hide StageName;
    StageEndings(s);
    StageEndings(t);
  }

  lemma SameEnd(x: string, n: string, y: string, m: string, k: nat)
    requires x + n == y + m && 1 <= k <= |n| && k <= |m|
    ensures n[|n| - k] == m[|m| - k]
  {
    assert (x + n)[|x + n| - k] == n[|n| - k];
    assert (y + m)[|y + m| - k] == m[|m| - k];
  }

  /** Of two tokens that the tasks create, the ids are the same exactly if they are for
      the same stage of the same job. */
  lemma TokensAreTold(a: string, s: Stage, b: string, t: Stage)
    ensures TokenOf(a, s) == TokenOf(b, t) <==> a == b && s == t
  {
    hide StageName;
    StageEndings(s);
    StageEndings(t);
    var x, y, n, m := a + "_", b + "_", StageName(s), StageName(t);
    if x + n == y + m {
      SameEnd(x, n, y, m, 1);
      SameEnd(x, n, y, m, 3);
      SameEnd(x, n, y, m, 4);
      if |n| == 10 && |m| == 10 {
        SameEnd(x, n, y, m, 8);
      }
      EndingsTell(s, t);
      assert |a| == |b|;
      assert a == (x + n)[..|a|] == (y + m)[..|a|] == b;
    }
  }

  // --- which job waits first ---

  /** With a limit, the first job below it is meant, and none if there is none; with no
      limit, the first of all. */
  lemma {:induction false} FirstShortJob(list: seq<StorageId>, usable: Budget) returns (at: nat)
    ensures at <= |list|
    ensures forall j :: 0 <= j < at ==> usable.Some? && list[j].duration >= usable.value
    ensures at < |list| && usable.Some? ==> list[at].duration < usable.value
    ensures FirstShorter(list, usable) == if at < |list| then Some(list[at]) else None
  {
    if list == [] || usable.None? || list[0].duration < usable.value {
      at := 0;
    } else {
      var rest := FirstShortJob(list[1..], usable);
      at := rest + 1;
    }
  }

  /** The sweep into a booking, in durations: the first waiting job that is shorter
      than the time to the next booking, all before it being no shorter, goes from its
      place to the end of the booked queue; if there is none, nothing happens.  Without
      a next booking, the head goes. */
  lemma ShortJobMoves(p: Pipeline, now: int, usable: Budget) returns (at: nat)
    requires Inv(p, now)
    ensures var list, q := p.waitlist.list, WaitlistToBooking(p, usable, now);
            && at <= |list|
            && (forall j :: 0 <= j < at ==> usable.Some? && list[j].duration >= usable.value)
            && (at == |list| ==> q == p)
            && (at < |list| ==>
                  && (usable.Some? ==> list[at].duration < usable.value)
                  && q.waitlist.list == list[..at] + list[at + 1..]
                  && q.booked.queue.list == p.booked.queue.list + [list[at]])
  {
    hide Inv, FirstShorter, WaitlistToBooking, Queue<Args>.Valid;
    var list := p.waitlist.list;
    at := FirstShortJob(list, usable);
    var _ := FeedingBooking(p, now, usable);
    if at < |list| {
      PlacesHold(p, now, WaitingList);
      WaitingIsDistinct(p, now);
      RemovedAt(list, at);
    }
  }

  lemma WaitingIsDistinct(p: Pipeline, now: int)
    requires Inv(p, now)
    ensures forall i, j :: 0 <= i < j < |p.waitlist.list| ==> p.waitlist.list[i] != p.waitlist.list[j]
  {
    PlacesHold(p, now, WaitingList);
  }

  /** If nothing is ahead of it, the job that is moved ends before the next booking. */
  lemma MovedEndsInTime(p: Pipeline, now: int, usable: real)
    requires Inv(p, now) && p.booked.queue.list == []
    ensures var list := WaitlistToBooking(p, Some(usable), now).booked.queue.list;
            |list| <= 1 && (list != [] ==> Sum(list) < usable)
  {
    var at := ShortJobMoves(p, now, Some(usable));
    if at < |p.waitlist.list| {
      SumOne(p.waitlist.list[at]);
    }
  }

  // --- starts ---

  /** A token fires: it goes, and with it the head of the list, which is handed out. */
  lemma HeadIsHanded(jobs: map<string, Job>, r: Runner<Args>, stage: Stage, at: nat)
    requires InPlace(jobs, r.queue, stage) && at < |r.tokens|
    ensures Fire(r, at).tokens == r.tokens[..at] + r.tokens[at + 1..]
    ensures r.queue.list == [] ==> Handed(r).None? && Fire(r, at).queue == r.queue
    ensures r.queue.list != [] ==>
              var key := r.queue.list[0];
              && Fire(r, at).queue.list == r.queue.list[1..]
              && key.uuid in jobs && key in r.queue.args
              && Handed(r).Some? && Handed(r).value.job.jobId == key.uuid && Handed(r).value.args == r.queue.args[key]
  {
    if r.queue.list != [] {
      var key := r.queue.list[0];
      assert key in r.queue.list;
      assert r.queue.jobs[key].Key() == key;
    }
  }

  /** A new job: pending, with nothing written, last in the list for preprocessing. */
  lemma SubmissionMeans(p: Pipeline, id: string, booking: Args)
    ensures var q, key := Submit(p, id, booking), StorageId(id, 0.0);
            if id in p.jobs then q == p
            else
              && q.jobs == p.jobs[id := Job(id, PreProcQ, Pending, None, map[])]
              && q.preprocessing.queue.list == p.preprocessing.queue.list + [key]
              && key in q.preprocessing.queue.args && q.preprocessing.queue.args[key] == booking
              && |q.preprocessing.tokens| == |p.preprocessing.tokens| + 1
              && q == p.(jobs := q.jobs, preprocessing := q.preprocessing)
  {
  }

  /** A worker takes the job that waits first for preprocessing, with its booking; or
      fails it, if its file cannot be read. */
  lemma PreprocessingStartMeans(p: Pipeline, now: int, at: nat, readable: bool)
    requires Inv(p, now) && at < |p.preprocessing.tokens|
    ensures var q, list := StartPreprocessing(p, at, readable, now), p.preprocessing.queue.list;
            && q.preprocessing.tokens == p.preprocessing.tokens[..at] + p.preprocessing.tokens[at + 1..]
            && q == p.(jobs := q.jobs, preprocessing := q.preprocessing, workers := q.workers)
            && (list == [] ==> q.jobs == p.jobs && q.workers == p.workers && q.preprocessing.queue.list == [])
            && (list != [] ==>
                  var id := list[0].uuid;
                  && id in p.jobs && list[0] in p.preprocessing.queue.args
                  && q.preprocessing.queue.list == list[1..]
                  && q.jobs == p.jobs[id := if readable then Moved(p.jobs[id], PreProcW, now)
                                            else p.jobs[id].(status := Failed)]
                  && q.workers == p.workers + if readable
                       then [Worker(id, Preprocessing(p.preprocessing.queue.args[list[0]]))] else [])
  {
    hide Inv, InPlace, Fire, Handed, Moved;
    PlacesHold(p, now, PreprocessingQueue);
    HeadIsHanded(p.jobs, p.preprocessing, PreProcQ, at);
  }

  /** A worker takes the job that waits first for execution, in either queue. */
  lemma ExecutionStartMeans(p: Pipeline, now: int, at: nat, inBooking: bool)
    requires Inv(p, now) && at < |(if inBooking then p.booked else p.normal).tokens|
    ensures var q, r := if inBooking then StartBooked(p, at, now) else StartNormal(p, at, now),
                        if inBooking then p.booked else p.normal;
            var r' := if inBooking then q.booked else q.normal;
            && r'.tokens == r.tokens[..at] + r.tokens[at + 1..]
            && q == (if inBooking then p.(jobs := q.jobs, booked := r', workers := q.workers)
                     else p.(jobs := q.jobs, normal := r', workers := q.workers))
            && (r.queue.list == [] ==> q.jobs == p.jobs && q.workers == p.workers && r'.queue.list == [])
            && (r.queue.list != [] ==>
                  var id := r.queue.list[0].uuid;
                  && id in p.jobs && r'.queue.list == r.queue.list[1..]
                  && q.jobs == p.jobs[id := Moved(p.jobs[id], ExecW, now)]
                  && q.workers == p.workers + [Worker(id, Task.Executing)])
  {
    hide Inv, InPlace, Fire, Handed, Moved;
    if inBooking {
      PlacesHold(p, now, BookedQueue);
      HeadIsHanded(p.jobs, p.booked, ExecQ, at);
    } else {
      PlacesHold(p, now, NormalQueue);
      HeadIsHanded(p.jobs, p.normal, ExecQ, at);
    }
  }

  /** A worker takes the job that waits first for postprocessing; or the job is taken
      off the list and left, if its file cannot be moved. */
  lemma PostprocessingStartMeans(p: Pipeline, now: int, at: nat, movable: bool)
    requires Inv(p, now) && at < |p.postprocessing.tokens|
    ensures var q, list := StartPostprocessing(p, at, movable, now), p.postprocessing.queue.list;
            && q.postprocessing.tokens == p.postprocessing.tokens[..at] + p.postprocessing.tokens[at + 1..]
            && q == p.(jobs := q.jobs, postprocessing := q.postprocessing, workers := q.workers)
            && (list == [] || !movable ==> q.jobs == p.jobs && q.workers == p.workers)
            && (list == [] ==> q.postprocessing.queue.list == [])
            && (list != [] ==>
                  var id := list[0].uuid;
                  && id in p.jobs && q.postprocessing.queue.list == list[1..]
                  && (movable ==>
                        && q.jobs == p.jobs[id := Moved(p.jobs[id], PstProcW, now)]
                        && q.workers == p.workers + [Worker(id, Postprocessing)]))
  {
    hide Inv, InPlace, Fire, Handed, Moved;
    PlacesHold(p, now, PostprocessingQueue);
    HeadIsHanded(p.jobs, p.postprocessing, PstProcQ, at);
  }

  // --- ends ---

  function Without(workers: seq<Worker>, i: nat): seq<Worker>
    requires i < |workers|
  {
    workers[..i] + workers[i + 1..]
  }

  /** A worker that has prepared or executed its job, or failed to, or called back, has
      it no longer; a prepared job has its estimate. */
  lemma WorkerIsFree(p: Pipeline, step: Step, now: int)
    requires Inv(p, now)
    requires match step
             case PreprocessingEnds(i, _) => i < |p.workers| && p.workers[i].task.Preprocessing?
             case PreprocessingFails(i) => i < |p.workers| && p.workers[i].task.Preprocessing?
             case ExecutionEnds(i) => Works(p, i, Task.Executing)
             case ExecutionFails(i) => Works(p, i, Task.Executing)
             case PostprocessingCrashes(i) => Works(p, i, Postprocessing)
             case SuccessCallback(i) => Works(p, i, Returned)
             case FailureCallback(i) => Works(p, i, Raised)
             case _ => false
    ensures var q, id := After(p, step, now), p.workers[step.worker].jobId;
            && q.workers == Without(p.workers, step.worker)
            && (step.PreprocessingEnds? ==> id in q.jobs && q.jobs[id].estimated == Some(step.admission.duration))
  {
    hide Inv, Enqueue, Add, WithUpdates;
    BusyIsAtWork(p, now, step.worker);
  }

  /** A worker that has saved results waits for the success callback; one whose
      postprocessing raised an error, for the failure callback. */
  lemma WorkerWaits(p: Pipeline, i: nat, saved: bool)
    requires Works(p, i, Postprocessing)
    ensures SaveResults(p, i).workers == p.workers[i := Worker(p.workers[i].jobId, Returned)]
    ensures FailPostprocessing(p, i, saved).workers == p.workers[i := Worker(p.workers[i].jobId, Raised)]
  {
  }
}
