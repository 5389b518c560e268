/** What every reachable state of the pipeline satisfies, and the few kinds of
    change out of which all its steps are made. */
module PipelineStates {
  import opened Wrappers
  import opened Queues
  import opened Runners
  import opened Jobs
  import opened Pipelines

  datatype Place = PreprocessingQueue | WaitingList | NormalQueue | BookedQueue | PostprocessingQueue

  function At(p: Pipeline, place: Place): Queue<Args> {
    match place
    case PreprocessingQueue => p.preprocessing.queue
    case WaitingList => p.waitlist
    case NormalQueue => p.normal.queue
    case BookedQueue => p.booked.queue
    case PostprocessingQueue => p.postprocessing.queue
  }

  /** The stored stage of the jobs that are listed there. */
  function StageAt(place: Place): Stage {
    match place
    case PreprocessingQueue => PreProcQ
    case WaitingList => PreProcW
    case NormalQueue | BookedQueue => ExecQ
    case PostprocessingQueue => PstProcQ
  }

  /** The stored stage of the job a worker holds. */
  function StageDuring(task: Task): Stage {
    match task
    case Preprocessing(_) => PreProcW
    case Executing => ExecW
    case Postprocessing | Returned | Raised => PstProcW
  }

  // --- jobs ---

  /** The number of the stage at which the label is written. */
  function StageOfLabel(at: Label): nat {
    match at
    case Label(Registration, Started) => 1
    case Label(Registration, Finished) => 2
    case Label(PreProcessing, Started) => 3
    case Label(PreProcessing, Finished) => 4
    case Label(Execution, Started) => 5
    case Label(Execution, Finished) => 6
    case Label(PostProcessing, Started) => 7
    case Label(PostProcessing, Finished) => 8
    case Label(Final, Started) => 8
    case Label(Final, Finished) => 9
  }

  /** The labels written are those of the stages from preprocessing to the present
      one, and their times follow their order. */
  ghost predicate Stamped(job: Job, now: int) {
    && (forall at :: at in job.stamps <==> 3 <= StageOfLabel(at) <= job.stage.Number())
    && (forall at :: at in job.stamps ==> job.stamps[at] <= now)
    && (forall a, b :: a in job.stamps && b in job.stamps && a.Rank() <= b.Rank() ==> job.stamps[a] <= job.stamps[b])
  }

  ghost predicate JobOk(job: Job, now: int) {
    && Stamped(job, now)
    && job.stage.Number() >= 2
    && (job.stage.Number() == 2 ==> job.estimated.None?)
    && (!job.status.IsTerminal() ==> job.status == StatusOf(job.stage))
  }

  /** How a job may change: its stage does not go back, a written label is not
      written again, and an ended job stays ended. */
  ghost predicate Evolves(job: Job, job': Job) {
    && job'.id == job.id
    && job.stage.Number() <= job'.stage.Number()
    && (forall at :: at in job.stamps ==> at in job'.stamps && job'.stamps[at] == job.stamps[at])
    && (job.status.IsTerminal() ==> job'.status.IsTerminal())
  }

  /** The labels of a stage are those with its number. */
  lemma LabelsOfStage(stage: Stage)
    ensures forall at :: at in LabelsOf(stage) <==> StageOfLabel(at) == stage.Number()
  {
    forall at: Label
      ensures at in LabelsOf(stage) <==> StageOfLabel(at) == stage.Number()
    {
      match at
      case Label(phase, Started) =>
      case Label(phase, Finished) =>
    }
  }

  lemma RankFollowsStage(a: Label, b: Label)
    ensures a.Rank() <= b.Rank() ==> StageOfLabel(a) <= StageOfLabel(b)
  {
  }

  /** A job moves to its next stage. */
  lemma Moving(job: Job, stage: Stage, now: int)
    requires JobOk(job, now) && stage.Number() == job.stage.Number() + 1
    ensures JobOk(Moved(job, stage, now), now) && Evolves(job, Moved(job, stage, now))
  {
    hide Label.Rank, StageOfLabel, LabelsOf;
    LabelsOfStage(stage);
    var job' := Moved(job, stage, now);
    forall a, b | a in job'.stamps && b in job'.stamps && a.Rank() <= b.Rank()
      ensures job'.stamps[a] <= job'.stamps[b]
    {
      RankFollowsStage(a, b);
    }
  }

  // --- states ---

  ghost predicate Listed(list: seq<StorageId>, id: string) {
    exists x :: x in list && x.uuid == id
  }

  ghost predicate Busy(workers: seq<Worker>, id: string) {
    exists i :: 0 <= i < |workers| && workers[i].jobId == id
  }

  /** In no list, and with no worker. */
  ghost predicate Nowhere(p: Pipeline, id: string) {
    (forall place :: !Listed(At(p, place).list, id)) && !Busy(p.workers, id)
  }

  ghost predicate InPlace(jobs: map<string, Job>, q: Queue<Args>, stage: Stage) {
    && q.Valid()
    && forall x :: x in q.list ==> x.uuid in jobs && jobs[x.uuid].Key() == x && jobs[x.uuid].stage == stage
  }

  ghost predicate AtWork(jobs: map<string, Job>, worker: Worker) {
    && worker.jobId in jobs
    && jobs[worker.jobId].stage == StageDuring(worker.task)
    && (worker.task.Returned? ==> jobs[worker.jobId].status.IsTerminal())
  }

  ghost predicate Workforce(jobs: map<string, Job>, workers: seq<Worker>) {
    && (forall i :: 0 <= i < |workers| ==> AtWork(jobs, workers[i]))
    && (forall i, j :: 0 <= i < j < |workers| ==> workers[i].jobId != workers[j].jobId)
  }

  ghost predicate Store(jobs: map<string, Job>, now: int) {
    forall id :: id in jobs ==> jobs[id].id == id && JobOk(jobs[id], now)
  }

  /** The stage tells apart all places but two pairs, which have to be kept apart. */
  ghost predicate Inv(p: Pipeline, now: int) {
    && Store(p.jobs, now)
    && (forall place :: InPlace(p.jobs, At(p, place), StageAt(place)))
    && Workforce(p.jobs, p.workers)
    && (forall id :: Listed(At(p, NormalQueue).list, id) ==> !Listed(At(p, BookedQueue).list, id))
    && (forall id :: Listed(At(p, WaitingList).list, id) ==> !Busy(p.workers, id))
  }

  /** Only the given jobs have changed, or changed place. */
  ghost predicate SameElsewhere(p: Pipeline, p': Pipeline, ids: set<string>) {
    forall id :: id !in ids ==>
      && (id in p.jobs <==> id in p'.jobs)
      && (id in p.jobs ==> p'.jobs[id] == p.jobs[id])
      && (Nowhere(p, id) <==> Nowhere(p', id))
  }

  lemma InvLater(p: Pipeline, now: int, later: int)
    requires Inv(p, now) && now <= later
    ensures Inv(p, later)
  {
  }

  lemma ListedIsKey(p: Pipeline, now: int, place: Place, id: string)
    requires Inv(p, now) && Listed(At(p, place).list, id)
    ensures id in p.jobs && p.jobs[id].Key() in At(p, place).list && p.jobs[id].stage == StageAt(place)
  {
    assert InPlace(p.jobs, At(p, place), StageAt(place));
  }

  lemma BusyIsAtWork(p: Pipeline, now: int, i: nat)
    requires Inv(p, now) && i < |p.workers|
    ensures AtWork(p.jobs, p.workers[i])
  {
  }

  /** A new id is nowhere. */
  lemma UnknownIsNowhere(p: Pipeline, now: int, id: string)
    requires Inv(p, now) && id !in p.jobs
    ensures Nowhere(p, id)
  {
    forall place
      ensures !Listed(At(p, place).list, id)
    {
      if Listed(At(p, place).list, id) {
        ListedIsKey(p, now, place, id);
      }
    }
  }

  // --- the kinds of change ---

  /** Jobs leave a list. */
  lemma Leaving(p: Pipeline, p': Pipeline, now: int, place: Place, gone: set<string>)
    requires Inv(p, now) && p'.jobs == p.jobs && p'.workers == p.workers
    requires forall other :: other != place ==> At(p', other) == At(p, other)
    requires At(p', place).Valid()
    requires forall x :: x in At(p', place).list <==> x in At(p, place).list && x.uuid !in gone
    ensures Inv(p', now) && SameElsewhere(p, p', gone)
    ensures forall id :: id in gone && Listed(At(p, place).list, id) ==> Nowhere(p', id)
  {
    assert forall id :: Listed(At(p', place).list, id) <==> Listed(At(p, place).list, id) && id !in gone;
    assert forall other, id :: Listed(At(p', other).list, id) ==> Listed(At(p, other).list, id);
    LeavingKeeps(p, p', now, place);
    forall id | id in gone && Listed(At(p, place).list, id)
      ensures Nowhere(p', id)
    {
      OnlyThere(p, now, place, id);
    }
    SameByLists(p, p', gone);
  }

  lemma LeavingKeeps(p: Pipeline, p': Pipeline, now: int, place: Place)
    requires Inv(p, now) && p'.jobs == p.jobs && p'.workers == p.workers
    requires forall other :: other != place ==> At(p', other) == At(p, other)
    requires At(p', place).Valid()
    requires forall x :: x in At(p', place).list ==> x in At(p, place).list
    requires forall other, id :: Listed(At(p', other).list, id) ==> Listed(At(p, other).list, id)
    ensures Inv(p', now)
  {
    hide At, Listed, Busy, Store, Workforce;
    assert InPlace(p.jobs, At(p, place), StageAt(place));
    assert InPlace(p'.jobs, At(p', place), StageAt(place));
    forall other
      ensures InPlace(p'.jobs, At(p', other), StageAt(other))
    {
      assert InPlace(p.jobs, At(p, other), StageAt(other));
    }
  }

  /** A listed job is listed nowhere else, and no worker has it. */
  lemma OnlyThere(p: Pipeline, now: int, place: Place, id: string)
    requires Inv(p, now) && Listed(At(p, place).list, id)
    ensures forall other :: other != place ==> !Listed(At(p, other).list, id)
    ensures !Busy(p.workers, id)
  {
    hide Listed, Busy, InPlace, Store;
    ListedIsKey(p, now, place, id);
    forall other | other != place
      ensures !Listed(At(p, other).list, id)
    {
      if Listed(At(p, other).list, id) {
        ListedIsKey(p, now, other, id);
      }
    }
    if Busy(p.workers, id) {
      var i := WorkerOf(p.workers, id);
      BusyIsAtWork(p, now, i);
    }
  }

  lemma WorkerOf(workers: seq<Worker>, id: string) returns (i: nat)
    requires Busy(workers, id)
    ensures i < |workers| && workers[i].jobId == id
  {
    i :| 0 <= i < |workers| && workers[i].jobId == id;
  }

  /** A job joins a list. */
  lemma Joining(p: Pipeline, p': Pipeline, now: int, place: Place, id: string, args: Args)
    requires Inv(p, now) && id in p.jobs && Nowhere(p, id) && p.jobs[id].stage == StageAt(place)
    requires p'.jobs == p.jobs && p'.workers == p.workers
    requires forall other :: other != place ==> At(p', other) == At(p, other)
    requires At(p', place) == Add(At(p, place), p.jobs[id].Queued(), args)
    ensures Inv(p', now) && SameElsewhere(p, p', {id}) && !Nowhere(p', id)
  {
    hide At, Listed, Busy, InPlace, Store, Workforce, Queue<Args>.Valid, Add;
    StoredUnderId(p.jobs, now, id);
    JoiningList(p.jobs, At(p, place), StageAt(place), id, args);
    forall other
      ensures InPlace(p'.jobs, At(p', other), StageAt(other))
    {
      assert InPlace(p.jobs, At(p, other), StageAt(other));
    }
    SameByLists(p, p', {id});
  }

  lemma JoiningList(jobs: map<string, Job>, q: Queue<Args>, stage: Stage, id: string, args: Args)
    requires InPlace(jobs, q, stage) && id in jobs && jobs[id].id == id && jobs[id].stage == stage &&
             !Listed(q.list, id)
    ensures var q' := Add(q, jobs[id].Queued(), args);
            && InPlace(jobs, q', stage)
            && forall other :: Listed(q'.list, other) <==> Listed(q.list, other) || other == id
  {
    var key := jobs[id].Key();
    assert key !in q.list;
    var list' := q.list + [key];
    forall other | Listed(q.list, other) || other == id
      ensures Listed(list', other)
    {
      if Listed(q.list, other) {
        var x :| x in q.list && x.uuid == other;
        assert x in list';
      } else {
        assert key in list';
      }
    }
  }

  lemma SameByLists(p: Pipeline, p': Pipeline, ids: set<string>)
    requires p'.jobs == p.jobs && p'.workers == p.workers
    requires forall place, id :: id !in ids ==> (Listed(At(p', place).list, id) <==> Listed(At(p, place).list, id))
    ensures SameElsewhere(p, p', ids)
  {
    hide Listed, At, Busy;
  }

  lemma StoredUnderId(jobs: map<string, Job>, now: int, id: string)
    requires Store(jobs, now) && id in jobs
    ensures jobs[id].id == id && JobOk(jobs[id], now)
  {
  }

  /** A job that is nowhere is stored anew, or for the first time. */
  lemma Storing(p: Pipeline, now: int, job: Job)
    requires Inv(p, now) && Nowhere(p, job.id) && JobOk(job, now)
    ensures var p' := p.(jobs := p.jobs[job.id := job]);
            Inv(p', now) && SameElsewhere(p, p', {job.id}) && Nowhere(p', job.id)
  {
    hide JobOk;
    var p' := p.(jobs := p.jobs[job.id := job]);
    forall place
      ensures At(p', place) == At(p, place) && InPlace(p'.jobs, At(p', place), StageAt(place))
    {
      assert InPlace(p.jobs, At(p, place), StageAt(place));
      assert !Listed(At(p, place).list, job.id);
    }
    assert !Busy(p.workers, job.id);
    assert forall id, place :: Listed(At(p', place).list, id) <==> Listed(At(p, place).list, id);
  }

  /** Only the status of a job changes, to one that ends it. */
  lemma Ending(p: Pipeline, now: int, id: string, status: Status)
    requires Inv(p, now) && id in p.jobs && status.IsTerminal()
    ensures var p' := SetStatus(p, id, status);
            && Inv(p', now) && SameElsewhere(p, p', {id})
            && (Nowhere(p', id) <==> Nowhere(p, id))
            && id in p'.jobs && p'.jobs[id].status == status && Evolves(p.jobs[id], p'.jobs[id])
  {
    hide Stamped, Listed, Busy, InPlace, At;
    var p' := SetStatus(p, id, status);
    StoredUnderId(p.jobs, now, id);
    assert Stamped(p'.jobs[id], now) by {
      EndingIsStamped(p.jobs[id], now, status);
    }
    forall place
      ensures At(p', place) == At(p, place) && InPlace(p'.jobs, At(p', place), StageAt(place))
    {
      EndingInPlace(p, now, id, status, place);
    }
  }

  lemma EndingInPlace(p: Pipeline, now: int, id: string, status: Status, place: Place)
    requires Inv(p, now)
    ensures var p' := SetStatus(p, id, status);
            At(p', place) == At(p, place) && InPlace(p'.jobs, At(p', place), StageAt(place))
  {
    hide Stamped, Listed, Busy;
    assert InPlace(p.jobs, At(p, place), StageAt(place));
  }

  lemma EndingIsStamped(job: Job, now: int, status: Status)
    requires Stamped(job, now)
    ensures Stamped(job.(status := status), now)
  {
  }

  /** A worker takes a job. */
  lemma Taking(p: Pipeline, now: int, id: string, task: Task)
    requires Inv(p, now) && id in p.jobs && Nowhere(p, id) && p.jobs[id].stage == StageDuring(task)
    requires !task.Returned?
    ensures Inv(Assign(p, id, task), now) && SameElsewhere(p, Assign(p, id, task), {id}) &&
            !Nowhere(Assign(p, id, task), id)
  {
    hide Listed, Busy, Store, Workforce, InPlace;
    var p' := Assign(p, id, task);
    SameLists(p, p');
    TakingWorkers(p.jobs, p.workers, id, task);
    assert !Listed(At(p, WaitingList).list, id);
  }

  lemma TakingWorkers(jobs: map<string, Job>, workers: seq<Worker>, id: string, task: Task)
    requires Workforce(jobs, workers) && id in jobs && !Busy(workers, id)
    requires jobs[id].stage == StageDuring(task) && !task.Returned?
    ensures Workforce(jobs, workers + [Worker(id, task)])
    ensures forall other :: Busy(workers + [Worker(id, task)], other) <==> Busy(workers, other) || other == id
  {
    var workers' := workers + [Worker(id, task)];
    forall other
      ensures Busy(workers', other) <==> Busy(workers, other) || other == id
    {
      assert workers'[|workers|].jobId == id;
      if Busy(workers, other) {
        var i := WorkerOf(workers, other);
        assert workers'[i].jobId == other;
      }
    }
    forall i, j | 0 <= i < j < |workers'|
      ensures workers'[i].jobId != workers'[j].jobId
    {
      assert Busy(workers, workers[i].jobId);
    }
  }

  /** Nothing that concerns only the lists has changed. */
  lemma SameLists(p: Pipeline, p': Pipeline)
    requires p'.preprocessing == p.preprocessing && p'.waitlist == p.waitlist && p'.normal == p.normal
    requires p'.booked == p.booked && p'.postprocessing == p.postprocessing
    ensures forall place :: At(p', place) == At(p, place)
  {
  }

  /** A worker is done with a job. */
  lemma Freeing(p: Pipeline, now: int, i: nat)
    requires Inv(p, now) && i < |p.workers|
    ensures var p', id := Release(p, i), p.workers[i].jobId;
            Inv(p', now) && SameElsewhere(p, p', {id}) && id in p'.jobs && Nowhere(p', id)
  {
    var p', id := Release(p, i), p.workers[i].jobId;
    BusyIsAtWork(p, now, i);
    assert Busy(p.workers, id);
    hide Listed, Busy, Store, Workforce, InPlace;
    SameLists(p, p');
    forall place
      ensures !Listed(At(p, place).list, id)
    {
      if Listed(At(p, place).list, id) {
        OnlyThere(p, now, place, id);
      }
    }
    FreeingWorkers(p.jobs, p.workers, i);
  }

  lemma FreeingWorkers(jobs: map<string, Job>, workers: seq<Worker>, i: nat)
    requires Workforce(jobs, workers) && i < |workers|
    ensures var rest := workers[..i] + workers[i + 1..];
            Workforce(jobs, rest) && forall id :: Busy(rest, id) <==> Busy(workers, id) && id != workers[i].jobId
  {
    var rest := workers[..i] + workers[i + 1..];
    assert forall j :: 0 <= j < |rest| ==> rest[j] == workers[if j < i then j else j + 1];
    forall id | Busy(workers, id) && id != workers[i].jobId
      ensures Busy(rest, id)
    {
      var j := WorkerOf(workers, id);
      assert rest[if j < i then j else j - 1].jobId == id;
    }
  }

  /** A worker keeps its job, for another task in the same stage. */
  lemma Retasking(p: Pipeline, now: int, i: nat, task: Task)
    requires Inv(p, now) && i < |p.workers|
    requires StageDuring(task) == StageDuring(p.workers[i].task)
    requires task.Returned? ==> p.workers[i].jobId in p.jobs && p.jobs[p.workers[i].jobId].status.IsTerminal()
    ensures var p' := p.(workers := p.workers[i := Worker(p.workers[i].jobId, task)]);
            Inv(p', now) && SameElsewhere(p, p', {}) && !Nowhere(p', p.workers[i].jobId)
  {
    var p' := p.(workers := p.workers[i := Worker(p.workers[i].jobId, task)]);
    assert forall j :: 0 <= j < |p.workers| ==> p'.workers[j].jobId == p.workers[j].jobId;
    forall id
      ensures Busy(p'.workers, id) <==> Busy(p.workers, id)
    {
      if Busy(p.workers, id) {
        var j := WorkerOf(p.workers, id);
        assert p'.workers[j].jobId == id;
      }
    }
    hide Listed, InPlace, Store;
    SameLists(p, p');
    assert p'.workers[i].jobId == p.workers[i].jobId;
    BusyIsAtWork(p, now, i);
  }
}
