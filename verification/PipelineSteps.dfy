/** Every step of the pipeline keeps the invariant, changes only the jobs it
    handles, and changes these only forward. */
module PipelineSteps {
  import opened Wrappers
  import opened Queues
  import opened QueueProperties
  import opened PopManyProperties
  import opened Runners
  import opened Jobs
  import opened Pipelines
  import opened PipelineStates

  /** What a step does to the jobs it handles, and to no others. */
  ghost predicate Effect(p: Pipeline, p': Pipeline, ids: set<string>, now: int) {
    && Inv(p', now)
    && SameElsewhere(p, p', ids)
    && (forall id :: id in ids && id in p.jobs ==> id in p'.jobs && Evolves(p.jobs[id], p'.jobs[id]))
  }

  /** An ended job, or one that is in some list or with a worker. */
  ghost predicate Kept(p: Pipeline, id: string) {
    id in p.jobs && (p.jobs[id].status.IsTerminal() || !Nowhere(p, id))
  }

  ghost predicate InSomeList(p: Pipeline, id: string) {
    exists place :: Listed(At(p, place).list, id)
  }

  /** All the jobs were in some list. */
  ghost predicate Found(p: Pipeline, ids: set<string>) {
    forall id :: id in ids ==> InSomeList(p, id)
  }

  ghost predicate AllKept(p: Pipeline, ids: set<string>) {
    forall id :: id in ids ==> Kept(p, id)
  }

  lemma Nothing(p: Pipeline, now: int)
    requires Inv(p, now)
    ensures Effect(p, p, {}, now)
  {
    hide Inv, Nowhere;
  }

  lemma Chain(p: Pipeline, q: Pipeline, r: Pipeline, ids: set<string>, more: set<string>, now: int)
    requires Effect(p, q, ids, now) && Effect(q, r, more, now)
    ensures Effect(p, r, ids + more, now)
  {
    hide Inv, Nowhere, Evolves;
    forall id | id in ids + more && id in p.jobs
      ensures id in r.jobs && Evolves(p.jobs[id], r.jobs[id])
    {
      EvolvesBack(p, q, ids, id);
      EvolvesBack(q, r, more, id);
      EvolvesOn(p.jobs[id], q.jobs[id], r.jobs[id]);
    }
  }

  lemma EvolvesBack(p: Pipeline, q: Pipeline, ids: set<string>, id: string)
    requires SameElsewhere(p, q, ids) && id in p.jobs
    requires forall id :: id in ids && id in p.jobs ==> id in q.jobs && Evolves(p.jobs[id], q.jobs[id])
    ensures id in q.jobs && Evolves(p.jobs[id], q.jobs[id])
  {
    hide Nowhere;
  }

  lemma EvolvesOn(a: Job, b: Job, c: Job)
    requires Evolves(a, b) && Evolves(b, c)
    ensures Evolves(a, c)
  {
  }

  // --- pieces ---

  lemma MovingJob(p: Pipeline, now: int, id: string, stage: Stage)
    requires Inv(p, now) && id in p.jobs && Nowhere(p, id) && stage.Number() == p.jobs[id].stage.Number() + 1
    ensures var q := SetStage(p, id, stage, now);
            && Effect(p, q, {id}, now) && Nowhere(q, id)
            && id in q.jobs && q.jobs[id].stage == stage
            && q.jobs[id].status == NextStatus(p.jobs[id].status, stage)
  {
    StoredUnderId(p.jobs, now, id);
    Moving(p.jobs[id], stage, now);
    hide Inv, Nowhere, Evolves, SameElsewhere, JobOk;
    Storing(p, now, Moved(p.jobs[id], stage, now));
  }

  lemma EstimatingJob(p: Pipeline, now: int, id: string, duration: Seconds)
    requires Inv(p, now) && id in p.jobs && Nowhere(p, id) && p.jobs[id].stage.Number() > 2
    ensures var q := SetEstimate(p, id, duration);
            && Effect(p, q, {id}, now) && Nowhere(q, id)
            && id in q.jobs && q.jobs[id] == p.jobs[id].(estimated := Some(duration))
  {
    StoredUnderId(p.jobs, now, id);
    hide Inv, Nowhere, SameElsewhere;
    assert JobOk(p.jobs[id].(estimated := Some(duration)), now);
    Storing(p, now, p.jobs[id].(estimated := Some(duration)));
  }

  lemma EndingJob(p: Pipeline, now: int, id: string, status: Status)
    requires Inv(p, now) && id in p.jobs && status.IsTerminal()
    ensures var q := SetStatus(p, id, status);
            && Effect(p, q, {id}, now) && Kept(q, id) && (Nowhere(q, id) <==> Nowhere(p, id))
  {
    hide Inv, Nowhere, SameElsewhere, Evolves;
    Ending(p, now, id, status);
  }

  lemma FreeingJob(p: Pipeline, now: int, i: nat)
    requires Inv(p, now) && i < |p.workers|
    ensures var q, id := Release(p, i), p.workers[i].jobId;
            && Effect(p, q, {id}, now) && id in p.jobs && Nowhere(q, id)
            && p.jobs[id].stage == StageDuring(p.workers[i].task)
  {
    BusyIsAtWork(p, now, i);
    hide Inv, Nowhere, SameElsewhere;
    Freeing(p, now, i);
  }

  lemma TakingJob(p: Pipeline, now: int, id: string, task: Task)
    requires Inv(p, now) && id in p.jobs && Nowhere(p, id) && p.jobs[id].stage == StageDuring(task)
    requires !task.Returned?
    ensures Effect(p, Assign(p, id, task), {id}, now) && Kept(Assign(p, id, task), id)
  {
    hide Inv, Nowhere, SameElsewhere;
    Taking(p, now, id, task);
  }

  lemma JoiningJob(p: Pipeline, p': Pipeline, now: int, place: Place, id: string, args: Args)
    requires Inv(p, now) && id in p.jobs && Nowhere(p, id) && p.jobs[id].stage == StageAt(place)
    requires p'.jobs == p.jobs && p'.workers == p.workers
    requires forall other :: other != place ==> At(p', other) == At(p, other)
    requires At(p', place) == Add(At(p, place), p.jobs[id].Queued(), args)
    ensures Effect(p, p', {id}, now) && Kept(p', id)
  {
    hide Inv, Nowhere, SameElsewhere, At, Add;
    Joining(p, p', now, place, id, args);
  }

  lemma LeavingJobs(p: Pipeline, p': Pipeline, now: int, place: Place, gone: set<string>)
    requires Inv(p, now) && p'.jobs == p.jobs && p'.workers == p.workers
    requires forall other :: other != place ==> At(p', other) == At(p, other)
    requires At(p', place).Valid()
    requires forall x :: x in At(p', place).list <==> x in At(p, place).list && x.uuid !in gone
    ensures Effect(p, p', gone, now)
    ensures forall id :: id in gone && Listed(At(p, place).list, id) ==> Nowhere(p', id)
  {
    hide Inv, Nowhere, SameElsewhere, At, Listed;
    Leaving(p, p', now, place, gone);
  }

  /** A token fires: the head of the list is taken. */
  lemma Firing(p: Pipeline, p': Pipeline, now: int, place: Place) returns (ids: set<string>)
    requires Inv(p, now) && p'.jobs == p.jobs && p'.workers == p.workers
    requires forall other :: other != place ==> At(p', other) == At(p, other)
    requires At(p', place) == Next(At(p, place)).0
    ensures Effect(p, p', ids, now) && Found(p, ids)
    ensures var next := Next(At(p, place)).1;
            if next.Ok? && next.value.Some? then
              var id := next.value.value.job.jobId;
              ids == {id} && id in p.jobs && p.jobs[id].stage == StageAt(place) && Nowhere(p', id)
            else ids == {}
  {
    var q := At(p, place);
    hide Inv, Nowhere, InSomeList, At, InPlace, Next, Effect, Listed, Queue<Args>.Valid;
    PlacesHold(p, now, place);
    if q.list == [] {
      ids := {};
      EmptyNext(q);
      SameEverywhere(p, p', now, place);
    } else {
      ids := {q.list[0].uuid};
      HeadLeaves(p.jobs, q, StageAt(place));
      ListedIsFound(p, place, q.list[0].uuid);
      LeavingJobs(p, p', now, place, ids);
    }
  }

  lemma ListedIsFound(p: Pipeline, place: Place, id: string)
    requires Listed(At(p, place).list, id)
    ensures InSomeList(p, id)
  {
  }

  lemma HeadLeaves(jobs: map<string, Job>, q: Queue<Args>, stage: Stage)
    requires InPlace(jobs, q, stage) && q.list != []
    ensures var (q', next), id := Next(q), q.list[0].uuid;
            && q'.Valid() && Listed(q.list, id) && id in jobs && jobs[id].stage == stage
            && next.Ok? && next.value.Some? && next.value.value.job.jobId == id
            && forall x :: x in q'.list <==> x in q.list && x.uuid !in {id}
  {
    var head := q.list[0];
    NextIsPopHead(q);
    assert head in q.list && Listed(q.list, head.uuid) && q.jobs[head].Key() == head;
    hide Next, PopJob, Listed;
    PoppingOne(jobs, q, stage, head);
  }

  lemma EmptyNext(q: Queue<Args>)
    requires q.list == []
    ensures Next(q) == (q, Err(MalformedKey))
  {
  }

  lemma SameEverywhere(p: Pipeline, p': Pipeline, now: int, place: Place)
    requires Inv(p, now) && p'.jobs == p.jobs && p'.workers == p.workers
    requires forall other :: At(p', other) == At(p, other)
    ensures Effect(p, p', {}, now)
  {
    hide At, InPlace, Store, Workforce, Listed, Busy;
  }

  /** In a list, popping a key removes the job of that id and nothing else. */
  lemma PoppingOne(jobs: map<string, Job>, q: Queue<Args>, stage: Stage, key: StorageId)
    requires InPlace(jobs, q, stage)
    requires Listed(q.list, key.uuid) ==> key.uuid in jobs && key == jobs[key.uuid].Key()
    ensures PopJob(q, key).0.Valid()
    ensures forall x :: x in PopJob(q, key).0.list <==> x in q.list && x.uuid != key.uuid
    ensures PopJob(q, key).1 == if key in q.list then Ok(Item(q.jobs[key], q.args[key])) else Err(InvalidJob)
  {
    PopKeepsValid(q, key);
    RemovingDistinct(q.list, key);
    forall x | x in q.list
      ensures x.uuid != key.uuid <==> x != key
    {
      if x.uuid == key.uuid {
        assert Listed(q.list, key.uuid);
      }
    }
  }

  // --- submission and preprocessing ---

  lemma Submitting(p: Pipeline, now: int, id: string, booking: Args)
    requires Inv(p, now) && id !in p.jobs
    ensures Effect(p, Submit(p, id, booking), {id}, now) && Kept(Submit(p, id, booking), id)
  {
    hide Inv, Nowhere, SameElsewhere, JobOk, Submit, Add, At, Effect, Kept;
    UnknownIsNowhere(p, now, id);
    var q := p.(jobs := p.jobs[id := NewJob(id)]);
    StoringNew(p, now, id);
    EffectKeeps(p, q, {id}, now);
    var r := Submit(p, id, booking);
    SubmissionJoins(p, id, booking);
    JoiningJob(q, r, now, PreprocessingQueue, id, booking);
    Chain(p, q, r, {id}, {id}, now);
    assert {id} + {id} == {id};
  }

  lemma StoringNew(p: Pipeline, now: int, id: string)
    requires Inv(p, now) && id !in p.jobs && Nowhere(p, id)
    ensures var q := p.(jobs := p.jobs[id := NewJob(id)]);
            Effect(p, q, {id}, now) && Nowhere(q, id)
  {
    NewJobIsOk(id, now);
    hide Inv, Nowhere, SameElsewhere, JobOk;
    Storing(p, now, NewJob(id));
  }

  lemma SubmissionJoins(p: Pipeline, id: string, booking: Args)
    requires id !in p.jobs
    ensures var q, r := p.(jobs := p.jobs[id := NewJob(id)]), Submit(p, id, booking);
            && r.jobs == q.jobs && r.workers == q.workers
            && (forall other :: other != PreprocessingQueue ==> At(r, other) == At(q, other))
            && At(r, PreprocessingQueue) == Add(At(q, PreprocessingQueue), q.jobs[id].Queued(), booking)
  {
    hide Add;
  }

  lemma NewJobIsOk(id: string, now: int)
    ensures JobOk(NewJob(id), now)
  {
  }

  lemma StartingPreprocessing(p: Pipeline, now: int, at: nat, readable: bool) returns (ids: set<string>)
    requires Inv(p, now)
    ensures Effect(p, StartPreprocessing(p, at, readable, now), ids, now) && Found(p, ids)
    ensures AllKept(StartPreprocessing(p, at, readable, now), ids)
  {
    hide Inv, Nowhere, Effect, Kept, Next;
    if at >= |p.preprocessing.tokens| {
      ids := {};
      Nothing(p, now);
    } else {
      var item, q := Handed(p.preprocessing), p.(preprocessing := Fire(p.preprocessing, at));
      ids := Firing(p, q, now, PreprocessingQueue);
      if item.Some? {
        var id := item.value.job.jobId;
        EffectKeeps(p, q, ids, now);
        if readable {
          StartingJob(p, q, now, id, PreProcW, Preprocessing(item.value.args));
        } else {
          EndingJob(q, now, id, Failed);
          Chain(p, q, SetStatus(q, id, Failed), ids, {id}, now);
          assert ids + {id} == {id};
        }
      }
    }
  }

  /** What an effect leaves: the jobs of a step that only took them from a list. */
  lemma EffectKeeps(p: Pipeline, q: Pipeline, ids: set<string>, now: int)
    requires Effect(p, q, ids, now)
    ensures Inv(q, now)
    ensures forall id :: id in p.jobs ==> id in q.jobs
  {
    hide Inv, Nowhere, Evolves;
  }

  /** A job just taken from a list moves to the next stage and goes to a worker. */
  lemma StartingJob(p: Pipeline, q: Pipeline, now: int, id: string, stage: Stage, task: Task)
    requires Inv(q, now) && Effect(p, q, {id}, now) && id in q.jobs && Nowhere(q, id)
    requires stage.Number() == q.jobs[id].stage.Number() + 1 && stage == StageDuring(task) && !task.Returned?
    ensures var r := Assign(SetStage(q, id, stage, now), id, task);
            Effect(p, r, {id}, now) && Kept(r, id)
  {
    hide Inv, Nowhere, Effect;
    var moved := SetStage(q, id, stage, now);
    MovingJob(q, now, id, stage);
    EffectKeeps(q, moved, {id}, now);
    TakingJob(moved, now, id, task);
    Chain(q, moved, Assign(moved, id, task), {id}, {id}, now);
    assert {id} + {id} == {id};
    Chain(p, q, Assign(moved, id, task), {id}, {id}, now);
  }

  /** A job just released fails. */
  lemma FailingJob(p: Pipeline, now: int, i: nat)
    requires Inv(p, now) && i < |p.workers|
    ensures var q, id := SetStatus(Release(p, i), p.workers[i].jobId, Failed), p.workers[i].jobId;
            Effect(p, q, {id}, now) && Kept(q, id)
  {
    hide Inv, Nowhere, Effect, Kept;
    var q, id := Release(p, i), p.workers[i].jobId;
    FreeingJob(p, now, i);
    EffectKeeps(p, q, {id}, now);
    EndingJob(q, now, id, Failed);
    Chain(p, q, SetStatus(q, id, Failed), {id}, {id}, now);
    assert {id} + {id} == {id};
  }

  // --- admission ---

  lemma Waitlisting(p: Pipeline, now: int, id: string)
    requires Inv(p, now) && id in p.jobs && Nowhere(p, id) && p.jobs[id].stage == PreProcW
    ensures Effect(p, Waitlist(p, id), {id}, now) && Kept(Waitlist(p, id), id)
  {
    hide Inv, Nowhere, Add;
    JoiningJob(p, Waitlist(p, id), now, WaitingList, id, None);
  }

  lemma AdmittingNormal(p: Pipeline, now: int, id: string)
    requires Inv(p, now) && id in p.jobs && Nowhere(p, id) && p.jobs[id].stage == PreProcW
    ensures Effect(p, AdmitNormal(p, id, now), {id}, now) && !Nowhere(AdmitNormal(p, id, now), id)
  {
    hide Inv, Nowhere, Add, Effect, SetStage;
    var q := SetStage(p, id, ExecQ, now);
    MovingJob(p, now, id, ExecQ);
    EffectKeeps(p, q, {id}, now);
    var r := AdmitNormal(p, id, now);
    Joining(q, r, now, NormalQueue, id, None);
    JoiningJob(q, r, now, NormalQueue, id, None);
    Chain(p, q, r, {id}, {id}, now);
    assert {id} + {id} == {id};
  }

  lemma AdmittingBooked(p: Pipeline, now: int, id: string)
    requires Inv(p, now) && id in p.jobs && Nowhere(p, id) && p.jobs[id].stage == PreProcW
    ensures Effect(p, AdmitBooked(p, id, now), {id}, now) && Kept(AdmitBooked(p, id, now), id)
  {
    hide Inv, Nowhere, Add, Effect, SetStage, Kept;
    var q := SetStage(p, id, ExecQ, now);
    MovingJob(p, now, id, ExecQ);
    EffectKeeps(p, q, {id}, now);
    var r := AdmitBooked(p, id, now);
    JoiningJob(q, r, now, BookedQueue, id, None);
    Chain(p, q, r, {id}, {id}, now);
    assert {id} + {id} == {id};
  }

  lemma AdmittingSomewhere(p: Pipeline, now: int, id: string, booking: Args, a: Admission)
    requires Inv(p, now) && id in p.jobs && Nowhere(p, id) && p.jobs[id].stage == PreProcW
    ensures var q := if booking.None? then TryNormal(p, id, a, now) else TryBooked(p, id, a, now);
            Effect(p, q, {id}, now) && Kept(q, id)
  {
    hide Inv, Nowhere, Effect, Waitlist, AdmitNormal, AdmitBooked, SetStatus, TooLongForNormal, TooLongForBooking;
    Waitlisting(p, now, id);
    AdmittingNormal(p, now, id);
    EffectKeeps(p, AdmitNormal(p, id, now), {id}, now);
    AdmittingBooked(p, now, id);
    EndingJob(p, now, id, Failed);
  }

  lemma FreeingKeepsJobs(p: Pipeline, i: nat)
    requires i < |p.workers|
    ensures Release(p, i).jobs == p.jobs
  {
  }

  datatype Destination = ToQueue(place: Place) | Rejected

  /** Outside bookings, the normal queue if there is time before the next booking.
      In a booking of its user, the booked queue if the job and those queued there fit
      in the whole length of the booking; if not, the job is rejected.  Else, and if
      forced, the waitlist. */
  function DestinationOf(p: Pipeline, booking: Args, a: Admission): Destination {
    if booking.None? then
      if a.next.Some? && a.duration + p.normal.queue.total + a.running > a.next.value then ToQueue(WaitingList)
      else ToQueue(NormalQueue)
    else if a.active.None? || !a.active.value.owned || a.force then ToQueue(WaitingList)
    else if a.duration + p.booked.queue.total + a.running > a.active.value.Total() then Rejected
    else ToQueue(BookedQueue)
  }

  lemma JoinedThere(p: Pipeline, p': Pipeline, now: int, place: Place, id: string, args: Args)
    requires Inv(p, now) && id in p.jobs && Nowhere(p, id) && p.jobs[id].stage == StageAt(place)
    requires forall other :: other != place ==> At(p', other) == At(p, other)
    requires At(p', place) == Add(At(p, place), p.jobs[id].Queued(), args)
    ensures forall other :: Listed(At(p', other).list, id) <==> other == place
  {
    hide At, Listed, Busy, InPlace, Store, Workforce, Queue<Args>.Valid, Add;
    StoredUnderId(p.jobs, now, id);
    JoiningList(p.jobs, At(p, place), StageAt(place), id, args);
  }

  lemma WaitlistedThere(p: Pipeline, now: int, id: string)
    requires Inv(p, now) && id in p.jobs && Nowhere(p, id) && p.jobs[id].stage == PreProcW
    ensures forall place :: Listed(At(Waitlist(p, id), place).list, id) <==> place == WaitingList
  {
    hide Inv, Nowhere, Add, Listed;
    JoinedThere(p, Waitlist(p, id), now, WaitingList, id, None);
  }

  lemma AdmittedThere(p: Pipeline, now: int, id: string)
    requires Inv(p, now) && id in p.jobs && Nowhere(p, id) && p.jobs[id].stage == PreProcW
    ensures forall place :: Listed(At(AdmitNormal(p, id, now), place).list, id) <==> place == NormalQueue
    ensures forall place :: Listed(At(AdmitBooked(p, id, now), place).list, id) <==> place == BookedQueue
  {
    hide Inv, Nowhere, Add, Listed, Effect, SetStage;
    var q := SetStage(p, id, ExecQ, now);
    MovingJob(p, now, id, ExecQ);
    EffectKeeps(p, q, {id}, now);
    JoinedThere(q, AdmitNormal(p, id, now), now, NormalQueue, id, None);
    JoinedThere(q, AdmitBooked(p, id, now), now, BookedQueue, id, None);
  }

  /** A prepared job is in the queue of its destination and in no other; a rejected
      one has failed. */
  lemma PreparedJobIsRouted(p: Pipeline, now: int, i: nat, a: Admission)
    requires Inv(p, now) && i < |p.workers| && p.workers[i].task.Preprocessing?
    ensures var q, id := FinishPreprocessing(p, i, a, now), p.workers[i].jobId;
            var destination := DestinationOf(p, p.workers[i].task.booking, a);
            && (forall place :: Listed(At(q, place).list, id) <==> destination == ToQueue(place))
            && (destination.Rejected? ==> id in q.jobs && q.jobs[id].status == Failed)
  {
    hide Inv, Nowhere, Effect, Release, SetEstimate, Waitlist, AdmitNormal, AdmitBooked, Listed, At;
    var id, booking := p.workers[i].jobId, p.workers[i].task.booking;
    var freed := Release(p, i);
    FreeingJob(p, now, i);
    EffectKeeps(p, freed, {id}, now);
    FreeingKeepsJobs(p, i);
    var q := SetEstimate(freed, id, a.duration);
    EstimatingJob(freed, now, id, a.duration);
    EffectKeeps(freed, q, {id}, now);
    SameQueues(p, i, id, a.duration);
    WaitlistedThere(q, now, id);
    AdmittedThere(q, now, id);
    RejectedIsNowhere(q, now, id);
  }

  lemma SameQueues(p: Pipeline, i: nat, id: string, duration: Seconds)
    requires i < |p.workers|
    ensures SetEstimate(Release(p, i), id, duration).normal == p.normal
    ensures SetEstimate(Release(p, i), id, duration).booked == p.booked
  {
  }

  lemma RejectedIsNowhere(q: Pipeline, now: int, id: string)
    requires Inv(q, now) && id in q.jobs && Nowhere(q, id)
    ensures id in SetStatus(q, id, Failed).jobs && SetStatus(q, id, Failed).jobs[id].status == Failed
    ensures forall place :: !Listed(At(SetStatus(q, id, Failed), place).list, id)
  {
    SameLists(q, SetStatus(q, id, Failed));
  }

  lemma EndingPreprocessing(p: Pipeline, now: int, i: nat, a: Admission)
    requires Inv(p, now) && i < |p.workers| && p.workers[i].task.Preprocessing?
    ensures var q, id := FinishPreprocessing(p, i, a, now), p.workers[i].jobId;
            var destination := DestinationOf(p, p.workers[i].task.booking, a);
            && Effect(p, q, {id}, now) && Kept(q, id)
            && (forall place :: Listed(At(q, place).list, id) <==> destination == ToQueue(place))
            && (destination.Rejected? ==> id in q.jobs && q.jobs[id].status == Failed)
  {
    hide Inv, Nowhere, Effect, Kept, TryNormal, TryBooked, Release, SetEstimate, Listed, At, DestinationOf;
    PreparedJobIsRouted(p, now, i, a);
    var id := p.workers[i].jobId;
    var freed := Release(p, i);
    FreeingJob(p, now, i);
    EffectKeeps(p, freed, {id}, now);
    FreeingKeepsJobs(p, i);
    var q := SetEstimate(freed, id, a.duration);
    EstimatingJob(freed, now, id, a.duration);
    EffectKeeps(freed, q, {id}, now);
    Chain(p, freed, q, {id}, {id}, now);
    assert {id} + {id} == {id};
    AdmittingSomewhere(q, now, id, p.workers[i].task.booking, a);
    Chain(p, q, FinishPreprocessing(p, i, a, now), {id}, {id}, now);
  }

  // --- the waitlist ---

  lemma {:induction false} FirstIsListed(list: seq<StorageId>, usable: Budget)
    requires FirstShorter(list, usable).Some?
    ensures FirstShorter(list, usable).value in list
  {
    if !IsShorter(list[0], usable) {
      FirstIsListed(list[1..], usable);
    }
  }

  lemma FirstLeaves(jobs: map<string, Job>, w: Queue<Args>, usable: Budget)
    requires InPlace(jobs, w, PreProcW) && FirstShorter(w.list, usable).Some?
    ensures var key := FirstShorter(w.list, usable).value;
            var (w', item) := PopJob(w, key);
            && w'.Valid() && Listed(w.list, key.uuid) && key.uuid in jobs && jobs[key.uuid].stage == PreProcW
            && jobs[key.uuid].Key() == key
            && item.Ok? && item.value.job.jobId == key.uuid
            && forall x :: x in w'.list <==> x in w.list && x.uuid !in {key.uuid}
  {
    var key := FirstShorter(w.list, usable).value;
    FirstIsListed(w.list, usable);
    assert Listed(w.list, key.uuid) && w.jobs[key].Key() == key;
    PoppingOne(jobs, w, PreProcW, key);
  }

  lemma FeedingBooking(p: Pipeline, now: int, usable: Budget) returns (ids: set<string>)
    requires Inv(p, now)
    ensures Effect(p, WaitlistToBooking(p, usable, now), ids, now) && Found(p, ids)
    ensures AllKept(WaitlistToBooking(p, usable, now), ids)
    ensures var first, q := FirstShorter(p.waitlist.list, usable), WaitlistToBooking(p, usable, now);
            if first.None? then q == p && ids == {}
            else
              && ids == {first.value.uuid}
              && q.booked.queue.list == p.booked.queue.list + [first.value]
              && q.waitlist == PopJob(p.waitlist, first.value).0
  {
    hide Inv, Nowhere, Effect, PopJob, Queue<Args>.Valid, FirstShorter, AdmitBooked, InPlace, Kept, Listed;
    var first := FirstShorter(p.waitlist.list, usable);
    if first.None? {
      ids := {};
      Nothing(p, now);
    } else {
      ids := {first.value.uuid};
      PlacesHold(p, now, WaitingList);
      FirstLeaves(p.jobs, p.waitlist, usable);
      ListedIsFound(p, WaitingList, first.value.uuid);
      FeedingOne(p, now, first.value);
    }
  }

  /** A waiting job is popped and goes to the booked queue. */
  lemma FeedingOne(p: Pipeline, now: int, key: StorageId)
    requires var q, id := p.(waitlist := PopJob(p.waitlist, key).0), key.uuid;
             && Inv(p, now) && Listed(p.waitlist.list, id)
             && id in p.jobs && p.jobs[id].stage == PreProcW && p.jobs[id].Key() == key
             && q.waitlist.Valid() && forall x :: x in q.waitlist.list <==> x in p.waitlist.list && x.uuid !in {id}
    ensures var q := AdmitBooked(p.(waitlist := PopJob(p.waitlist, key).0), key.uuid, now);
            && Effect(p, q, {key.uuid}, now) && Kept(q, key.uuid)
            && q.booked.queue.list == p.booked.queue.list + [key] && q.waitlist == PopJob(p.waitlist, key).0
  {
    hide Inv, Nowhere, Effect, PopJob, Queue<Args>.Valid, AdmitBooked, Kept, Listed;
    BookedKey(p.(waitlist := PopJob(p.waitlist, key).0), key.uuid, now);
    OwnId(p, now, key.uuid);
    FedEffect(p, now, key);
  }

  lemma FedEffect(p: Pipeline, now: int, key: StorageId)
    requires var q, id := p.(waitlist := PopJob(p.waitlist, key).0), key.uuid;
             && Inv(p, now) && Listed(p.waitlist.list, id)
             && id in p.jobs && p.jobs[id].stage == PreProcW
             && q.waitlist.Valid() && forall x :: x in q.waitlist.list <==> x in p.waitlist.list && x.uuid !in {id}
    ensures var q := AdmitBooked(p.(waitlist := PopJob(p.waitlist, key).0), key.uuid, now);
            Effect(p, q, {key.uuid}, now) && Kept(q, key.uuid)
  {
    hide Inv, Nowhere, Effect, PopJob, Queue<Args>.Valid, AdmitBooked, Kept, Listed;
    var q, ids := p.(waitlist := PopJob(p.waitlist, key).0), {key.uuid};
    LeavingJobs(p, q, now, WaitingList, ids);
    EffectKeeps(p, q, ids, now);
    AdmittingBooked(q, now, key.uuid);
    Chain(p, q, AdmitBooked(q, key.uuid, now), ids, ids, now);
    assert ids + ids == ids;
  }

  lemma BookedKey(p: Pipeline, id: string, now: int)
    requires id in p.jobs && p.jobs[id].id == id
    ensures var q := AdmitBooked(p, id, now);
            q.booked.queue.list == p.booked.queue.list + [p.jobs[id].Key()] && q.waitlist == p.waitlist
  {
  }

  lemma PlacesHold(p: Pipeline, now: int, place: Place)
    requires Inv(p, now)
    ensures InPlace(p.jobs, At(p, place), StageAt(place))
  {
  }

  function JobIds(items: seq<Item<Args>>): set<string> {
    set item | item in items :: item.job.jobId
  }

  lemma {:induction false} AdmittingAll(p: Pipeline, now: int, items: seq<Item<Args>>)
    requires Inv(p, now)
    requires forall i, j :: 0 <= i < j < |items| ==> items[i].job.jobId != items[j].job.jobId
    requires forall item :: item in items ==>
               var id := item.job.jobId; id in p.jobs && Nowhere(p, id) && p.jobs[id].stage == PreProcW
    ensures Effect(p, AdmitAll(p, items, now), JobIds(items), now)
    ensures forall id :: id in JobIds(items) ==> !Nowhere(AdmitAll(p, items, now), id)
  {
    hide Inv, Nowhere, AdmitNormal, Evolves;
    if items == [] {
      assert JobIds(items) == {};
      Nothing(p, now);
    } else {
      var front, last := items[..|items| - 1], items[|items| - 1];
      var id, q := last.job.jobId, AdmitAll(p, front, now);
      AdmittingAll(p, now, front);
      assert id !in JobIds(front) by {
        assert forall i :: 0 <= i < |front| ==> front[i].job.jobId != id;
      }
      assert last in items;
      AdmittingNormal(q, now, id);
      Chain(p, q, AdmitAll(p, items, now), JobIds(front), {id}, now);
      JobIdsOfLast(items);
    }
  }

  lemma JobIdsOfLast(items: seq<Item<Args>>)
    requires items != []
    ensures JobIds(items) == JobIds(items[..|items| - 1]) + {items[|items| - 1].job.jobId}
  {
    var front, last := items[..|items| - 1], items[|items| - 1];
    assert items == front + [last];
    forall id | id in JobIds(items)
      ensures id in JobIds(front) + {last.job.jobId}
    {
      var item :| item in items && item.job.jobId == id;
      assert item in front || item == last;
    }
    forall id | id in JobIds(front) + {last.job.jobId}
      ensures id in JobIds(items)
    {
      if id != last.job.jobId {
        var item :| item in front && item.job.jobId == id;
        assert item in items;
      } else {
        assert last in items;
      }
    }
  }

  lemma FeedingNormal(p: Pipeline, now: int, usable: Budget) returns (ids: set<string>)
    requires Inv(p, now)
    ensures Effect(p, WaitlistToNormal(p, usable, now), ids, now) && Found(p, ids)
    ensures AllKept(WaitlistToNormal(p, usable, now), ids)
    ensures var swept := KeysOf(PopMany(p.waitlist, usable).items);
            && ids == (set key | key in swept :: key.uuid)
            && WaitlistToNormal(p, usable, now).normal.queue.list == p.normal.queue.list + swept
            && (usable.Some? && usable.value >= 0.0 ==> Sum(swept) <= usable.value)
  {
    hide Inv, Nowhere, Effect, Evolves, PopMany, Queue<Args>.Valid, AdmitAll, Listed, JobIds, KeysOf, InPlace, Splits;
    var sweep := PopMany(p.waitlist, usable);
    ids := JobIds(sweep.items);
    PlacesHold(p, now, WaitingList);
    SweepLeaves(p.jobs, p.waitlist, usable);
    var q := p.(waitlist := sweep.queue);
    LeavingJobs(p, q, now, WaitingList, ids);
    EffectKeeps(p, q, ids, now);
    forall item | item in sweep.items
      ensures item.job.jobId in ids
    {
      ItemsAreIn(sweep.items, item);
    }
    AdmittingAll(q, now, sweep.items);
    EffectKeeps(q, AdmitAll(q, sweep.items, now), ids, now);
    SweptWereFound(p, sweep.items);
    IdsStored(sweep.items, q.jobs, AdmitAll(q, sweep.items, now).jobs);
    Chain(p, q, AdmitAll(q, sweep.items, now), ids, ids, now);
    assert ids + ids == ids;
    var _ := SweptJobsAreQueued(p, now, usable);
    IdsOfKeys(sweep.items);
  }

  lemma IdsOfKeys(items: seq<Item<Args>>)
    ensures JobIds(items) == set key | key in KeysOf(items) :: key.uuid
  {
    var keys := KeysOf(items);
    forall id | id in JobIds(items)
      ensures exists key :: key in keys && key.uuid == id
    {
      var item :| item in items && item.job.jobId == id;
      var i :| 0 <= i < |items| && items[i] == item;
      assert keys[i] in keys && keys[i].uuid == id;
    }
    forall key | key in keys
      ensures key.uuid in JobIds(items)
    {
      var i :| 0 <= i < |keys| && keys[i] == key;
      assert items[i] in items;
    }
  }

  ghost predicate Ready(jobs: map<string, Job>, item: Item<Args>) {
    var id := item.job.jobId;
    id in jobs && jobs[id].id == id && jobs[id].Key() == item.job.Key()
  }

  lemma {:induction false} AdmittingOthers(p: Pipeline, items: seq<Item<Args>>, now: int, id: string)
    requires id in p.jobs && forall item :: item in items ==> item.job.jobId != id
    ensures id in AdmitAll(p, items, now).jobs && AdmitAll(p, items, now).jobs[id] == p.jobs[id]
  {
    if items != [] {
      assert items[|items| - 1] in items;
      AdmittingOthers(p, items[..|items| - 1], now, id);
    }
  }

  /** Jobs that are ready join the normal queue, in order. */
  lemma {:induction false} AdmittedKeys(p: Pipeline, items: seq<Item<Args>>, now: int)
    requires forall i :: 0 <= i < |items| ==> Ready(p.jobs, items[i])
    requires forall i, j :: 0 <= i < j < |items| ==> items[i].job.jobId != items[j].job.jobId
    ensures AdmitAll(p, items, now).normal.queue.list == p.normal.queue.list + KeysOf(items)
  {
    hide Ready, KeysOf, AdmitNormal;
    if items != [] {
      var front, last := items[..|items| - 1], items[|items| - 1];
      assert items == front + [last];
      assert forall i :: 0 <= i < |front| ==> items[i] == front[i];
      AdmittedKeys(p, front, now);
      KeysAppend(front, last);
      assert Ready(p.jobs, items[|front|]);
      AdmittedLast(p, front, last, now);
    } else {
      NoKeys();
    }
  }

  lemma NoKeys()
    ensures KeysOf<Args>([]) == []
  {
  }

  lemma AdmittedLast(p: Pipeline, front: seq<Item<Args>>, last: Item<Args>, now: int)
    requires Ready(p.jobs, last) && forall i :: 0 <= i < |front| ==> front[i].job.jobId != last.job.jobId
    ensures var q := AdmitAll(p, front, now);
            AdmitNormal(q, last.job.jobId, now).normal.queue.list == q.normal.queue.list + [last.job.Key()]
  {
    hide AdmitAll;
    AdmittingOthers(p, front, now, last.job.jobId);
  }

  /** The sweep puts the swept jobs on the normal queue, in order, within the time to
      the next booking. */
  lemma SweptJobsAreQueued(p: Pipeline, now: int, usable: Budget) returns (popped: seq<StorageId>)
    requires Inv(p, now)
    ensures var sweep, q := PopMany(p.waitlist, usable), WaitlistToNormal(p, usable, now);
            && popped == KeysOf(sweep.items)
            && Splits(p.waitlist.list, popped, sweep.queue.list) && q.waitlist == sweep.queue
            && q.normal.queue.list == p.normal.queue.list + popped
            && sweep.available == Spent(usable, popped)
            && (usable.Some? && usable.value >= 0.0 ==> Sum(popped) <= usable.value)
  {
    hide Inv, PopMany, AdmitAll, Splits, Sum, Listed, JobIds;
    PlacesHold(p, now, WaitingList);
    WaitingIsNonNegative(p.jobs, p.waitlist);
    popped := PopManyIsFifoWithinBudget(p.waitlist, usable);
    var sweep := PopMany(p.waitlist, usable);
    SweepLeaves(p.jobs, p.waitlist, usable);
    SweptAreReady(p, now, usable, popped);
    AdmittedKeys(p.(waitlist := sweep.queue), sweep.items, now);
    AdmittedElsewhere(p.(waitlist := sweep.queue), sweep.items, now);
  }

  lemma SweptAreReady(p: Pipeline, now: int, usable: Budget, popped: seq<StorageId>)
    requires Inv(p, now) && InPlace(p.jobs, p.waitlist, PreProcW)
    requires var sweep := PopMany(p.waitlist, usable);
             popped == KeysOf(sweep.items) && Splits(p.waitlist.list, popped, sweep.queue.list)
    ensures var items := PopMany(p.waitlist, usable).items; forall i :: 0 <= i < |items| ==> Ready(p.jobs, items[i])
  {
    hide PopMany, Splits, Inv;
    var items := PopMany(p.waitlist, usable).items;
    SplitsMembers(p.waitlist.list, popped, PopMany(p.waitlist, usable).queue.list);
    forall i | 0 <= i < |items|
      ensures Ready(p.jobs, items[i])
    {
      assert popped[i] == items[i].job.Key() && popped[i] in p.waitlist.list;
      OwnId(p, now, popped[i].uuid);
    }
  }

  lemma OwnId(p: Pipeline, now: int, id: string)
    requires Inv(p, now) && id in p.jobs
    ensures p.jobs[id].id == id
  {
    StoredUnderId(p.jobs, now, id);
  }

  lemma {:induction false} AdmittedElsewhere(p: Pipeline, items: seq<Item<Args>>, now: int)
    ensures AdmitAll(p, items, now).waitlist == p.waitlist
  {
    if items != [] {
      AdmittedElsewhere(p, items[..|items| - 1], now);
    }
  }

  lemma ItemsAreIn(items: seq<Item<Args>>, item: Item<Args>)
    requires item in items
    ensures item.job.jobId in JobIds(items)
  {
  }

  lemma SweptWereFound(p: Pipeline, items: seq<Item<Args>>)
    requires forall item :: item in items ==> Listed(p.waitlist.list, item.job.jobId)
    ensures Found(p, JobIds(items))
  {
    hide Listed;
    forall id | id in JobIds(items)
      ensures InSomeList(p, id)
    {
      ListedIsFound(p, WaitingList, id);
    }
  }

  lemma IdsStored(items: seq<Item<Args>>, before: map<string, Job>, after: map<string, Job>)
    requires forall item :: item in items ==> item.job.jobId in before
    requires forall id :: id in before ==> id in after
    ensures forall id :: id in JobIds(items) ==> id in after
  {
  }

  lemma WaitingIsNonNegative(jobs: map<string, Job>, q: Queue<Args>)
    requires InPlace(jobs, q, PreProcW)
    ensures NonNegative(q.list)
  {
    forall x | x in q.list
      ensures x.duration >= 0.0
    {
      assert jobs[x.uuid].Key() == x;
    }
  }

  lemma SweepLeaves(jobs: map<string, Job>, w: Queue<Args>, usable: Budget)
    requires InPlace(jobs, w, PreProcW)
    ensures var sweep := PopMany(w, usable);
            && sweep.queue.Valid()
            && (forall x :: x in sweep.queue.list <==> x in w.list && x.uuid !in JobIds(sweep.items))
            && (forall i, j :: 0 <= i < j < |sweep.items| ==> sweep.items[i].job.jobId != sweep.items[j].job.jobId)
            && (forall item :: item in sweep.items ==>
                  var id := item.job.jobId; id in jobs && jobs[id].stage == PreProcW && Listed(w.list, id))
  {
    WaitingIsNonNegative(jobs, w);
    hide PopMany, JobIds, KeysOf, Splits, Listed;
    var popped := PopManyIsFifoWithinBudget(w, usable);
    SweptItems(jobs, w, PopMany(w, usable), popped);
  }

  /** The items a sweep has taken off the waitlist. */
  lemma SweptItems(jobs: map<string, Job>, w: Queue<Args>, sweep: Sweep<Args>, popped: seq<StorageId>)
    requires InPlace(jobs, w, PreProcW)
    requires KeysOf(sweep.items) == popped && Splits(w.list, popped, sweep.queue.list)
    ensures forall x :: x in sweep.queue.list <==> x in w.list && x.uuid !in JobIds(sweep.items)
    ensures forall i, j :: 0 <= i < j < |sweep.items| ==> sweep.items[i].job.jobId != sweep.items[j].job.jobId
    ensures forall item :: item in sweep.items ==>
              var id := item.job.jobId; id in jobs && jobs[id].stage == PreProcW && Listed(w.list, id)
  {
    hide Among, Splits, JobIds, Queue<Args>.Valid, Job.Key;
    SplitsMembers(w.list, popped, sweep.queue.list);
    SweptDistinct(w, popped, sweep.queue.list);
    var items := sweep.items;
    IdsOfKeys(items);
    forall x | x in w.list
      ensures x in popped <==> x.uuid in JobIds(items)
    {
      if x.uuid in JobIds(items) {
        var key :| key in popped && key.uuid == x.uuid;
        SameKey(jobs, w, x, key);
      }
    }
    forall i, j | 0 <= i < j < |items|
      ensures items[i].job.jobId != items[j].job.jobId
    {
      assert popped[i] in popped && popped[j] in popped && popped[i] != popped[j];
      SameKey(jobs, w, popped[i], popped[j]);
    }
    forall item | item in items
      ensures var id := item.job.jobId; id in jobs && jobs[id].stage == PreProcW && Listed(w.list, id)
    {
      var i :| 0 <= i < |items| && items[i] == item;
      assert popped[i] in popped && popped[i].uuid == item.job.jobId;
    }
  }

  lemma SweptDistinct(w: Queue<Args>, popped: seq<StorageId>, rest: seq<StorageId>)
    requires w.Valid() && Splits(w.list, popped, rest)
    ensures Distinct(popped)
  {
    hide Among;
    DistinctAmong(w.list, IdsOf(popped), true);
  }

  /** In a list, one key for one job. */
  lemma SameKey(jobs: map<string, Job>, q: Queue<Args>, x: StorageId, y: StorageId)
    requires InPlace(jobs, q, PreProcW) && x in q.list && y in q.list
    ensures x == y <==> x.uuid == y.uuid
  {
    hide Queue<Args>.Valid, Job.Key;
  }

  // --- execution ---

  lemma StartingExecution(p: Pipeline, q: Pipeline, now: int, place: Place, item: Option<Item<Args>>)
    returns (ids: set<string>)
    requires Inv(p, now) && (place == NormalQueue || place == BookedQueue)
    requires q.jobs == p.jobs && q.workers == p.workers
    requires forall other :: other != place ==> At(q, other) == At(p, other)
    requires At(q, place) == Next(At(p, place)).0
    requires var next := Next(At(p, place)).1; item == if next.Ok? then next.value else None
    ensures Effect(p, Execute(p, q, item, now), ids, now) && Found(p, ids) && AllKept(Execute(p, q, item, now), ids)
  {
    hide Inv, Nowhere, Effect, Kept, Next, At;
    ids := Firing(p, q, now, place);
    if item.Some? {
      EffectKeeps(p, q, ids, now);
      StartingJob(p, q, now, item.value.job.jobId, ExecW, Task.Executing);
    }
  }

  lemma FinishedKey(p: Pipeline, now: int, i: nat)
    requires Inv(p, now) && Works(p, i, Task.Executing)
    ensures var q, id := FinishExecuting(p, i, now), p.workers[i].jobId;
            && id in p.jobs
            && (p.jobs[id].status == Cancelled ==> q == Release(p, i))
            && (p.jobs[id].status != Cancelled ==>
                  && q.postprocessing.queue.list == p.postprocessing.queue.list + [p.jobs[id].Key()]
                  && id in q.jobs && q.jobs[id].stage == PstProcQ)
  {
    BusyIsHere(p, now, i);
    OwnId(p, now, p.workers[i].jobId);
    hide Inv;
  }

  lemma FinishedEffect(p: Pipeline, now: int, i: nat)
    requires Inv(p, now) && Works(p, i, Task.Executing)
    ensures var q, id := FinishExecuting(p, i, now), p.workers[i].jobId;
            Effect(p, q, {id}, now) && Kept(q, id)
  {
    hide Inv, Nowhere, Effect, Release, SetStage, Add;
    var id, q := p.workers[i].jobId, Release(p, i);
    FreeingJob(p, now, i);
    FreeingKeepsJobs(p, i);
    EffectKeeps(p, q, {id}, now);
    if p.jobs[id].status != Cancelled {
      var moved, done := SetStage(q, id, PstProcQ, now), FinishExecuting(p, i, now);
      MovingJob(q, now, id, PstProcQ);
      EffectKeeps(q, moved, {id}, now);
      JoiningJob(moved, done, now, PostprocessingQueue, id, None);
      Chain(q, moved, done, {id}, {id}, now);
      assert {id} + {id} == {id};
      Chain(p, q, done, {id}, {id}, now);
    }
  }

  lemma EndingExecution(p: Pipeline, now: int, i: nat)
    requires Inv(p, now) && Works(p, i, Task.Executing)
    ensures var q, id := FinishExecuting(p, i, now), p.workers[i].jobId;
            && Effect(p, q, {id}, now) && Kept(q, id)
            && id in p.jobs
            && (p.jobs[id].status == Cancelled ==> q.jobs == p.jobs && Nowhere(q, id))
            && (p.jobs[id].status != Cancelled ==>
                  && q.postprocessing.queue.list == p.postprocessing.queue.list + [p.jobs[id].Key()]
                  && id in q.jobs && q.jobs[id].stage == PstProcQ)
  {
    hide Inv, Nowhere, Effect, Kept, FinishExecuting;
    FinishedKey(p, now, i);
    FinishedEffect(p, now, i);
    FreeingJob(p, now, i);
    FreeingKeepsJobs(p, i);
  }

  // --- postprocessing ---

  /** If the results file cannot be moved, the job is left nowhere, as it is. */
  lemma StartingPostprocessing(p: Pipeline, now: int, at: nat, movable: bool) returns (ids: set<string>)
    requires Inv(p, now)
    ensures var q := StartPostprocessing(p, at, movable, now);
            && Effect(p, q, ids, now) && Found(p, ids)
            && (movable || at >= |p.postprocessing.tokens| || Handed(p.postprocessing).None? ==> AllKept(q, ids))
            && (!movable && at < |p.postprocessing.tokens| && Handed(p.postprocessing).Some? ==>
                  var id := Handed(p.postprocessing).value.job.jobId;
                  ids == {id} && id in p.jobs && q.jobs == p.jobs && Nowhere(q, id))
  {
    hide Inv, Nowhere, Effect, Kept, Next;
    if at >= |p.postprocessing.tokens| {
      ids := {};
      Nothing(p, now);
    } else {
      var item, q := Handed(p.postprocessing), p.(postprocessing := Fire(p.postprocessing, at));
      ids := Firing(p, q, now, PostprocessingQueue);
      if item.Some? && movable {
        EffectKeeps(p, q, ids, now);
        StartingJob(p, q, now, item.value.job.jobId, PstProcW, Postprocessing);
      }
    }
  }

  lemma SavingResults(p: Pipeline, now: int, i: nat)
    requires Inv(p, now) && Works(p, i, Postprocessing)
    ensures var q, id := SaveResults(p, i), p.workers[i].jobId;
            Effect(p, q, {id}, now) && Kept(q, id)
  {
    hide Inv, Nowhere, SameElsewhere, Evolves, Effect;
    var id := p.workers[i].jobId;
    BusyIsHere(p, now, i);
    EndingJob(p, now, id, Successful);
    var q := SetStatus(p, id, Successful);
    EffectKeeps(p, q, {id}, now);
    Retasking(q, now, i, Returned);
    RetaskingJob(q, SaveResults(p, i), now);
    Chain(p, q, SaveResults(p, i), {id}, {}, now);
    assert {id} + {} == {id};
  }

  lemma RetaskingJob(q: Pipeline, r: Pipeline, now: int)
    requires Inv(r, now) && SameElsewhere(q, r, {})
    ensures Effect(q, r, {}, now)
  {
  }

  lemma FailingPostprocessing(p: Pipeline, now: int, i: nat, saved: bool)
    requires Inv(p, now) && Works(p, i, Postprocessing)
    ensures var q, id := FailPostprocessing(p, i, saved), p.workers[i].jobId;
            Effect(p, q, {id}, now) && Kept(q, id)
  {
    hide Inv, Nowhere, SameElsewhere, Evolves, Effect, SetStatus, AtWork;
    var id := p.workers[i].jobId;
    BusyIsHere(p, now, i);
    var q := if saved then SetStatus(p, id, Successful) else p;
    SameWorkers(p, id, Successful);
    if saved {
      EndingJob(p, now, id, Successful);
      EffectKeeps(p, q, {id}, now);
    }
    Retasking(q, now, i, Raised);
    RetaskingJob(q, FailPostprocessing(p, i, saved), now);
    if saved {
      Chain(p, q, FailPostprocessing(p, i, saved), {id}, {}, now);
      assert {id} + {} == {id};
    } else {
      Widen(p, FailPostprocessing(p, i, saved), {}, {id}, now);
    }
  }

  lemma BusyIsHere(p: Pipeline, now: int, i: nat)
    requires Inv(p, now) && i < |p.workers|
    ensures p.workers[i].jobId in p.jobs
  {
    BusyIsAtWork(p, now, i);
  }

  lemma SameWorkers(p: Pipeline, id: string, status: Status)
    ensures SetStatus(p, id, status).workers == p.workers
    ensures forall other :: other in p.jobs ==> other in SetStatus(p, id, status).jobs
  {
  }

  lemma Widen(p: Pipeline, q: Pipeline, ids: set<string>, more: set<string>, now: int)
    requires Effect(p, q, ids, now) && ids <= more
    ensures Effect(p, q, more, now)
  {
    hide Inv, Nowhere, Evolves;
    forall id | id in more && id in p.jobs
      ensures id in q.jobs && Evolves(p.jobs[id], q.jobs[id])
    {
      if id !in ids {
        EvolvesOff(p.jobs[id]);
      }
    }
  }

  lemma EvolvesOff(job: Job)
    ensures Evolves(job, job)
  {
  }

  lemma ReturnedHasEnded(p: Pipeline, now: int, i: nat)
    requires Inv(p, now) && Works(p, i, Returned)
    ensures i < |p.workers| && p.workers[i].task == Returned
    ensures p.workers[i].jobId in p.jobs && p.jobs[p.workers[i].jobId].status.IsTerminal()
  {
    BusyIsAtWork(p, now, i);
  }

  lemma Succeeding(p: Pipeline, now: int, i: nat)
    requires Inv(p, now) && Works(p, i, Returned)
    ensures var q, id := Succeed(p, i, now), p.workers[i].jobId;
            && Effect(p, q, {id}, now) && Kept(q, id) && Nowhere(q, id)
            && id in p.jobs && id in q.jobs && q.jobs[id].status == p.jobs[id].status
            && q.jobs[id].stage == if p.jobs[id].status == Successful then FinalW else FinalQ
  {
    hide Inv, Nowhere, Effect, Release, SetStage, AtWork, Works;
    ReturnedHasEnded(p, now, i);
    var id, freed := p.workers[i].jobId, Release(p, i);
    FreeingJob(p, now, i);
    FreeingKeepsJobs(p, i);
    EffectKeeps(p, freed, {id}, now);
    var q := SetStage(freed, id, FinalQ, now);
    MovingJob(freed, now, id, FinalQ);
    EffectKeeps(freed, q, {id}, now);
    Chain(p, freed, q, {id}, {id}, now);
    assert {id} + {id} == {id};
    if q.jobs[id].status == Successful {
      MovingJob(q, now, id, FinalW);
      Chain(p, q, SetStage(q, id, FinalW, now), {id}, {id}, now);
    }
  }

  // --- cancellation ---

  lemma CancellingIn(p: Pipeline, p': Pipeline, now: int, place: Place, key: StorageId)
    requires Inv(p, now) && p'.jobs == p.jobs && p'.workers == p.workers && key.uuid in p.jobs
    requires forall other :: other != place ==> At(p', other) == At(p, other)
    requires At(p', place) == PopJob(At(p, place), key).0
    requires p.jobs[key.uuid].stage == StageAt(place) ==> key == p.jobs[key.uuid].Key()
    ensures Effect(p, p', {key.uuid}, now) && !Listed(At(p', place).list, key.uuid)
  {
    PlacesHold(p, now, place);
    hide Inv, Nowhere, At, PopJob, InPlace, Queue<Args>.Valid, Effect;
    CancelledLeaves(p.jobs, At(p, place), StageAt(place), key);
    LeavingJobs(p, p', now, place, {key.uuid});
  }

  lemma CancelledLeaves(jobs: map<string, Job>, q: Queue<Args>, stage: Stage, key: StorageId)
    requires InPlace(jobs, q, stage) && key.uuid in jobs
    requires jobs[key.uuid].stage == stage ==> key == jobs[key.uuid].Key()
    ensures var q' := PopJob(q, key).0;
            && q'.Valid() && !Listed(q'.list, key.uuid)
            && forall x :: x in q'.list <==> x in q.list && x.uuid !in {key.uuid}
  {
    PoppingOne(jobs, q, stage, key);
  }

  /** One more list without the job. */
  lemma CancellingNext(p: Pipeline, q: Pipeline, r: Pipeline, now: int, place: Place, key: StorageId, gone: set<Place>)
    requires Effect(p, q, {key.uuid}, now) && key.uuid in p.jobs
    requires q.jobs == p.jobs && q.workers == p.workers && r.jobs == q.jobs && r.workers == q.workers
    requires forall other :: other != place ==> At(r, other) == At(q, other)
    requires At(r, place) == PopJob(At(q, place), key).0
    requires q.jobs[key.uuid].stage == StageAt(place) ==> key == q.jobs[key.uuid].Key()
    requires forall there :: there in gone ==> !Listed(At(q, there).list, key.uuid)
    ensures Effect(p, r, {key.uuid}, now)
    ensures forall there :: there in gone || there == place ==> !Listed(At(r, there).list, key.uuid)
  {
    hide At, Effect, Inv, PopJob, Listed;
    EffectKeeps(p, q, {key.uuid}, now);
    CancellingIn(q, r, now, place, key);
    Chain(p, q, r, {key.uuid}, {key.uuid}, now);
    assert {key.uuid} + {key.uuid} == {key.uuid};
  }

  lemma KeysToCancel(p: Pipeline, now: int, id: string)
    requires Inv(p, now) && id in p.jobs
    ensures p.jobs[id].id == id && p.jobs[id].Key().uuid == id
    ensures p.jobs[id].stage == PreProcQ ==> p.jobs[id].Key() == StorageId(id, 0.0)
  {
    StoredUnderId(p.jobs, now, id);
  }

  lemma CancellingInQueues(p: Pipeline, now: int, id: string)
    requires Inv(p, now) && id in p.jobs
    ensures var q := CancelInQueues(p, p.jobs[id]);
            && Effect(p, q, {id}, now) && q.jobs == p.jobs && q.workers == p.workers
            && forall place :: !Listed(At(q, place).list, id)
  {
    hide Inv, Effect, PopJob, Listed, CancelToken, Job.Key;
    KeysToCancel(p, now, id);
    var key := p.jobs[id].Key();
    var q := CancelInQueues(p, p.jobs[id]);
    var p1 := p.(waitlist := q.waitlist);
    var p2 := p1.(preprocessing := q.preprocessing);
    var p3 := p2.(normal := q.normal);
    var p4 := p3.(booked := q.booked);
    Nothing(p, now);
    Widen(p, p, {}, {id}, now);
    CancellingNext(p, p, p1, now, WaitingList, key, {});
    CancellingNext(p, p1, p2, now, PreprocessingQueue, StorageId(id, 0.0), {WaitingList});
    CancellingNext(p, p2, p3, now, NormalQueue, key, {WaitingList, PreprocessingQueue});
    CancellingNext(p, p3, p4, now, BookedQueue, key, {WaitingList, PreprocessingQueue, NormalQueue});
    CancellingNext(p, p4, q, now, PostprocessingQueue, key,
      {WaitingList, PreprocessingQueue, NormalQueue, BookedQueue});
    AllPlaces();
  }

  predicate Other(place: Place) {
    place in {WaitingList, PreprocessingQueue, NormalQueue, BookedQueue}
  }

  lemma AllPlaces()
    ensures forall place: Place :: Other(place) || place == PostprocessingQueue
  {
  }

  /** Afterwards no list has the job; a worker may. */
  lemma Cancelling(p: Pipeline, now: int, id: string)
    requires Inv(p, now) && id in p.jobs
    ensures var q := Cancel(p, id);
            && Effect(p, q, {id}, now) && Kept(q, id)
            && q.jobs[id] == p.jobs[id].(status := Cancelled)
            && (Nowhere(q, id) <==> !Busy(p.workers, id))
  {
    var q := CancelInQueues(p, p.jobs[id]);
    CancellingInQueues(p, now, id);
    assert Nowhere(q, id) <==> !Busy(p.workers, id);
    hide Inv, Nowhere, Effect, CancelInQueues, Listed, Busy;
    EffectKeeps(p, q, {id}, now);
    EndingJob(q, now, id, Cancelled);
    Chain(p, q, SetStatus(q, id, Cancelled), {id}, {id}, now);
    assert {id} + {id} == {id};
  }
}
