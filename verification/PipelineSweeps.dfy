/** When the sweep of the waitlist leaves no more on the normal queue than ends before
    the next booking.  The sweep looks at the time to the booking only. */
module PipelineSweeps {
  import opened Wrappers
  import opened Queues
  import opened QueueProperties
  import opened PopManyProperties
  import opened Jobs
  import opened Pipelines
  import opened PipelineStates
  import opened PipelineSteps
  import opened PipelineProperties
  import opened PipelineTotals
  import opened PipelineWitnesses

  // --- what a sweep takes ---

  /** What a sweep takes and what it leaves add up; it takes nothing without time. */
  lemma SweptSum<A>(w: Queue<A>, usable: real) returns (popped: seq<StorageId>)
    requires w.Valid() && NonNegative(w.list)
    ensures var r := PopMany(w, Some(usable));
            && popped == KeysOf(r.items) && r.available == Some(usable - Sum(popped))
            && Sum(popped) + Sum(r.queue.list) == Sum(w.list)
            && NonNegative(r.queue.list) && Sum(popped) >= 0.0 && Sum(r.queue.list) >= 0.0
            && (usable <= 0.0 ==> popped == [])
            && (usable >= 0.0 ==> Sum(popped) <= usable)
  {
    hide PopMany, Sum, Splits, Queue<A>.Valid, NonNegative;
    popped := PopManyIsFifoWithinBudget(w, Some(usable));
    PartsAddUp(w.list, popped, PopMany(w, Some(usable)).queue.list);
    if usable <= 0.0 {
      NothingWithoutTime(w, usable);
    }
  }

  lemma PartsAddUp(list: seq<StorageId>, popped: seq<StorageId>, rest: seq<StorageId>)
    requires NonNegative(list) && Splits(list, popped, rest)
    ensures Sum(popped) + Sum(rest) == Sum(list)
    ensures NonNegative(rest) && Sum(popped) >= 0.0 && Sum(rest) >= 0.0
  {
    hide Sum, Among;
    SumSplits(list, IdsOf(popped));
    SplitsMembers(list, popped, rest);
    SumIsNonNegative(popped);
    SumIsNonNegative(rest);
  }

  lemma NothingWithoutTime<A>(w: Queue<A>, usable: real)
    requires usable <= 0.0
    ensures PopMany(w, Some(usable)).items == []
  {
  }

  /** Up to a hundred jobs for which there is time in all are all taken, but for such
      as take none. */
  lemma AllAreSwept<A>(w: Queue<A>, usable: real)
    requires w.Valid() && NonNegative(w.list) && |w.list| <= 100 && Sum(w.list) <= usable
    ensures Sum(KeysOf(PopMany(w, Some(usable)).items)) == Sum(w.list)
  {
    var popped := SweptSum(w, usable);
    CompleteUpToOneBatch(w, Some(usable));
    hide PopMany, Sum;
    var rest := PopMany(w, Some(usable)).queue.list;
    NothingIsNoTime();
    if rest != [] {
      OneIsAtMostTheSum(rest);
    }
  }

  lemma NothingIsNoTime()
    ensures Sum([]) == 0.0
  {
  }

  lemma OneIsAtMostTheSum(ids: seq<StorageId>)
    requires NonNegative(ids) && ids != []
    ensures exists id :: id in ids && id.duration <= Sum(ids)
  {
    SumIsNonNegative(ids[..|ids| - 1]);
    assert ids[|ids| - 1] in ids;
  }

  // --- for one state ---

  /** All that is on the normal queue after the sweep, and the running job, end in the
      time that was left before it. */
  ghost predicate EndsInTime(p: Pipeline, now: int, usable: real, running: real) {
    Sum(WaitlistToNormal(p, Some(usable), now).normal.queue.list) + running <= usable
  }

  lemma QueuedAfterSweep(p: Pipeline, now: int, usable: real)
    requires Inv(p, now)
    ensures p.waitlist.Valid() && NonNegative(p.waitlist.list)
    ensures Sum(WaitlistToNormal(p, Some(usable), now).normal.queue.list) ==
            Sum(p.normal.queue.list) + Sum(KeysOf(PopMany(p.waitlist, Some(usable)).items))
  {
    hide Inv, PopMany, WaitlistToNormal, Splits, Sum;
    PlacesHold(p, now, WaitingList);
    WaitingIsNonNegative(p.jobs, p.waitlist);
    var popped := SweptJobsAreQueued(p, now, Some(usable));
    SumConcat(p.normal.queue.list, popped);
  }

  /** While there is time for the whole waitlist, of up to a hundred jobs: all end in
      time exactly if there is time for it behind what is queued and the running job. */
  lemma SweepOfAllEndsInTimeExactly(p: Pipeline, now: int, usable: real, running: real)
    requires Inv(p, now) && |p.waitlist.list| <= 100 && Sum(p.waitlist.list) <= usable
    ensures EndsInTime(p, now, usable, running) <==>
            Sum(p.normal.queue.list) + Sum(p.waitlist.list) + running <= usable
  {
    hide Inv, PopMany, WaitlistToNormal, Sum;
    QueuedAfterSweep(p, now, usable);
    AllAreSwept(p.waitlist, usable);
  }

  // --- whatever waits ---

  /** A list of one job. */
  function OneJob(key: StorageId): Queue<Args> {
    Queue([key], map[key := QueuedJob(key.uuid, Some(key.duration))], map[key := None], key.duration, None)
  }

  ghost predicate IsWaitlist(w: Queue<Args>) {
    w.Valid() && NonNegative(w.list)
  }

  /** Whatever is on the waitlist, the swept jobs end in time behind those queued:
      exactly if there are none, nor a running one; or, with no time left, if those
      are done by then. */
  lemma SweepsEndInTimeExactly(queued: real, running: real, usable: real)
    ensures (forall w :: IsWaitlist(w) ==>
               queued + Sum(KeysOf(PopMany(w, Some(usable)).items)) + running <= usable) <==>
            queued + running <= if usable > 0.0 then 0.0 else usable
  {
    hide PopMany, Sum, KeysOf;
    NothingIsNoTime();
    forall w | IsWaitlist(w)
      ensures usable >= 0.0 ==> 0.0 <= Sum(KeysOf(PopMany(w, Some(usable)).items)) <= usable
      ensures usable <= 0.0 ==> Sum(KeysOf(PopMany(w, Some(usable)).items)) == 0.0
    {
      var _ := SweptSum(w, usable);
    }
    var key := StorageId("", if usable > 0.0 then usable else 0.0);
    OneJobIsSwept(key, usable);
  }

  lemma OneJobIsSwept(key: StorageId, usable: real)
    requires 0.0 <= key.duration && (usable > 0.0 ==> key.duration <= usable)
    ensures IsWaitlist(OneJob(key))
    ensures usable > 0.0 ==> Sum(KeysOf(PopMany(OneJob(key), Some(usable)).items)) == key.duration
  {
    SumOne(key);
    hide PopMany, Sum, KeysOf;
    if usable > 0.0 {
      AllAreSwept(OneJob(key), usable);
    }
  }

  /** The same over all reachable states with so much on the normal queue. */
  lemma SweptStatesEndInTimeExactly(queued: Seconds, running: real, usable: real)
    ensures (forall run :: ClockRuns(run) && Sum(Reach(run).normal.queue.list) == queued ==>
               EndsInTime(Reach(run), Clock(run), usable, running)) <==>
            queued + running <= if usable > 0.0 then 0.0 else usable
  {
    hide Reach, PopMany, Sum, KeysOf, Inv, WaitlistToNormal, EndsInTime;
    forall run | ClockRuns(run) && Sum(Reach(run).normal.queue.list) == queued
      ensures queued + running <= (if usable > 0.0 then 0.0 else usable) ==>
                EndsInTime(Reach(run), Clock(run), usable, running)
    {
      EveryRun(run);
      if queued + running <= if usable > 0.0 then 0.0 else usable {
        SweptInTime(Reach(run), Clock(run), usable, running);
      }
    }
    var run := SweptLate(queued, usable, running);
  }

  lemma SweptInTime(p: Pipeline, now: int, usable: real, running: real)
    requires Inv(p, now) && Sum(p.normal.queue.list) + running <= if usable > 0.0 then 0.0 else usable
    ensures EndsInTime(p, now, usable, running)
  {
    hide PopMany, Sum, Inv, WaitlistToNormal;
    QueuedAfterSweep(p, now, usable);
    var popped := SweptSum(p.waitlist, usable);
    NothingIsNoTime();
  }

  /** A run after which the sweep takes all the time there is. */
  lemma SweptLate(queued: Seconds, usable: real, running: real) returns (run: seq<Timed>)
    ensures ClockRuns(run) && Sum(Reach(run).normal.queue.list) == queued
    ensures EndsInTime(Reach(run), Clock(run), usable, running) <==>
            queued + running <= if usable > 0.0 then 0.0 else usable
  {
    hide Reach, PopMany, Sum, Inv, WaitlistToNormal, Waits, MissedBy;
    var first := StorageId("a", queued);
    SumOne(first);
    if usable > 0.0 {
      var second := StorageId("b", usable);
      run := WaitsBehind("a", "b", queued, usable, 0.0, 0);
      AtOnceRuns(run, 0);
      EveryRun(run);
      OneIsSwept(Reach(run), Clock(run), second, usable);
      assert [first] + [second] == [first, second];
      SumOfTwo(first, second);
    } else {
      run := OnNormalQueue("a", queued, 0);
      AtOnceRuns(run, 0);
      EveryRun(run);
      QueuedAlone(Reach(run), first);
      QueuedAfterSweep(Reach(run), Clock(run), usable);
      var popped := SweptSum(Reach(run).waitlist, usable);
      NothingIsNoTime();
    }
  }
}
