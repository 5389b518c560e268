/** `StaticQueue`: the queue that keeps jobs without running them, its list, maps
    and total changed in place, proved against `Queues`. */
module StaticQueues {
  import opened Wrappers
  import opened Prefixes
  import opened Queues

  class StaticQueue<A> {
    var list: seq<StorageId>
    var jobs: map<StorageId, QueuedJob>
    var args: map<StorageId, A>
    var total: real
    var current: Option<QueuedJob>

    function State(): Queue<A>
      reads this
    {
      Queue(list, jobs, args, total, current)
    }

    constructor ()
      ensures State() == EmptyQueue()
    {
      list, jobs, args, total, current := [], map[], map[], 0.0, None;
    }

    method Add(job: QueuedJob, a: A)
      modifies this
      ensures State() == Queues.Add(old(State()), job, a)
      ensures var d := if job.estimated.Some? then job.estimated.value else 0.0;
              var id := StorageId(job.jobId, d);
              && list == old(list) + [id] && total == old(total) + d && current == old(current)
              && jobs == old(jobs)[id := job] && args == old(args)[id := a]
    {
      jobs := jobs[job.Key() := job];
      args := args[job.Key() := a];
      list := list + [job.Key()];
      total := total + job.Duration();
    }

    method Next() returns (result: Result<Option<Item<A>>, QueueError>)
      modifies this
      ensures (State(), result) == Queues.Next(old(State()))
      ensures old(list) == [] ==> State() == old(State()) && result == Err(MalformedKey)
      ensures old(list) != [] ==>
                var id := old(list)[0];
                && list == old(list)[1..] && jobs == old(jobs) - {id} && args == old(args) - {id}
                && total == old(total) - id.duration
                && current == (if id in old(jobs) then Some(old(jobs)[id]) else old(current))
                && result == if id !in old(jobs) then Ok(None)
                             else if id !in old(args) then Err(InvalidArgs)
                             else Ok(Some(Item(old(jobs)[id], old(args)[id])))
    {
      if list == [] {
        return Err(MalformedKey);
      }
      var id := list[0];
      list := list[1..];
      total := total - id.duration;
      var found := Lookup(State(), id);
      var job := if id in jobs then Some(jobs[id]) else None;
      jobs := jobs - {id};
      args := args - {id};
      if job.None? {
        return Ok(None);
      }
      current := job;
      result := if found.Ok? then Ok(Some(found.value)) else Err(found.error);
    }

    method Clear()
      modifies this
      ensures State() == Queues.Clear(old(State()))
      ensures list == [] && jobs == map[] && args == old(args) && total == 0.0 && current == None
    {
      list, jobs, total, current := [], map[], 0.0, None;
    }

    method PopJob(id: StorageId) returns (result: Result<Item<A>, QueueError>)
      modifies this
      ensures (State(), result) == Queues.PopJob(old(State()), id)
    {
      var found := Lookup(State(), id);
      list := RemoveFirst(list, id);
      jobs := jobs - {id};
      args := args - {id};
      total := total - id.duration;
      result := found;
    }

    /** Pops the first listed job the filter accepts, whatever the batch it is in. */
    method PopFirst(accepts: StorageId -> bool) returns (result: Result<Option<Item<A>>, QueueError>)
      modifies this
      ensures (forall i :: 0 <= i < |old(list)| ==> !accepts(old(list)[i])) ==>
                State() == old(State()) && result == Ok(None)
      ensures forall i :: 0 <= i < |old(list)| && accepts(old(list)[i]) &&
                          (forall j :: 0 <= j < i ==> !accepts(old(list)[j])) ==>
                var popped := Queues.PopJob(old(State()), old(list)[i]);
                State() == popped.0 &&
                result == if popped.1.Ok? then Ok(Some(popped.1.value)) else Err(popped.1.error)
    {
      var batches := NumOfBatches(|list|);
      var batch := 0;
      while batch < batches
        invariant batch <= batches == NumOfBatches(|list|)
        invariant State() == old(State())
        invariant forall i :: 0 <= i < |list| && i < batch * BATCH_SIZE ==> !accepts(list[i])
      {
        var entries := Batch(list, batch);
        for i := 0 to |entries|
          invariant State() == old(State())
          invariant forall j :: 0 <= j < |list| && j < batch * BATCH_SIZE + i ==> !accepts(list[j])
        {
          assert entries[i] == list[batch * BATCH_SIZE + i];
          if accepts(entries[i]) {
            var popped := PopJob(entries[i]);
            return if popped.Ok? then Ok(Some(popped.value)) else Err(popped.error);
          }
        }
        batch := batch + 1;
      }
      assert |list| <= batches * BATCH_SIZE;
      result := Ok(None);
    }

    /** Pops, in list order, the jobs that fit in the budget.  An error ends the sweep. */
    method PopMany(budget: Budget) returns (items: seq<Item<A>>, available: Budget, error: Option<QueueError>)
      modifies this
      ensures Sweep(State(), items, available, error) == Queues.PopMany(old(State()), budget)
    {
      var batches := NumOfBatches(|list|);
      items, available, error := [], budget, None;
      var batch := 0;
      while batch < batches && IsOpen(available) && error.None?
        invariant batch <= batches
        invariant SweepBatches(Sweep(State(), items, available, error), batch, batches) ==
                  Queues.PopMany(old(State()), budget)
        decreases batches - batch
      {
        var entries := Batch(list, batch);
        ghost var so := Sweep(State(), items, available, error);
        for i := 0 to |entries|
          invariant Sweep(State(), items, available, error) == SweepEntries(so, entries[..i])
        {
          PrefixGrows(entries, i);
          PrefixOfAppend(entries[..i], entries[i]);
          var id := entries[i];
          if error.Some? || Exceeds(id.duration, available) {
            continue;
          }
          var popped := PopJob(id);
          if popped.Err? {
            error := Some(popped.error);
          } else {
            items := items + [popped.value];
            available := Spend(available, id.duration);
          }
        }
        PrefixWhole(entries);
        batch := batch + 1;
      }
    }
  }
}
