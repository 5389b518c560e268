/** The queue operations on values: a list of storage ids, two hash maps keyed by
    them, and a running total of durations. */
module Queues {
  import opened Wrappers

  /** `{uuid}:::{duration}`, as a pair. */
  datatype StorageId = StorageId(uuid: string, duration: real)

  /** What a queue stores of a job. */
  datatype QueuedJob = QueuedJob(jobId: string, estimated: Option<real>) {
    function Duration(): real {
      if estimated.Some? then estimated.value else 0.0
    }

    function Key(): StorageId {
      StorageId(jobId, Duration())
    }
  }

  datatype Item<A> = Item(job: QueuedJob, args: A)

  datatype QueueError =
    | MalformedKey    // the id popped from an empty list is not a storage id
    | InvalidJob      // no job is stored under the id
    | InvalidArgs     // a job is, but no arguments

  datatype Queue<A> = Queue(
    list: seq<StorageId>,
    jobs: map<StorageId, QueuedJob>,
    args: map<StorageId, A>,
    total: real,
    current: Option<QueuedJob>)
  {
    /** Ids are listed once, the stored jobs are exactly the listed ones, each
        under its own id, and there are arguments for all of them. */
    ghost predicate Valid() {
      && Distinct(list)
      && (forall id :: id in list <==> id in jobs)
      && (forall id :: id in jobs ==> jobs[id].Key() == id && id in args)
    }
  }

  function EmptyQueue<A>(): Queue<A> {
    Queue([], map[], map[], 0.0, None)
  }

  ghost predicate Distinct<T(!new)>(s: seq<T>) {
    forall i, j :: 0 <= i < j < |s| ==> s[i] != s[j]
  }

  function Sum(ids: seq<StorageId>): real {
    if ids == [] then 0.0 else Sum(ids[..|ids| - 1]) + ids[|ids| - 1].duration
  }

  /** `LREM key 1 x`: drops the first occurrence, if any. */
  function RemoveFirst<T(==)>(s: seq<T>, x: T): seq<T> {
    if s == [] then [] else if s[0] == x then s[1..] else [s[0]] + RemoveFirst(s[1..], x)
  }

  /** Nothing else is dropped. */
  lemma {:induction false} RemovedAt<T(!new)>(s: seq<T>, at: nat)
    requires at < |s| && forall j :: 0 <= j < at ==> s[j] != s[at]
    ensures RemoveFirst(s, s[at]) == s[..at] + s[at + 1..]
  {
    if at > 0 {
      RemovedAt(s[1..], at - 1);
    }
  }

  lemma {:induction false} NothingRemoved<T(!new)>(s: seq<T>, x: T)
    requires x !in s
    ensures RemoveFirst(s, x) == s
  {
    if s != [] {
      NothingRemoved(s[1..], x);
    }
  }

  /** `LREM`, said of a list before and after: its first entry that is x goes. */
  ghost predicate DropsFirst<T(!new)>(before: seq<T>, x: T, after: seq<T>) {
    && (x !in before ==> after == before)
    && (forall at :: 0 <= at < |before| && before[at] == x && x !in before[..at] ==>
          after == before[..at] + before[at + 1..])
  }

  lemma RemovalDropsFirst<T(!new)>(s: seq<T>, x: T)
    ensures DropsFirst(s, x, RemoveFirst(s, x))
  {
    if x !in s {
      NothingRemoved(s, x);
    }
    forall at | 0 <= at < |s| && s[at] == x && x !in s[..at]
      ensures RemoveFirst(s, x) == s[..at] + s[at + 1..]
    {
      assert forall j :: 0 <= j < at ==> s[j] in s[..at];
      RemovedAt(s, at);
    }
  }

  // --- the operations, on values ---

  function Add<A>(q: Queue<A>, job: QueuedJob, args: A): Queue<A> {
    q.(list := q.list + [job.Key()],
       jobs := q.jobs[job.Key() := job],
       args := q.args[job.Key() := args],
       total := q.total + job.Duration())
  }

  function Lookup<A>(q: Queue<A>, id: StorageId): Result<Item<A>, QueueError> {
    if id !in q.jobs then Err(InvalidJob)
    else if id !in q.args then Err(InvalidArgs)
    else Ok(Item(q.jobs[id], q.args[id]))
  }

  /** Forgets the id in both maps and takes its duration off the total, whether
      the id was there or not. */
  function Forget<A>(q: Queue<A>, id: StorageId): Queue<A> {
    q.(jobs := q.jobs - {id}, args := q.args - {id}, total := q.total - id.duration)
  }

  function PopJob<A>(q: Queue<A>, id: StorageId): (Queue<A>, Result<Item<A>, QueueError>) {
    (Forget(q.(list := RemoveFirst(q.list, id)), id), Lookup(q, id))
  }

  /** The first entry with the id leaves the list; what is stored under it is given out
      and forgotten, and its duration is taken off, also if it was not there. */
  lemma PoppingMeans<A>(q: Queue<A>, id: StorageId)
    ensures var (q', item) := PopJob(q, id);
            && DropsFirst(q.list, id, q'.list) && q'.jobs == q.jobs - {id} && q'.args == q.args - {id}
            && q'.total == q.total - id.duration && q'.current == q.current
            && item == if id !in q.jobs then Err(InvalidJob)
                       else if id !in q.args then Err(InvalidArgs)
                       else Ok(Item(q.jobs[id], q.args[id]))
  {
    RemovalDropsFirst(q.list, id);
    hide RemoveFirst, DropsFirst;
  }

  /** The next item; `Ok(None)` when the listed id has no job. */
  function Next<A>(q: Queue<A>): (Queue<A>, Result<Option<Item<A>>, QueueError>) {
    if q.list == [] then (q, Err(MalformedKey))
    else
      var id := q.list[0];
      var rest := Forget(q.(list := q.list[1..]), id);
      match Lookup(q, id)
      case Err(InvalidJob) => (rest, Ok(None))
      case Err(error) => (rest.(current := Some(q.jobs[id])), Err(error))
      case Ok(item) => (rest.(current := Some(item.job)), Ok(Some(item)))
  }

  /** Removes everything but the arguments, which stay behind. */
  function Clear<A>(q: Queue<A>): Queue<A> {
    Queue([], map[], q.args, 0.0, None)
  }

  const BATCH_SIZE := 100

  function NumOfBatches(entries: nat): nat {
    (entries + BATCH_SIZE - 1) / BATCH_SIZE
  }

  /** `LRANGE key start start+99`. */
  function Batch(list: seq<StorageId>, batch: nat): seq<StorageId> {
    var start := batch * BATCH_SIZE;
    var stop := start + BATCH_SIZE;
    if |list| <= start then [] else if |list| < stop then list[start..] else list[start..stop]
  }

  /** None is no limit. */
  type Budget = Option<real>

  predicate Exceeds(duration: real, available: Budget) {
    available.Some? && duration > available.value
  }

  function Spend(available: Budget, duration: real): Budget {
    if available.Some? then Some(available.value - duration) else None
  }

  predicate IsOpen(available: Budget) {
    available.None? || available.value > 0.0
  }

  datatype Sweep<A> = Sweep(queue: Queue<A>, items: seq<Item<A>>, available: Budget, error: Option<QueueError>)

  /** Pops, one after the other, the entries that fit in what is still available. */
  function SweepEntries<A>(so: Sweep<A>, entries: seq<StorageId>): Sweep<A> {
    if entries == [] then so
    else
      var before, id := SweepEntries(so, entries[..|entries| - 1]), entries[|entries| - 1];
      if before.error.Some? || Exceeds(id.duration, before.available) then before
      else
        var (queue, popped) := PopJob(before.queue, id);
        match popped
        case Err(error) => before.(queue := queue, error := Some(error))
        case Ok(item) => Sweep(queue, before.items + [item], Spend(before.available, id.duration), None)
  }

  /** Batch after batch, each read from the list as the earlier ones have left it. */
  function SweepBatches<A>(so: Sweep<A>, batch: nat, batches: nat): Sweep<A>
    decreases batches - batch
  {
    if batch >= batches || so.error.Some? || !IsOpen(so.available) then so
    else SweepBatches(SweepEntries(so, Batch(so.queue.list, batch)), batch + 1, batches)
  }

  function PopMany<A>(q: Queue<A>, budget: Budget): Sweep<A> {
    SweepBatches(Sweep(q, [], budget, None), 0, NumOfBatches(|q.list|))
  }
}
