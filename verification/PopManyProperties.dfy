/** `pop_many` takes jobs in FIFO order within its budget.  How much of the list it
    looks at depends on the length of the list: its batches are read by index from
    a list that the earlier batches have shortened. */
module PopManyProperties {
  import opened Wrappers
  import opened Prefixes
  import opened Queues
  import opened QueueProperties

  /** After some batches: the list is cut in a part already passed and the rest;
      the part is split in what was popped and what was left. */
  ghost predicate Progress<A>(so: Sweep<A>, now: Sweep<A>, batch: nat, cut: nat,
                              popped: seq<StorageId>, left: seq<StorageId>) {
    var list := so.queue.list;
    && cut <= |list| && |left| <= batch * BATCH_SIZE
    && now.error.None? && now.queue.Valid()
    && now.queue.list == left + list[cut..]
    && Splits(list[..cut], popped, left)
    && KeysOf(now.items) == KeysOf(so.items) + popped
    && now.queue.total == so.queue.total - Sum(popped)
    && now.available == Spent(so.available, popped)
    && (so.available.Some? && so.available.value >= 0.0 ==> now.available.value >= 0.0)
  }

  lemma DistinctParts(a: seq<StorageId>, b: seq<StorageId>)
    requires Distinct(a + b)
    ensures Distinct(a) && Distinct(b) && forall id :: id in a ==> id !in b
  {
    var s := a + b;
    forall i, j | 0 <= i < j < |b|
      ensures b[i] != b[j]
    {
      assert s[|a| + i] != s[|a| + j];
    }
    forall i, j | 0 <= i < j < |a|
      ensures a[i] != a[j]
    {
      assert s[i] != s[j];
    }
    forall i, j | 0 <= i < |a| && 0 <= j < |b|
      ensures a[i] != b[j]
    {
      assert s[i] != s[|a| + j];
    }
  }

  /** Where a batch starts in the unpassed rest of the list, and where it ends. */
  lemma BatchOfRest(left: seq<StorageId>, rest: seq<StorageId>, batch: nat) returns (s: nat, t: nat)
    requires |left| <= batch * BATCH_SIZE
    ensures s <= t <= |rest| && Batch(left + rest, batch) == rest[s..t]
    ensures |left| + t <= (batch + 1) * BATCH_SIZE
  {
    var start, n := batch * BATCH_SIZE, |left| + |rest|;
    s := if start < n then start - |left| else |rest|;
    t := if start + BATCH_SIZE < n then start + BATCH_SIZE - |left| else |rest|;
    if start < n {
      assert (left + rest)[start..][..t - s] == rest[s..t];
    }
  }

  /** Taking some entries of the middle out of a list without repetitions. */
  lemma DroppingFromMiddle(a: seq<StorageId>, b: seq<StorageId>, c: seq<StorageId>, ids: set<StorageId>)
    requires forall id :: id in a ==> id !in ids
    requires forall id :: id in c ==> id !in ids
    ensures Among(a + b + c, ids, false) == a + Among(b, ids, false) + c
  {
    AmongConcat(a + b, c, ids, false);
    AmongConcat(a, b, ids, false);
    AmongAll(a, ids, false);
    AmongAll(c, ids, false);
  }

  /** One batch, seen on the list: some of it is passed, some skipped, then come
      the entries, some of them taken, and a tail. */
  lemma CutBatch(passed: seq<StorageId>, skipped: seq<StorageId>, entries: seq<StorageId>, tail: seq<StorageId>,
                 popped: seq<StorageId>, left: seq<StorageId>, taken: seq<StorageId>, kept: seq<StorageId>)
    requires Distinct(passed + (skipped + (entries + tail)))
    requires Splits(passed, popped, left) && Splits(entries, taken, kept)
    ensures Splits(passed + skipped + entries, popped + taken, left + skipped + kept)
    ensures Among((left + skipped) + entries + tail, IdsOf(taken), false) == (left + skipped) + kept + tail
  {
    hide Among, Distinct, Splits;
    DistinctParts(passed, skipped + (entries + tail));
    DistinctParts(skipped, entries + tail);
    DistinctParts(entries, tail);
    SplitsMembers(passed, popped, left);
    SplitsMembers(entries, taken, kept);
    SplitsNothing(skipped);
    SplitsConcat(passed, skipped, popped, [], left, skipped);
    assert popped + [] == popped;
    SplitsConcat(passed + skipped, entries, popped, taken, left + skipped, kept);
    DroppingFromMiddle(left + skipped, entries, tail, IdsOf(taken));
    SplitsRest(entries, taken, kept);
  }

  lemma SplitsRest(list: seq<StorageId>, popped: seq<StorageId>, rest: seq<StorageId>)
    requires Splits(list, popped, rest)
    ensures rest == Among(list, IdsOf(popped), false)
  {
  }

  lemma Slices(list: seq<StorageId>, left: seq<StorageId>, cut: nat, s: nat, t: nat)
    requires cut <= |list| && s <= t <= |list| - cut
    ensures list == list[..cut] + (list[cut..][..s] + (list[cut..][s..t] + list[cut + t..]))
    ensures list[..cut + t] == list[..cut] + list[cut..][..s] + list[cut..][s..t]
    ensures left + list[cut..] == (left + list[cut..][..s]) + list[cut..][s..t] + list[cut + t..]
    ensures Distinct(list) ==> Distinct(list[cut..][s..t])
  {
  }

  /** Putting a batch together with what was done before it. */
  lemma ProgressStep<A>(so: Sweep<A>, now: Sweep<A>, now': Sweep<A>, batch: nat, cut: nat, cut': nat,
                        popped: seq<StorageId>, left: seq<StorageId>, entries: seq<StorageId>,
                        taken: seq<StorageId>, left': seq<StorageId>)
    requires Progress(so, now, batch, cut, popped, left) && Swept(now, entries, taken, now')
    requires cut' <= |so.queue.list| && |left'| <= (batch + 1) * BATCH_SIZE
    requires Splits(so.queue.list[..cut'], popped + taken, left')
    requires Among(now.queue.list, IdsOf(taken), false) == left' + so.queue.list[cut'..]
    ensures Progress(so, now', batch + 1, cut', popped + taken, left')
  {
    hide Among, Sum, KeysOf, Splits;
    SumConcat(popped, taken);
    assert KeysOf(so.items) + (popped + taken) == KeysOf(so.items) + popped + taken;
  }

  lemma SweepingBatch<A>(so: Sweep<A>, now: Sweep<A>, batch: nat, cut: nat,
                         popped: seq<StorageId>, left: seq<StorageId>)
    returns (cut': nat, popped': seq<StorageId>, left': seq<StorageId>)
    requires so.queue.Valid() && NonNegative(so.queue.list)
    requires Progress(so, now, batch, cut, popped, left)
    ensures Progress(so, SweepEntries(now, Batch(now.queue.list, batch)), batch + 1, cut', popped', left')
  {
    hide Among, Sum, KeysOf, Batch, SweepEntries, Distinct, Splits, Swept;
    var list := so.queue.list;
    var s, t := BatchOfRest(left, list[cut..], batch);
    var entries := list[cut..][s..t];
    Slices(list, left, cut, s, t);
    var taken := SweepingEntries(now, entries);
    var kept := Among(entries, IdsOf(taken), false);
    var now' := SweepEntries(now, entries);
    SweptSplits(now, entries, taken, now');
    CutBatch(list[..cut], list[cut..][..s], entries, list[cut + t..], popped, left, taken, kept);
    AmongLength(entries, IdsOf(taken), false);
    cut', popped', left' := cut + t, popped + taken, left + list[cut..][..s] + kept;
    ProgressStep(so, now, now', batch, cut, cut', popped, left, entries, taken, left');
  }

  lemma SweptSplits<A>(so: Sweep<A>, entries: seq<StorageId>, popped: seq<StorageId>, now: Sweep<A>)
    requires Swept(so, entries, popped, now)
    ensures Splits(entries, popped, Among(entries, IdsOf(popped), false))
  {
  }

  lemma {:induction false} AmongLength(list: seq<StorageId>, ids: set<StorageId>, keep: bool)
    ensures |Among(list, ids, keep)| <= |list|
  {
    if list != [] {
      AmongLength(list[..|list| - 1], ids, keep);
    }
  }

  lemma {:induction false} SweepingBatches<A>(so: Sweep<A>, now: Sweep<A>, batch: nat, batches: nat, cut: nat,
                                              popped: seq<StorageId>, left: seq<StorageId>)
    returns (all: seq<StorageId>)
    requires so.queue.Valid() && NonNegative(so.queue.list)
    requires Progress(so, now, batch, cut, popped, left)
    ensures Done(so, SweepBatches(now, batch, batches), all)
    decreases batches - batch
  {
    hide Progress, SweepEntries, Batch, Done;
    if batch >= batches || !IsOpen(now.available) {
      all := popped;
      ProgressEnds(so, now, batch, cut, popped, left);
    } else {
      var cut', popped', left' := SweepingBatch(so, now, batch, cut, popped, left);
      ProgressHasNoError(so, now, batch, cut, popped, left);
      all := SweepingBatches(so, SweepEntries(now, Batch(now.queue.list, batch)), batch + 1, batches,
                             cut', popped', left');
    }
  }

  lemma ProgressEnds<A>(so: Sweep<A>, now: Sweep<A>, batch: nat, cut: nat,
                        popped: seq<StorageId>, left: seq<StorageId>)
    requires so.queue.Valid() && Progress(so, now, batch, cut, popped, left)
    ensures Done(so, now, popped)
  {
    hide Among, Distinct, Sum, KeysOf;
    var list := so.queue.list;
    assert list == list[..cut] + list[cut..];
    DistinctParts(list[..cut], list[cut..]);
    SplitsNothing(list[cut..]);
    SplitsConcat(list[..cut], list[cut..], popped, [], left, list[cut..]);
    assert popped + [] == popped;
  }

  lemma ProgressHasNoError<A>(so: Sweep<A>, now: Sweep<A>, batch: nat, cut: nat,
                              popped: seq<StorageId>, left: seq<StorageId>)
    requires Progress(so, now, batch, cut, popped, left)
    ensures now.error.None?
  {
  }

  /** The outcome of a whole sweep. */
  ghost predicate Done<A>(so: Sweep<A>, now: Sweep<A>, popped: seq<StorageId>) {
    && now.error.None? && now.queue.Valid()
    && Splits(so.queue.list, popped, now.queue.list)
    && KeysOf(now.items) == KeysOf(so.items) + popped
    && now.queue.total == so.queue.total - Sum(popped)
    && now.available == Spent(so.available, popped)
    && (so.available.Some? && so.available.value >= 0.0 ==> now.available.value >= 0.0)
  }

  /** The popped jobs are a subsequence of the list, the rest is what is left of it,
      in order; the budget is not exceeded and the total is reduced by what was
      popped.  This holds for lists of any length. */
  lemma PopManyIsFifoWithinBudget<A>(q: Queue<A>, budget: Budget) returns (popped: seq<StorageId>)
    requires q.Valid() && NonNegative(q.list)
    ensures var r := PopMany(q, budget);
            && r.error.None? && r.queue.Valid()
            && KeysOf(r.items) == popped && Splits(q.list, popped, r.queue.list)
            && r.queue.total == q.total - Sum(popped)
            && r.available == Spent(budget, popped)
            && (budget.Some? && budget.value >= 0.0 ==> Sum(popped) <= budget.value)
  {
    var so := Sweep(q, [], budget, None);
    assert q.list[..0] == [] && [] + q.list[0..] == q.list && IdsOf([]) == {};
    popped := SweepingBatches(so, so, 0, NumOfBatches(|q.list|), 0, [], []);
    assert KeysOf<A>([]) + popped == popped;
  }

  /** No job is left that would fit in what is left of the budget. */
  ghost predicate Complete<A>(r: Sweep<A>) {
    NothingFits(r.queue.list, r.available)
  }

  /** Up to a hundred jobs are all looked at: then the sweep leaves no job that
      fits, unless it was given nothing to spend and there are jobs that cost
      nothing. */
  lemma CompleteUpToOneBatch<A>(q: Queue<A>, budget: Budget)
    requires q.Valid() && NonNegative(q.list) && |q.list| <= 100
    ensures Complete(PopMany(q, budget)) <==>
            budget.None? || budget.value != 0.0 || forall id :: id in q.list ==> id.duration != 0.0
  {
    var so := Sweep(q, [], budget, None);
    if q.list != [] && IsOpen(budget) {
      assert NumOfBatches(|q.list|) == 1;
      assert Batch(q.list, 0) == q.list by {
        assert q.list[0..] == q.list;
      }
      var popped := SweepingEntries(so, q.list);
      var r := SweepEntries(so, q.list);
      assert SweepBatches(r, 1, 1) == r;
      assert PopMany(q, budget) == r;
    } else if q.list == [] {
      assert PopMany(q, budget) == so;
    } else {
      assert PopMany(q, budget) == so;
    }
  }

  lemma {:induction false} ErrorStays<A>(so: Sweep<A>, entries: seq<StorageId>)
    requires so.error.Some?
    ensures SweepEntries(so, entries) == so
  {
    if entries != [] {
      ErrorStays(so, entries[..|entries| - 1]);
    }
  }

  lemma {:induction false} FirstMissing<A>(so: Sweep<A>, entries: seq<StorageId>)
    requires so.error.None? && entries != [] && entries[0] !in so.queue.jobs
    requires so.available.Some? ==> entries[0].duration <= so.available.value
    ensures var now := SweepEntries(so, entries);
            now.error == Some(InvalidJob) && now.items == so.items && now.available == so.available
  {
    if |entries| == 1 {
      assert entries[..0] == [];
      assert SweepEntries(so, []) == so;
    } else {
      FirstMissing(so, entries[..|entries| - 1]);
    }
  }

  /** An entry that fits, but under which no job is stored, ends the sweep. */
  lemma MissingJobEndsSweep<A>(q: Queue<A>, budget: Budget)
    requires q.list != [] && q.list[0] !in q.jobs
    requires budget.Some? ==> budget.value > 0.0 && q.list[0].duration <= budget.value
    ensures var r := PopMany(q, budget); r.error == Some(InvalidJob) && r.items == [] && r.available == budget
  {
    var so := Sweep(q, [], budget, None);
    assert NumOfBatches(|q.list|) >= 1;
    assert Batch(q.list, 0) != [] && Batch(q.list, 0)[0] == q.list[0];
    FirstMissing(so, Batch(q.list, 0));
    hide SweepEntries, Batch, NumOfBatches;
    assert SweepBatches(so, 0, NumOfBatches(|q.list|)) ==
           SweepBatches(SweepEntries(so, Batch(q.list, 0)), 1, NumOfBatches(|q.list|));
  }

  // --- which entries are looked at ---

  /** The entries that the batches read, in order. */
  function Visited<A>(so: Sweep<A>, batch: nat, batches: nat): seq<StorageId>
    decreases batches - batch
  {
    if batch >= batches || so.error.Some? || !IsOpen(so.available) then []
    else
      var entries := Batch(so.queue.list, batch);
      entries + Visited(SweepEntries(so, entries), batch + 1, batches)
  }

  ghost predicate NoMore(now: Budget, before: Budget) {
    if before.None? then now.None? else now.Some? && now.value <= before.value
  }

  /** A sweep of batches takes only entries it reads, and what it reads and leaves is
      too long for what is left at the end. */
  ghost predicate Leaves<A>(so: Sweep<A>, visited: seq<StorageId>, now: Sweep<A>) {
    && now.error.None? && now.queue.Valid() && NonNegative(now.queue.list) && NoMore(now.available, so.available)
    && (forall id :: id in now.queue.list ==> id in so.queue.list)
    && (forall id :: id in so.queue.list && id !in now.queue.list ==> id in visited)
    && (forall id :: id in visited && id in now.queue.list ==> Exceeds(id.duration, now.available))
  }

  lemma EntriesLeave<A>(so: Sweep<A>, batch: nat)
    requires so.error.None? && so.queue.Valid() && NonNegative(so.queue.list)
    ensures var entries := Batch(so.queue.list, batch); Leaves(so, entries, SweepEntries(so, entries))
  {
    hide SweepEntries, Sum, Among, Batch;
    var entries := Batch(so.queue.list, batch);
    BatchIsPart(so.queue.list, batch);
    var popped := SweepingEntries(so, entries);
    AmongMembers(so.queue.list, IdsOf(popped), false);
    AmongMembers(entries, IdsOf(popped), false);
    AmongMembers(entries, IdsOf(popped), true);
    SumIsNonNegative(popped);
  }

  lemma BatchIsPart(list: seq<StorageId>, batch: nat)
    requires Distinct(list) && NonNegative(list)
    ensures Distinct(Batch(list, batch)) && NonNegative(Batch(list, batch))
    ensures forall id :: id in Batch(list, batch) ==> id in list
  {
  }

  lemma {:induction false} SumIsNonNegative(ids: seq<StorageId>)
    requires NonNegative(ids)
    ensures Sum(ids) >= 0.0
  {
    if ids != [] {
      assert ids[|ids| - 1] in ids;
      SumIsNonNegative(ids[..|ids| - 1]);
    }
  }

  lemma LeavesChain<A>(so: Sweep<A>, a: seq<StorageId>, now: Sweep<A>, b: seq<StorageId>, after: Sweep<A>)
    requires Leaves(so, a, now) && Leaves(now, b, after)
    ensures Leaves(so, a + b, after)
  {
    hide Queue<A>.Valid, NonNegative;
  }

  lemma {:induction false} BatchesLeave<A>(so: Sweep<A>, batch: nat, batches: nat)
    requires so.error.None? && so.queue.Valid() && NonNegative(so.queue.list)
    ensures Leaves(so, Visited(so, batch, batches), SweepBatches(so, batch, batches))
    decreases batches - batch
  {
    if batch < batches && IsOpen(so.available) {
      hide Leaves, Batch, SweepEntries;
      var entries := Batch(so.queue.list, batch);
      var now := SweepEntries(so, entries);
      EntriesLeave(so, batch);
      LeavesMeans(so, entries, now);
      BatchesLeave(now, batch + 1, batches);
      LeavesChain(so, entries, now, Visited(now, batch + 1, batches), SweepBatches(now, batch + 1, batches));
    }
  }

  lemma LeavesMeans<A>(so: Sweep<A>, visited: seq<StorageId>, now: Sweep<A>)
    requires Leaves(so, visited, now)
    ensures now.error.None? && now.queue.Valid() && NonNegative(now.queue.list)
  {
  }

  /** For every queue and budget: the sweep leaves no job that fits, exactly if none of
      the entries that no batch read would fit in what is left at the end. */
  lemma CompleteExactly<A>(q: Queue<A>, budget: Budget)
    requires q.Valid() && NonNegative(q.list)
    ensures var r, visited := PopMany(q, budget), Visited(Sweep(q, [], budget, None), 0, NumOfBatches(|q.list|));
            Complete(r) <==> forall id :: id in q.list && id !in visited ==> Exceeds(id.duration, r.available)
  {
    BatchesLeave(Sweep(q, [], budget, None), 0, NumOfBatches(|q.list|));
    hide Visited, SweepBatches, Queue<A>.Valid, NonNegative, Exceeds;
  }

  // --- more than a hundred jobs ---

  /** The id of a job that costs nothing. */
  function FreeId(i: nat): StorageId {
    StorageId(seq(i, _ => 'a'), 0.0)
  }

  function FreeIds(n: nat): seq<StorageId> {
    seq(n, i requires 0 <= i < n => FreeId(i))
  }

  /** A queue of n jobs that cost nothing. */
  function FreeJobs(n: nat): Queue<bool> {
    var ids := IdsOf(FreeIds(n));
    Queue(FreeIds(n), map id | id in ids :: QueuedJob(id.uuid, Some(id.duration)), map id | id in ids :: true,
          0.0, None)
  }

  lemma FreeJobsAreValid(n: nat)
    ensures FreeJobs(n).Valid() && NonNegative(FreeJobs(n).list)
  {
    forall i, j | 0 <= i < j < n
      ensures FreeIds(n)[i] != FreeIds(n)[j]
    {
      assert |FreeId(i).uuid| != |FreeId(j).uuid|;
    }
  }

  lemma LateBatch(list: seq<StorageId>, batch: nat)
    requires batch >= 1 && Distinct(list) && NonNegative(list)
    ensures Distinct(Batch(list, batch)) && NonNegative(Batch(list, batch))
    ensures forall id :: id in Batch(list, batch) ==>
            id in list && id !in list[..if |list| < BATCH_SIZE then |list| else BATCH_SIZE]
  {
  }

  lemma SweepingLateBatch<A>(so: Sweep<A>, batch: nat)
    requires batch >= 1 && so.error.None? && so.queue.Valid() && NonNegative(so.queue.list) && so.queue.list != []
    ensures var now := SweepEntries(so, Batch(so.queue.list, batch));
            && now.error.None? && now.queue.Valid() && NonNegative(now.queue.list)
            && now.queue.list != [] && now.queue.list[0] == so.queue.list[0]
  {
    hide SweepEntries, Batch, Among, Distinct, Sum, KeysOf;
    var list := so.queue.list;
    LateBatch(list, batch);
    var entries := Batch(list, batch);
    var taken := SweepingEntries(so, entries);
    PoppedAreEntries(so, entries, taken, SweepEntries(so, entries));
    HeadIsKept(list, IdsOf(taken));
    AmongMembers(list, IdsOf(taken), false);
  }

  /** Batches after the first never touch the first hundred of what is listed. */
  lemma {:induction false} FrontSurvives<A>(so: Sweep<A>, batch: nat, batches: nat)
    requires batch >= 1 && so.error.None? && so.queue.Valid() && NonNegative(so.queue.list) && so.queue.list != []
    ensures so.queue.list[0] in SweepBatches(so, batch, batches).queue.list
    decreases batches - batch
  {
    hide SweepEntries, Batch, Distinct;
    if batch < batches && IsOpen(so.available) {
      SweepingLateBatch(so, batch);
      FrontSurvives(SweepEntries(so, Batch(so.queue.list, batch)), batch + 1, batches);
    }
  }

  lemma HeadIsKept(list: seq<StorageId>, ids: set<StorageId>)
    requires list != [] && list[0] !in ids
    ensures Among(list, ids, false) != [] && Among(list, ids, false)[0] == list[0]
  {
    assert list == [list[0]] + list[1..];
    AmongConcat([list[0]], list[1..], ids, false);
    AmongAll([list[0]], ids, false);
  }

  /** The first batch cannot empty a longer list. */
  lemma FirstBatchLeaves<A>(so: Sweep<A>)
    requires so.error.None? && so.queue.Valid() && NonNegative(so.queue.list) && |so.queue.list| > BATCH_SIZE
    ensures var now := SweepEntries(so, Batch(so.queue.list, 0));
            now.error.None? && now.queue.Valid() && NonNegative(now.queue.list) && now.queue.list != []
  {
    var list := so.queue.list;
    var entries := list[..BATCH_SIZE];
    assert Batch(list, 0) == entries && list[BATCH_SIZE] !in entries;
    hide SweepEntries, Batch, Among, Sum, KeysOf;
    var taken := SweepingEntries(so, entries);
    PoppedAreEntries(so, entries, taken, SweepEntries(so, entries));
    AmongMembers(list, IdsOf(taken), false);
    assert list[BATCH_SIZE] in Among(list, IdsOf(taken), false);
  }

  /** With more than a hundred jobs that all fit, jobs are left behind. */
  lemma FreeJobsAreLeft(n: nat)
    requires n > 100
    ensures !Complete(PopMany(FreeJobs(n), Some(1.0)))
  {
    var q, budget := FreeJobs(n), Some(1.0);
    assert forall id :: id in q.list ==> id.duration == 0.0;
    FreeJobsAreValid(n);
    assert |q.list| == n && NumOfBatches(n) > 0;
    hide SweepEntries, Batch, Splits, Sum, FreeJobs, NumOfBatches;
    var so := Sweep(q, [], budget, None);
    FirstBatchLeaves(so);
    var now := SweepEntries(so, Batch(q.list, 0));
    FrontSurvives(now, 1, NumOfBatches(n));
    assert PopMany(q, budget) == SweepBatches(now, 1, NumOfBatches(n));
    var popped := PopManyIsFifoWithinBudget(q, budget);
    SplitsMembers(q.list, popped, PopMany(q, budget).queue.list);
  }

  ghost predicate Sized(q: Queue<bool>, n: nat) {
    q.Valid() && NonNegative(q.list) && |q.list| == n
  }

  /** The exact length up to which a sweep with something to spend leaves no job
      that fits: one batch.  For every greater length there is a queue of which it
      does. */
  lemma CompleteExactlyUpToOneBatch(n: nat)
    ensures (forall q: Queue<bool>, budget: Budget :: Sized(q, n) && IsOpen(budget) ==> Complete(PopMany(q, budget)))
            <==> n <= 100
  {
    if n <= BATCH_SIZE {
      forall q: Queue<bool>, budget: Budget | Sized(q, n) && IsOpen(budget)
        ensures Complete(PopMany(q, budget))
      {
        CompleteUpToOneBatch(q, budget);
      }
    } else {
      FreeJobsAreValid(n);
      FreeJobsAreLeft(n);
    }
  }
}
