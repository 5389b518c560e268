/** What the queue keeps over every run of operations, and what a budgeted sweep
    takes and leaves. */
module QueueProperties {
  import opened Wrappers
  import opened Prefixes
  import opened Queues

  // --- lists of distinct ids ---

  lemma {:induction false} SumConcat(a: seq<StorageId>, b: seq<StorageId>)
    ensures Sum(a + b) == Sum(a) + Sum(b)
  {
    if b == [] {
      assert a + b == a;
    } else {
      var c := b[..|b| - 1];
      assert (a + b)[..|a + b| - 1] == a + c;
      SumConcat(a, c);
    }
  }

  lemma SumOne(id: StorageId)
    ensures Sum([id]) == id.duration
  {
    assert [id][..0] == [];
  }

  lemma DistinctCons(x: StorageId, rest: seq<StorageId>)
    ensures Distinct([x] + rest) <==> Distinct(rest) && x !in rest
  {
    var s := [x] + rest;
    assert s[1..] == rest && s[0] == x;
    if Distinct(s) {
      forall i, j | 0 <= i < j < |rest|
        ensures rest[i] != rest[j]
      {
        assert s[i + 1] != s[j + 1];
      }
      forall i | 0 <= i < |rest|
        ensures rest[i] != x
      {
        assert s[i + 1] != s[0];
      }
    }
  }

  lemma DistinctSnoc(s: seq<StorageId>)
    requires Distinct(s) && s != []
    ensures s == s[..|s| - 1] + [s[|s| - 1]]
    ensures Distinct(s[..|s| - 1]) && s[|s| - 1] !in s[..|s| - 1]
  {
  }

  lemma {:induction false} RemovingDistinct(list: seq<StorageId>, x: StorageId)
    requires Distinct(list)
    ensures Distinct(RemoveFirst(list, x))
    ensures forall y :: y in RemoveFirst(list, x) <==> y in list && y != x
    ensures Sum(RemoveFirst(list, x)) == Sum(list) - if x in list then x.duration else 0.0
  {
    hide Distinct, Sum;
    if list != [] {
      assert list == [list[0]] + list[1..];
      SumConcat([list[0]], list[1..]);
      SumOne(list[0]);
      DistinctCons(list[0], list[1..]);
      if list[0] != x {
        RemovingDistinct(list[1..], x);
        DistinctCons(list[0], RemoveFirst(list[1..], x));
        SumConcat([list[0]], RemoveFirst(list[1..], x));
      }
    }
  }

  // --- conservation of durations over every run ---

  datatype Event<A> =
    | Added(job: QueuedJob, args: A)
    | Taken              // next
    | Popped(id: StorageId)
    | Cleared

  function Apply<A>(q: Queue<A>, event: Event<A>): Queue<A> {
    match event
    case Added(job, args) => Add(q, job, args)
    case Taken => Next(q).0
    case Popped(id) => PopJob(q, id).0
    case Cleared => Clear(q)
  }

  function Run<A>(events: seq<Event<A>>): Queue<A> {
    if events == [] then EmptyQueue() else Apply(Run(events[..|events| - 1]), events[|events| - 1])
  }

  /** No job is added under an id that is already listed. */
  ghost predicate FreshAdds<A>(events: seq<Event<A>>) {
    forall i :: 0 <= i < |events| && events[i].Added? ==> events[i].job.Key() !in Run(events[..i]).list
  }

  /** The durations asked off the total, since the last clear, for ids not listed. */
  function Missed<A>(events: seq<Event<A>>): real {
    if events == [] then 0.0
    else
      var front, last := events[..|events| - 1], events[|events| - 1];
      match last
      case Cleared => 0.0
      case Popped(id) => Missed(front) + if id in Run(front).list then 0.0 else id.duration
      case _ => Missed(front)
  }

  lemma AddKeepsValid<A>(q: Queue<A>, job: QueuedJob, args: A)
    requires q.Valid() && job.Key() !in q.list
    ensures Add(q, job, args).Valid()
    ensures Sum(Add(q, job, args).list) == Sum(q.list) + job.Duration()
  {
    PrefixOfAppend(q.list, job.Key());
  }

  lemma PopKeepsValid<A>(q: Queue<A>, id: StorageId)
    requires q.Valid()
    ensures PopJob(q, id).0.Valid()
    ensures Sum(PopJob(q, id).0.list) == Sum(q.list) - if id in q.list then id.duration else 0.0
    ensures PopJob(q, id).1 == if id in q.list then Ok(Item(q.jobs[id], q.args[id])) else Err(InvalidJob)
  {
    RemovingDistinct(q.list, id);
  }

  /** On a valid queue, taking the next item is popping the head of the list. */
  lemma NextIsPopHead<A>(q: Queue<A>)
    requires q.Valid() && q.list != []
    ensures Next(q).0 == PopJob(q, q.list[0]).0.(current := Some(q.jobs[q.list[0]]))
    ensures Next(q).1 == Ok(Some(Item(q.jobs[q.list[0]], q.args[q.list[0]])))
  {
  }

  /** Along every run the maps and the list agree, and the recorded total is what
      is listed less what was missed: pops of absent ids are the only drift. */
  lemma {:induction false} DurationIsConserved<A>(events: seq<Event<A>>)
    requires FreshAdds(events)
    ensures Run(events).Valid()
    ensures Run(events).total == Sum(Run(events).list) - Missed(events)
  {
    if events != [] {
      var front, last := events[..|events| - 1], events[|events| - 1];
      assert FreshAdds(front) by {
        forall i | 0 <= i < |front| && front[i].Added?
          ensures front[i].job.Key() !in Run(front[..i]).list
        {
          assert front[..i] == events[..i] && events[i] == front[i];
        }
      }
      DurationIsConserved(front);
      var q := Run(front);
      match last
      case Added(job, args) =>
        AddKeepsValid(q, job, args);
      case Taken =>
        if q.list != [] {
          PopKeepsValid(q, q.list[0]);
          NextIsPopHead(q);
        }
      case Popped(id) =>
        PopKeepsValid(q, id);
      case Cleared =>
    }
  }

  // --- a sweep takes a subsequence and leaves the rest ---

  /** The listed ids that are (or are not) among the given ones, in list order. */
  function Among(list: seq<StorageId>, ids: set<StorageId>, keep: bool): seq<StorageId> {
    if list == [] then []
    else
      var front, last := Among(list[..|list| - 1], ids, keep), list[|list| - 1];
      if (last in ids) == keep then front + [last] else front
  }

  function IdsOf(list: seq<StorageId>): set<StorageId> {
    set id | id in list
  }

  /** Popped and rest are an order-preserving split of the list. */
  ghost predicate Splits(list: seq<StorageId>, popped: seq<StorageId>, rest: seq<StorageId>) {
    popped == Among(list, IdsOf(popped), true) && rest == Among(list, IdsOf(popped), false)
  }

  ghost predicate NonNegative(ids: seq<StorageId>) {
    forall id :: id in ids ==> id.duration >= 0.0
  }

  function KeysOf<A>(items: seq<Item<A>>): seq<StorageId> {
    seq(|items|, i requires 0 <= i < |items| => items[i].job.Key())
  }

  /** Every listed id is longer than what is still available. */
  ghost predicate NothingFits(ids: seq<StorageId>, available: Budget) {
    forall id :: id in ids ==> available.Some? && id.duration > available.value
  }

  lemma {:induction false} AmongMembers(list: seq<StorageId>, ids: set<StorageId>, keep: bool)
    ensures forall id :: id in Among(list, ids, keep) <==> id in list && (id in ids) == keep
  {
    if list != [] {
      AmongMembers(list[..|list| - 1], ids, keep);
      assert list == list[..|list| - 1] + [list[|list| - 1]];
    }
  }

  lemma {:induction false} AmongConcat(a: seq<StorageId>, b: seq<StorageId>, ids: set<StorageId>, keep: bool)
    ensures Among(a + b, ids, keep) == Among(a, ids, keep) + Among(b, ids, keep)
  {
    if b == [] {
      assert a + b == a;
    } else {
      var c := b[..|b| - 1];
      assert (a + b)[..|a + b| - 1] == a + c;
      AmongConcat(a, c, ids, keep);
    }
  }

  /** Only the ids that are listed matter. */
  lemma {:induction false} AmongSame(list: seq<StorageId>, ids: set<StorageId>, ids': set<StorageId>, keep: bool)
    requires forall id :: id in list ==> (id in ids <==> id in ids')
    ensures Among(list, ids, keep) == Among(list, ids', keep)
  {
    if list != [] {
      AmongSame(list[..|list| - 1], ids, ids', keep);
    }
  }

  lemma {:induction false} AmongAll(list: seq<StorageId>, ids: set<StorageId>, keep: bool)
    requires forall id :: id in list ==> (id in ids) == keep
    ensures Among(list, ids, keep) == list && Among(list, ids, !keep) == []
  {
    if list != [] {
      AmongAll(list[..|list| - 1], ids, keep);
    }
  }

  lemma {:induction false} DistinctAmong(list: seq<StorageId>, ids: set<StorageId>, keep: bool)
    requires Distinct(list)
    ensures Distinct(Among(list, ids, keep))
  {
    if list != [] {
      DistinctSnoc(list);
      DistinctAmong(list[..|list| - 1], ids, keep);
      AmongMembers(list[..|list| - 1], ids, keep);
    }
  }

  /** Splits of two lists without common ids make a split of both. */
  lemma SplitsConcat(a: seq<StorageId>, b: seq<StorageId>, p: seq<StorageId>, q: seq<StorageId>,
                     r: seq<StorageId>, s: seq<StorageId>)
    requires Splits(a, p, r) && Splits(b, q, s)
    requires forall id :: id in a ==> id !in b
    ensures Splits(a + b, p + q, r + s)
  {
    AmongMembers(a, IdsOf(p), true);
    AmongMembers(b, IdsOf(q), true);
    AmongBoth(a, b, IdsOf(p), IdsOf(q), IdsOf(p + q), true);
    AmongBoth(a, b, IdsOf(p), IdsOf(q), IdsOf(p + q), false);
  }

  lemma AmongBoth(a: seq<StorageId>, b: seq<StorageId>, inA: set<StorageId>, inB: set<StorageId>,
                  ids: set<StorageId>, keep: bool)
    requires forall id :: id in a ==> (id in inA <==> id in ids)
    requires forall id :: id in b ==> (id in inB <==> id in ids)
    ensures Among(a + b, ids, keep) == Among(a, inA, keep) + Among(b, inB, keep)
  {
    AmongConcat(a, b, ids, keep);
    AmongSame(a, inA, ids, keep);
    AmongSame(b, inB, ids, keep);
  }

  lemma SplitsNothing(list: seq<StorageId>)
    ensures Splits(list, [], list)
  {
    AmongAll(list, {}, false);
    assert IdsOf([]) == {};
  }

  lemma SplitsMembers(list: seq<StorageId>, popped: seq<StorageId>, rest: seq<StorageId>)
    requires Splits(list, popped, rest)
    ensures forall id :: id in popped ==> id in list
    ensures forall id :: id in rest <==> id in list && id !in popped
  {
    AmongMembers(list, IdsOf(popped), true);
    AmongMembers(list, IdsOf(popped), false);
  }

  // --- the budgeted sweep ---

  function Spent(budget: Budget, popped: seq<StorageId>): Budget {
    if budget.Some? then Some(budget.value - Sum(popped)) else None
  }

  lemma {:induction false} RemovingFromAmong(list: seq<StorageId>, popped: seq<StorageId>, id: StorageId)
    requires Distinct(list) && id in list && id !in popped
    ensures RemoveFirst(Among(list, IdsOf(popped), false), id) == Among(list, IdsOf(popped + [id]), false)
  {
    var i :| 0 <= i < |list| && list[i] == id;
    var a, b := list[..i], list[i + 1..];
    assert list == a + [id] + b;
    var before, after := IdsOf(popped), IdsOf(popped + [id]);
    AmongConcat(a + [id], b, before, false);
    AmongConcat(a, [id], before, false);
    AmongConcat(a + [id], b, after, false);
    AmongConcat(a, [id], after, false);
    AmongSame(a, before, after, false);
    AmongSame(b, before, after, false);
    AmongAll([id], before, false);
    AmongAll([id], after, true);
    AmongMembers(a, before, false);
    RemoveAtFirst(Among(a, before, false), id, Among(b, before, false));
    assert Among(list, before, false) == Among(a, before, false) + [id] + Among(b, before, false);
  }

  lemma {:induction false} RemoveAtFirst(a: seq<StorageId>, id: StorageId, b: seq<StorageId>)
    requires id !in a
    ensures RemoveFirst(a + [id] + b, id) == a + b
  {
    var s := a + [id] + b;
    if a == [] {
      assert s[1..] == b;
    } else {
      assert s[1..] == a[1..] + [id] + b;
      RemoveAtFirst(a[1..], id, b);
      assert a == [a[0]] + a[1..];
    }
  }

  /** What sweeping some entries has done to a sweep: it popped exactly the given
      ids of the entries, in order, paid for them, and has left nothing that fits. */
  ghost predicate Swept<A>(so: Sweep<A>, entries: seq<StorageId>, popped: seq<StorageId>, now: Sweep<A>) {
    && now.error.None? && now.queue.Valid()
    && popped == Among(entries, IdsOf(popped), true)
    && KeysOf(now.items) == KeysOf(so.items) + popped
    && now.queue.list == Among(so.queue.list, IdsOf(popped), false)
    && now.queue.total == so.queue.total - Sum(popped)
    && now.available == Spent(so.available, popped)
    && (so.available.Some? && so.available.value >= 0.0 ==> now.available.value >= 0.0)
    && NothingFits(Among(entries, IdsOf(popped), false), now.available)
  }

  lemma KeysAppend<A>(items: seq<Item<A>>, item: Item<A>)
    ensures KeysOf(items + [item]) == KeysOf(items) + [item.job.Key()]
  {
  }

  /** One more entry that fits. */
  lemma SweepingOne<A>(so: Sweep<A>, front: seq<StorageId>, popped: seq<StorageId>, before: Sweep<A>, id: StorageId)
    requires so.queue.Valid() && Swept(so, front, popped, before)
    requires id !in front && id in so.queue.list && id !in popped && id.duration >= 0.0
    requires !Exceeds(id.duration, before.available)
    ensures var (queue, found) := PopJob(before.queue, id);
            && found.Ok?
            && Swept(so, front + [id], popped + [id],
                     Sweep(queue, before.items + [found.value], Spend(before.available, id.duration), None))
  {
    hide Among, Sum, RemoveFirst, Distinct, KeysOf;
    var ids, ids' := IdsOf(popped), IdsOf(popped + [id]);
    AmongMembers(so.queue.list, ids, false);
    PopKeepsValid(before.queue, id);
    RemovingFromAmong(so.queue.list, popped, id);
    SumConcat(popped, [id]);
    SumOne(id);
    assert Among(front + [id], ids', true) == popped + [id] &&
           Among(front + [id], ids', false) == Among(front, ids, false) by {
      AmongConcat(front, [id], ids', true);
      AmongConcat(front, [id], ids', false);
      AmongSame(front, ids, ids', true);
      AmongSame(front, ids, ids', false);
      AmongAll([id], ids', true);
    }
    KeysAppend(before.items, Item(before.queue.jobs[id], before.queue.args[id]));
  }

  /** One more entry that does not. */
  lemma SweepingPast<A>(so: Sweep<A>, front: seq<StorageId>, popped: seq<StorageId>, before: Sweep<A>, id: StorageId)
    requires Swept(so, front, popped, before) && id !in popped && Exceeds(id.duration, before.available)
    ensures Swept(so, front + [id], popped, before)
  {
    hide Among, Sum, KeysOf;
    var ids := IdsOf(popped);
    AmongConcat(front, [id], ids, true);
    AmongConcat(front, [id], ids, false);
    AmongAll([id], ids, false);
  }

  lemma {:induction false} SweepingEntries<A>(so: Sweep<A>, entries: seq<StorageId>) returns (popped: seq<StorageId>)
    requires so.error.None? && so.queue.Valid() && Distinct(entries) && NonNegative(entries)
    requires forall id :: id in entries ==> id in so.queue.list
    ensures Swept(so, entries, popped, SweepEntries(so, entries))
  {
    if entries == [] {
      popped := [];
      assert IdsOf([]) == {};
      AmongAll(so.queue.list, {}, false);
    } else {
      hide Swept, Among, Distinct, Exceeds, PopJob;
      var front, id := entries[..|entries| - 1], entries[|entries| - 1];
      DistinctSnoc(entries);
      popped := SweepingEntries(so, front);
      var before := SweepEntries(so, front);
      PoppedAreEntries(so, front, popped, before);
      if Exceeds(id.duration, before.available) {
        SweepingPast(so, front, popped, before, id);
      } else {
        SweepingOne(so, front, popped, before, id);
        popped := popped + [id];
      }
    }
  }

  lemma PoppedAreEntries<A>(so: Sweep<A>, entries: seq<StorageId>, popped: seq<StorageId>, now: Sweep<A>)
    requires Swept(so, entries, popped, now)
    ensures now.error.None? && forall id :: id in popped ==> id in entries
  {
    AmongMembers(entries, IdsOf(popped), true);
  }
}
