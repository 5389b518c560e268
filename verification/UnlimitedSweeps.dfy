/** A sweep without a limit, as there is one when no booking comes: since its batches
    are read by index from a list that shrinks, it takes every other hundred. */
module UnlimitedSweeps {
  import opened Wrappers
  import opened Queues
  import opened QueueProperties
  import opened PopManyProperties

  /** The first hundred, the third hundred, and so on. */
  function EveryOtherHundred(list: seq<StorageId>): seq<StorageId> {
    if |list| <= 200 then list[..if |list| < 100 then |list| else 100]
    else list[..100] + EveryOtherHundred(list[200..])
  }

  /** The second hundred, the fourth, and so on. */
  function HundredsBetween(list: seq<StorageId>): seq<StorageId> {
    if |list| <= 100 then []
    else if |list| <= 200 then list[100..]
    else list[100..200] + HundredsBetween(list[200..])
  }

  /** Nothing is left out of a batch. */
  lemma BatchIsTaken<A>(so: Sweep<A>, front: seq<StorageId>, entries: seq<StorageId>, rest: seq<StorageId>)
    requires so.error.None? && so.available.None? && so.queue.Valid() && NonNegative(so.queue.list)
    requires so.queue.list == front + entries + rest
    ensures var now := SweepEntries(so, entries);
            && now.error.None? && now.available.None? && now.queue.Valid()
            && KeysOf(now.items) == KeysOf(so.items) + entries && now.queue.list == front + rest
  {
    ListedOnce(so.queue);
    hide SweepEntries, Among, KeysOf, Distinct, Sum, Swept, NonNegative, IdsOf, Queue<A>.Valid;
    DistinctMiddle(front, entries, rest);
    MiddleIsListed(front, entries, rest);
    var popped := SweepingEntries(so, entries);
    AllOfBatch(so, entries, popped, SweepEntries(so, entries));
    MiddleIsDropped(front, entries, rest);
  }

  lemma ListedOnce<A>(q: Queue<A>)
    requires q.Valid()
    ensures Distinct(q.list)
  {
  }

  lemma MiddleIsListed(front: seq<StorageId>, entries: seq<StorageId>, rest: seq<StorageId>)
    ensures forall id :: id in entries ==> id in front + entries + rest
  {
  }

  lemma MiddleIsDropped(front: seq<StorageId>, entries: seq<StorageId>, rest: seq<StorageId>)
    requires forall id :: id in front ==> id !in entries
    requires forall id :: id in rest ==> id !in entries
    ensures Among(front + entries + rest, IdsOf(entries), false) == front + rest
  {
    hide Among;
    DroppingFromMiddle(front, entries, rest, IdsOf(entries));
    AmongAll(entries, IdsOf(entries), true);
    assert front + [] + rest == front + rest;
  }

  /** With no limit, a batch is taken as a whole. */
  lemma AllOfBatch<A>(so: Sweep<A>, entries: seq<StorageId>, popped: seq<StorageId>, now: Sweep<A>)
    requires so.available.None? && Swept(so, entries, popped, now)
    ensures now.error.None? && now.available.None? && now.queue.Valid()
    ensures KeysOf(now.items) == KeysOf(so.items) + entries
    ensures now.queue.list == Among(so.queue.list, IdsOf(entries), false)
  {
    hide Among, KeysOf, Distinct, Sum, Queue<A>.Valid;
    var left := Among(entries, IdsOf(popped), false);
    if left != [] {
      SomethingFits(left);
    }
    AmongMembers(entries, IdsOf(popped), false);
    AmongAll(entries, IdsOf(popped), true);
  }

  lemma SomethingFits(ids: seq<StorageId>)
    requires ids != []
    ensures !NothingFits(ids, None)
  {
    assert ids[0] in ids;
  }

  lemma DistinctMiddle(front: seq<StorageId>, entries: seq<StorageId>, rest: seq<StorageId>)
    requires Distinct(front + entries + rest) && NonNegative(front + entries + rest)
    ensures Distinct(entries) && NonNegative(entries)
    ensures forall id :: id in front ==> id !in entries
    ensures forall id :: id in rest ==> id !in entries
    ensures NonNegative(front + rest)
  {
    DistinctParts(front + entries, rest);
    DistinctParts(front, entries);
    assert forall id :: id in entries ==> id in front + entries;
  }

  /** Batches that start beyond the end of the list read nothing. */
  lemma {:induction false} NothingIsRead<A>(so: Sweep<A>, batch: nat, batches: nat)
    requires |so.queue.list| <= 100 * batch
    ensures SweepBatches(so, batch, batches) == so
    decreases batches - batch
  {
    if batch < batches && so.error.None? && IsOpen(so.available) {
      assert Batch(so.queue.list, batch) == [];
      assert SweepEntries(so, []) == so;
      NothingIsRead(so, batch + 1, batches);
    }
  }

  /** Where a batch is read, the earlier ones having left their hundreds. */
  lemma BatchAfterFront(front: seq<StorageId>, list: seq<StorageId>, batch: nat)
    requires |front| == 100 * batch
    ensures Batch(front + list, batch) == list[..if |list| < 100 then |list| else 100]
  {
    var all := front + list;
    assert all[100 * batch..] == list;
    if |list| >= 100 {
      assert all[100 * batch..100 * batch + 100] == list[..100];
    }
  }

  /** All the batches from here on. */
  lemma {:induction false} BatchesTakeEveryOther<A>(so: Sweep<A>, front: seq<StorageId>, list: seq<StorageId>,
                                                    batch: nat, batches: nat)
    requires so.error.None? && so.available.None? && so.queue.Valid() && NonNegative(so.queue.list)
    requires so.queue.list == front + list && |front| == 100 * batch && |list| <= 200 * (batches - batch)
    ensures var r := SweepBatches(so, batch, batches);
            && KeysOf(r.items) == KeysOf(so.items) + EveryOtherHundred(list)
            && r.queue.list == front + HundredsBetween(list) && r.error.None?
    decreases |list|
  {
    hide SweepEntries, KeysOf, Queue<A>.Valid, Batch, NonNegative;
    if list == [] {
      assert front + [] == front && KeysOf(so.items) + [] == KeysOf(so.items);
      NothingIsRead(so, batch, batches);
    } else {
      var taken := if |list| < 100 then |list| else 100;
      var passed := if |list| < 200 then |list| else 200;
      var entries, left, rest := list[..taken], list[taken..passed], list[passed..];
      assert front + list == front + entries + (left + rest);
      BatchAfterFront(front, list, batch);
      BatchIsTaken(so, front, entries, left + rest);
      var now := SweepEntries(so, entries);
      assert front + (left + rest) == (front + left) + rest;
      assert SweepBatches(so, batch, batches) == SweepBatches(now, batch + 1, batches);
      LeftIsNonNegative(front, entries, left + rest);
      if |list| >= 200 {
        BatchesTakeEveryOther(now, front + left, rest, batch + 1, batches);
        var more := EveryOtherHundred(rest);
        assert KeysOf(so.items) + entries + more == KeysOf(so.items) + (entries + more);
        assert front + left + HundredsBetween(rest) == front + (left + HundredsBetween(rest));
        LastHundreds(list);
      } else {
        assert rest == [];
        NothingIsRead(now, batch + 1, batches);
      }
    }
  }

  lemma LeftIsNonNegative(front: seq<StorageId>, entries: seq<StorageId>, rest: seq<StorageId>)
    requires NonNegative(front + entries + rest)
    ensures NonNegative(front + rest)
  {
  }

  lemma LastHundreds(list: seq<StorageId>)
    requires |list| >= 200
    ensures EveryOtherHundred(list) == list[..100] + EveryOtherHundred(list[200..])
    ensures HundredsBetween(list) == list[100..200] + HundredsBetween(list[200..])
  {
    if |list| == 200 {
      assert list[200..] == [];
      assert EveryOtherHundred([]) == [] && HundredsBetween([]) == [];
    }
  }

  /** With no limit, the sweep takes every other hundred of the list, in order, and
      leaves those between: however many jobs there are. */
  lemma UnlimitedSweep<A>(q: Queue<A>)
    requires q.Valid() && NonNegative(q.list)
    ensures var r := PopMany(q, None);
            && KeysOf(r.items) == EveryOtherHundred(q.list)
            && r.queue.list == HundredsBetween(q.list) && r.error.None?
  {
    hide KeysOf, NonNegative, Queue<A>.Valid, SweepBatches;
    assert |q.list| <= 200 * NumOfBatches(|q.list|);
    assert [] + q.list == q.list;
    BatchesTakeEveryOther(Sweep(q, [], None, None), [], q.list, 0, NumOfBatches(|q.list|));
    assert KeysOf<A>([]) == [] by {
      NoKeys<A>();
    }
    assert [] + EveryOtherHundred(q.list) == EveryOtherHundred(q.list);
    assert [] + HundredsBetween(q.list) == HundredsBetween(q.list);
  }

  lemma NoKeys<A>()
    ensures KeysOf<A>([]) == []
  {
  }
}
