/** Lookups by index agree with scans, over every history; and what is left of that
    when records expire. */
module CollectionProperties {
  import opened Wrappers
  import opened IndexKeys
  import opened Collections
  import opened CollectionIndexes

  datatype Op =
    | Inserted(record: Record, ttl: Ttl)
    | Updated(key: string, changes: Record, ttl: Ttl)
    | Deleted(keys: seq<string>)

  datatype Timed = Timed(op: Op, now: int)

  predicate WellFormed(schema: Schema, s: Store) {
    schema.Valid() && forall k :: k in s.records ==> Fits(schema, s.records[k])
  }

  function After(schema: Schema, s: Store, op: Op, interval: int, now: int): Store
    requires WellFormed(schema, s) && (op.Inserted? ==> Fits(schema, op.record))
  {
    match op
    case Inserted(record, ttl) => Insert(schema, s, record, ttl, interval, now)
    case Updated(key, changes, ttl) => Update(schema, s, key, changes, ttl, interval, now).0
    case Deleted(keys) => DeleteMany(schema, s, keys, interval, now)
  }

  /** Inserted keys are not in use; primary keys do not change. */
  ghost predicate Proper(schema: Schema, s: Store, op: Op, now: int) {
    && schema.Valid()
    && (op.Inserted? ==> Fits(schema, op.record) && !Live(s, KeyOf(schema, op.record), now))
    && (op.Updated? && op.key in s.records ==>
          forall i :: 0 <= i < |schema.primary| && schema.primary[i] in op.changes ==>
            && schema.primary[i] in s.records[op.key]
            && op.changes[schema.primary[i]] == s.records[op.key][schema.primary[i]])
  }

  // --- keys ---

  lemma {:induction false} SameJoin(a: Record, b: Record, fields: seq<string>)
    requires forall i :: 0 <= i < |fields| ==> fields[i] in a && fields[i] in b && a[fields[i]] == b[fields[i]]
    ensures JoinValues(a, fields) == JoinValues(b, fields)
  {
    if |fields| > 1 {
      SameJoin(a, b, fields[1..]);
    }
  }

  lemma UpdatedKey(schema: Schema, s: Store, key: string, changes: Record, ttl: Ttl, now: int)
    requires Stored(schema, s) && key in s.records && Proper(schema, s, Updated(key, changes, ttl), now)
    ensures Fits(schema, s.records[key] + changes) && KeyOf(schema, s.records[key] + changes) == key
  {
    SameJoin(s.records[key], s.records[key] + changes, schema.primary);
  }

  /** Every record stays under its own key. */
  lemma StoredAfter(schema: Schema, s: Store, op: Op, interval: int, now: int)
    requires Stored(schema, s) && Proper(schema, s, op, now)
    ensures Stored(schema, After(schema, s, op, interval, now))
  {
    hide KeyOf, AddAll, IndexKeysOf, MoveAll, PartialKeys, DeleteEntries;
    match op
    case Inserted(record, ttl) =>
    case Updated(key, changes, ttl) =>
      if Live(s, key, now) {
        UpdatedKey(schema, s, key, changes, ttl, now);
      }
    case Deleted(keys) =>
  }

  // --- no expiry: the index is exact ---

  /** Nothing expires, and there is an entry for each value of each record, and no
      other. */
  ghost predicate Exact(schema: Schema, s: Store) {
    && Stored(schema, s)
    && s.expiry == map[]
    && forall field, value, key :: Indexed(schema, field) ==>
         Entry(schema, s.index, field, value, key) ==
         if key in s.records && s.records[key][field] == value then Some(Never) else None
  }

  lemma CleanedIsExact(schema: Schema, s: Store, interval: int, now: int, field: string, value: string, key: string)
    requires Exact(schema, s) && Indexed(schema, field)
    ensures Entry(schema, Cleanup(s, interval, now).index, field, value, key) ==
            if key in s.records && s.records[key][field] == value then Some(Never) else None
  {
    hide IndexKey;
    assert Entry(schema, s.index, field, value, key) ==
           if key in s.records && s.records[key][field] == value then Some(Never) else None;
    CleanupScore(s, interval, now, IndexKey(schema.prefix, field, value), key);
  }

  /** Inserting a record whose key is in use breaks this, exactly if a value that is
      indexed changes: the old entries stay. */
  lemma InsertIsExact(schema: Schema, s: Store, record: Record, ttl: Ttl, interval: int, now: int)
    requires Exact(schema, s) && Fits(schema, record) && !ttl.For?
    ensures Exact(schema, Insert(schema, s, record, ttl, interval, now)) <==>
            var key := KeyOf(schema, record);
            key in s.records ==> forall field :: Indexed(schema, field) ==> s.records[key][field] == record[field]
  {
    hide IndexKey, AddAll, IndexKeysOf, KeyOf, Cleanup, Entry;
    var key, s' := KeyOf(schema, record), Insert(schema, s, record, ttl, interval, now);
    CleanupKeepsRecords(s, interval, now);
    forall field, value, other | Indexed(schema, field)
      ensures Entry(schema, s'.index, field, value, other) ==
              (if other == key && value == record[field] then Some(Never)
               else if other in s.records && s.records[other][field] == value then Some(Never) else None)
    {
      InsertEntry(schema, s, record, ttl, interval, now, field, value, other);
      CleanedIsExact(schema, s, interval, now, field, value, other);
    }
    assert s'.records == s.records[key := record] && s'.expiry == map[];
    StoredInsert(schema, s, record, s');
    if key in s.records {
      if Exact(schema, s') {
        forall field | Indexed(schema, field)
          ensures s.records[key][field] == record[field]
        {
          assert Entry(schema, s'.index, field, s.records[key][field], key) == Some(Never);
        }
      }
    }
  }

  lemma CleanupKeepsRecords(s: Store, interval: int, now: int)
    ensures Cleanup(s, interval, now).records == s.records && Cleanup(s, interval, now).expiry == s.expiry
  {
  }

  lemma StoredInsert(schema: Schema, s: Store, record: Record, s': Store)
    requires Stored(schema, s) && Fits(schema, record) && s'.records == s.records[KeyOf(schema, record) := record]
    ensures Stored(schema, s')
  {
    hide KeyOf;
  }

  lemma UpdateIsExact(schema: Schema, s: Store, key: string, changes: Record, ttl: Ttl, interval: int, now: int)
    requires Exact(schema, s) && !ttl.For? && Proper(schema, s, Updated(key, changes, ttl), now)
    ensures Exact(schema, Update(schema, s, key, changes, ttl, interval, now).0)
  {
    hide IndexKey, Update, KeyOf, Entry, AllMovable;
    var (s', error) := Update(schema, s, key, changes, ttl, interval, now);
    ExactIsStored(schema, s);
    StoredAfter(schema, s, Updated(key, changes, ttl), interval, now);
    UpdatedRecords(schema, s, key, changes, ttl, interval, now);
    if error.None? {
      forall field, value, other | Indexed(schema, field)
        ensures Entry(schema, s'.index, field, value, other) ==
                if other in s'.records && s'.records[other][field] == value then Some(Never) else None
      {
        UpdatedEntry(schema, s, key, changes, ttl, interval, now, field, value, other);
      }
    }
  }

  /** The records after an update. */
  lemma UpdatedRecords(schema: Schema, s: Store, key: string, changes: Record, ttl: Ttl, interval: int, now: int)
    requires Stored(schema, s)
    ensures var (s', error) := Update(schema, s, key, changes, ttl, interval, now);
            && (error.Some? ==> s'.records == s.records && s'.expiry == s.expiry && s'.index == s.index)
            && (error.None? ==>
                  && Live(s, key, now)
                  && AllMovable(schema, s.records[key], changes)
                  && s'.records == s.records[key := s.records[key] + changes]
                  && s'.expiry == if ttl.For? then s.expiry[key := now + ttl.seconds] else s.expiry - {key})
            && (Live(s, key, now) && AllMovable(schema, s.records[key], changes) ==> error.None?)
  {
    hide IndexKey, MoveAll, IndexKeysOf, KeyOf, Cleanup, PartialKeys, AllMovable, Entry;
    if Live(s, key, now) {
      CleanupKeepsRecords(s, interval, now);
      var first := schema.fields[0];
      assert Indexed(schema, first);
      UpdateEntry(schema, s, key, changes, ttl, interval, now, first, "", "");
    }
  }

  lemma UpdatedEntry(schema: Schema, s: Store, key: string, changes: Record, ttl: Ttl, interval: int, now: int,
                     field: string, value: string, other: string)
    requires Exact(schema, s) && !ttl.For? && Live(s, key, now) && Indexed(schema, field)
    requires Update(schema, s, key, changes, ttl, interval, now).1.None?
    ensures var s' := Update(schema, s, key, changes, ttl, interval, now).0;
            var records := s.records[key := s.records[key] + changes];
            field in s.records[key] &&
            (other in records ==> field in records[other]) &&
            Entry(schema, s'.index, field, value, other) ==
            if other in records && records[other][field] == value then Some(Never) else None
  {
    hide IndexKey, Update, KeyOf, Entry, AllMovable, Cleanup;
    var _ := FieldAt(schema, field);
    UpdateEntry(schema, s, key, changes, ttl, interval, now, field, value, other);
    CleanedIsExact(schema, s, interval, now, field, value, other);
    CleanedIsExact(schema, s, interval, now, field, s.records[key][field], other);
  }

  lemma DeleteIsExact(schema: Schema, s: Store, keys: seq<string>, interval: int, now: int)
    requires Exact(schema, s)
    ensures Exact(schema, DeleteMany(schema, s, keys, interval, now))
  {
    hide IndexKey, DeleteEntries, IndexKeysOf, KeyOf, Cleanup, Entry;
    CleanupKeepsRecords(s, interval, now);
    var s' := DeleteMany(schema, s, keys, interval, now);
    forall field, value, key | Indexed(schema, field)
      ensures Entry(schema, s'.index, field, value, key) ==
              if key in s'.records && s'.records[key][field] == value then Some(Never) else None
    {
      DeletedEntry(schema, s, Cleanup(s, interval, now).index, keys, now, field, value, key);
      CleanedIsExact(schema, s, interval, now, field, value, key);
    }
  }

  /** All operations of a history are proper where they come, and records are only
      written without expiry. */
  ghost predicate Lasting(schema: Schema, run: seq<Timed>, start: int, interval: int) {
    run == [] ||
    (&& Lasting(schema, run[..|run| - 1], start, interval)
     && var last, s := run[|run| - 1], Reach(schema, run[..|run| - 1], start, interval);
        Proper(schema, s, last.op, last.now) && (!last.op.Deleted? ==> !last.op.ttl.For?))
  }

  function Reach(schema: Schema, run: seq<Timed>, start: int, interval: int): Store {
    if run == [] then EmptyStore(start)
    else
      var s, last := Reach(schema, run[..|run| - 1], start, interval), run[|run| - 1];
      if WellFormed(schema, s) && (last.op.Inserted? ==> Fits(schema, last.op.record))
      then After(schema, s, last.op, interval, last.now) else s
  }

  lemma {:induction false} HistoryIsExact(schema: Schema, run: seq<Timed>, start: int, interval: int)
    requires schema.Valid() && Lasting(schema, run, start, interval)
    ensures Exact(schema, Reach(schema, run, start, interval))
  {
    if run != [] {
      HistoryIsExact(schema, run[..|run| - 1], start, interval);
      hide Exact, Insert, Update, DeleteMany;
      var s, last := Reach(schema, run[..|run| - 1], start, interval), run[|run| - 1];
      ExactIsStored(schema, s);
      match last.op
      case Inserted(record, ttl) =>
        NotLiveIsAbsent(schema, s, KeyOf(schema, record), last.now);
        InsertIsExact(schema, s, record, ttl, interval, last.now);
      case Updated(key, changes, ttl) =>
        UpdateIsExact(schema, s, key, changes, ttl, interval, last.now);
      case Deleted(keys) =>
        DeleteIsExact(schema, s, keys, interval, last.now);
    }
  }

  lemma ExactIsStored(schema: Schema, s: Store)
    requires Exact(schema, s)
    ensures Stored(schema, s)
  {
  }

  lemma NotLiveIsAbsent(schema: Schema, s: Store, key: string, now: int)
    requires Exact(schema, s)
    ensures Live(s, key, now) <==> key in s.records
  {
  }

  lemma ExactMatches(schema: Schema, s: Store, query: Record, key: string, now: int)
    requires Exact(schema, s) && PartialKeys(schema, query) != []
    requires query != map[] && forall field :: field in query ==> Indexed(schema, field)
    ensures Matches(s.index, PartialKeys(schema, query), key, now) <==>
            key in s.records && Satisfies(s.records[key], query)
  {
    hide IndexKey, PartialKeys, Matches, Entry, KeyOf;
    FilterMatches(schema, s.index, query, key, now);
    forall field | field in query
      ensures key in s.records ==> field in s.records[key]
      ensures Entry(schema, s.index, field, query[field], key) ==
              if key in s.records && s.records[key][field] == query[field] then Some(Never) else None
    {
      var _ := FieldAt(schema, field);
    }
    var field :| field in query;
    if key in s.records && Satisfies(s.records[key], query) {
      assert CountsAt(schema, s.index, field, query[field], key, now);
    }
    if Matches(s.index, PartialKeys(schema, query), key, now) {
      assert Entry(schema, s.index, field, query[field], key).Some?;
    }
  }

  lemma ExactIsScan(schema: Schema, s: Store, query: Record, now: int)
    requires Exact(schema, s)
    requires query != map[] && forall field :: field in query ==> Indexed(schema, field)
    ensures FindByIndex(schema, s, query, now) == Ok(Scan(s, query, now))
  {
    hide IndexKey, PartialKeys, Matches, Exact, Satisfies, Indexed, Zset;
    var sets := PartialKeys(schema, query);
    FilterHasSets(schema, query);
    forall key
      ensures Matches(s.index, sets, key, now) <==> key in s.records && Satisfies(s.records[key], query)
      ensures Matches(s.index, sets, key, now) ==> key in Zset(s.index, sets[0])
      ensures key in s.records <==> Live(s, key, now)
    {
      ExactMatches(schema, s, query, key, now);
      NotLiveIsAbsent(schema, s, key, now);
      if Matches(s.index, sets, key, now) {
        MatchIsInFirst(s.index, sets, key, now);
      }
    }
    FilterIsIndexed(schema, query);
    var found := set member | member in Zset(s.index, sets[0]) && Matches(s.index, sets, member, now);
    assert found == Scan(s, query, now);
  }

  lemma FilterIsIndexed(schema: Schema, query: Record)
    requires forall field :: field in query ==> Indexed(schema, field)
    ensures !exists field :: field in query && field !in schema.fields
  {
  }

  lemma FilterHasSets(schema: Schema, query: Record)
    requires query != map[] && forall field :: field in query ==> Indexed(schema, field)
    ensures PartialKeys(schema, query) != []
  {
    var field :| field in query;
    assert field in SetFields(schema.fields, query);
  }

  lemma MatchIsInFirst(index: Index, sets: seq<string>, member: string, now: int)
    requires sets != [] && Matches(index, sets, member, now)
    ensures member in Zset(index, sets[0])
  {
    InterScore(index, sets, member, now);
    assert ZScore(index, sets[0], member).Some?;
  }

  /** The index agrees with a scan: after any history of proper insertions, updates,
      failed ones included, and deletions, whatever the values. */
  lemma IndexAgreesWithScan(schema: Schema, run: seq<Timed>, start: int, interval: int, query: Record, now: int)
    requires schema.Valid() && Lasting(schema, run, start, interval)
    requires query != map[] && forall field :: field in query ==> Indexed(schema, field)
    ensures var s := Reach(schema, run, start, interval);
            FindByIndex(schema, s, query, now) == Ok(Scan(s, query, now))
  {
    hide Exact, FindByIndex, Scan;
    HistoryIsExact(schema, run, start, interval);
    ExactIsScan(schema, Reach(schema, run, start, interval), query, now);
  }

  /** An update of a live record fails exactly if, for some changed field, the
      separators in the old and the new value leave different names behind; it then
      changes neither records nor entries. */
  lemma UpdateFailsExactly(schema: Schema, s: Store, key: string, changes: Record, ttl: Ttl, interval: int, now: int)
    requires WellFormed(schema, s) && Live(s, key, now)
    ensures var (s', error) := Update(schema, s, key, changes, ttl, interval, now);
            && (error.Some? <==>
                  exists field :: Indexed(schema, field) && field in changes && field in s.records[key] &&
                                  Residue(s.records[key][field]) != Residue(changes[field]))
            && (error.Some? ==> error.value == PropertyError && s'.(lastCleanup := s.lastCleanup) == s)
  {
    var first := schema.fields[0];
    assert Indexed(schema, first);
    hide Residue, IndexKey;
    UpdateEntry(schema, s, key, changes, ttl, interval, now, first, "", "");
    var prior := s.records[key];
    if !AllMovable(schema, prior, changes) {
      var i :| 0 <= i < |schema.fields| && schema.fields[i] in changes && !Movable(prior, changes, schema.fields[i]);
      assert Indexed(schema, schema.fields[i]);
    }
    if field :| Indexed(schema, field) && field in changes && field in prior &&
                Residue(prior[field]) != Residue(changes[field]) {
      var i := FieldAt(schema, field);
      assert !Movable(prior, changes, schema.fields[i]);
    }
  }

  // --- one time to live ---

  /** Every entry that still counts is for the present value of a live record that
      expires no earlier. */
  ghost predicate Covered(schema: Schema, s: Store, ttl: nat, now: int) {
    && Stored(schema, s)
    && (forall key :: key in s.records ==> key in s.expiry && s.expiry[key] <= now + ttl)
    && forall field, value, key :: Indexed(schema, field) && CountsAt(schema, s.index, field, value, key, now) ==>
         var score := Entry(schema, s.index, field, value, key).value;
         && Live(s, key, now) && score.Until? && score.at <= s.expiry[key]
         && s.records[key][field] == value
  }

  lemma CoveredLater(schema: Schema, s: Store, ttl: nat, now: int, later: int)
    requires Covered(schema, s, ttl, now) && now <= later
    ensures Covered(schema, s, ttl, later)
  {
    hide Entry, KeyOf;
    forall field, value, key | Indexed(schema, field) && CountsAt(schema, s.index, field, value, key, later)
      ensures var score := Entry(schema, s.index, field, value, key).value;
              && Live(s, key, later) && score.Until? && score.at <= s.expiry[key]
              && s.records[key][field] == value
    {
      assert CountsAt(schema, s.index, field, value, key, now);
    }
  }

  lemma CleanupCounts(schema: Schema, s: Store, interval: int, now: int, field: string, value: string, key: string)
    ensures CountsAt(schema, Cleanup(s, interval, now).index, field, value, key, now) ==>
              && CountsAt(schema, s.index, field, value, key, now)
              && Entry(schema, Cleanup(s, interval, now).index, field, value, key) ==
                Entry(schema, s.index, field, value, key)
  {
    hide IndexKey;
    CleanupScore(s, interval, now, IndexKey(schema.prefix, field, value), key);
  }

  lemma InsertIsCovered(schema: Schema, s: Store, record: Record, ttl: nat, interval: int, now: int)
    requires Covered(schema, s, ttl, now) && Proper(schema, s, Inserted(record, For(ttl)), now)
    ensures Covered(schema, Insert(schema, s, record, For(ttl), interval, now), ttl, now)
  {
    hide IndexKey, AddAll, IndexKeysOf, KeyOf, Cleanup, Entry;
    var key, s' := KeyOf(schema, record), Insert(schema, s, record, For(ttl), interval, now);
    CleanupKeepsRecords(s, interval, now);
    StoredInsert(schema, s, record, s');
    forall field, value, other | Indexed(schema, field) && CountsAt(schema, s'.index, field, value, other, now)
      ensures var score := Entry(schema, s'.index, field, value, other).value;
              && Live(s', other, now) && score.Until? && score.at <= s'.expiry[other]
              && s'.records[other][field] == value
    {
      InsertEntry(schema, s, record, For(ttl), interval, now, field, value, other);
      CleanupCounts(schema, s, interval, now, field, value, other);
    }
  }

  lemma UpdateIsCovered(schema: Schema, s: Store, key: string, changes: Record, ttl: nat, interval: int, now: int)
    requires Covered(schema, s, ttl, now) && Proper(schema, s, Updated(key, changes, For(ttl)), now)
    ensures Covered(schema, Update(schema, s, key, changes, For(ttl), interval, now).0, ttl, now)
  {
    hide IndexKey, Update, KeyOf, Entry, AllMovable;
    var (s', error) := Update(schema, s, key, changes, For(ttl), interval, now);
    CoveredIsStored(schema, s, ttl, now);
    StoredAfter(schema, s, Updated(key, changes, For(ttl)), interval, now);
    UpdatedRecords(schema, s, key, changes, For(ttl), interval, now);
    if error.None? {
      forall field, value, other | Indexed(schema, field) && CountsAt(schema, s'.index, field, value, other, now)
        ensures var score := Entry(schema, s'.index, field, value, other).value;
                && Live(s', other, now) && score.Until? && score.at <= s'.expiry[other]
                && s'.records[other][field] == value
      {
        UpdatedCounts(schema, s, key, changes, ttl, interval, now, field, value, other);
      }
    }
  }

  lemma UpdatedCounts(schema: Schema, s: Store, key: string, changes: Record, ttl: nat, interval: int, now: int,
                      field: string, value: string, other: string)
    requires Covered(schema, s, ttl, now) && Live(s, key, now) && Indexed(schema, field)
    requires Update(schema, s, key, changes, For(ttl), interval, now).1.None?
    requires CountsAt(schema, Update(schema, s, key, changes, For(ttl), interval, now).0.index,
                      field, value, other, now)
    ensures var s' := Update(schema, s, key, changes, For(ttl), interval, now).0;
            var records, expiry := s.records[key := s.records[key] + changes], s.expiry[key := now + ttl];
            var score := Entry(schema, s'.index, field, value, other).value;
            && other in records && other in expiry && score.Until? && now <= score.at <= expiry[other]
            && field in records[other] && records[other][field] == value
  {
    hide IndexKey, Update, KeyOf, Entry, AllMovable, Cleanup;
    var _ := FieldAt(schema, field);
    UpdateEntry(schema, s, key, changes, For(ttl), interval, now, field, value, other);
    CleanupCounts(schema, s, interval, now, field, value, other);
  }

  lemma DeleteIsCovered(schema: Schema, s: Store, keys: seq<string>, ttl: nat, interval: int, now: int)
    requires Covered(schema, s, ttl, now)
    ensures Covered(schema, DeleteMany(schema, s, keys, interval, now), ttl, now)
  {
    hide IndexKey, DeleteEntries, IndexKeysOf, KeyOf, Cleanup, Entry;
    CleanupKeepsRecords(s, interval, now);
    var s' := DeleteMany(schema, s, keys, interval, now);
    forall field, value, key | Indexed(schema, field) && CountsAt(schema, s'.index, field, value, key, now)
      ensures var score := Entry(schema, s'.index, field, value, key).value;
              && Live(s', key, now) && score.Until? && score.at <= s'.expiry[key]
              && s'.records[key][field] == value
    {
      DeletedEntry(schema, s, Cleanup(s, interval, now).index, keys, now, field, value, key);
      CleanupCounts(schema, s, interval, now, field, value, key);
    }
  }

  /** All writes give the same time to live, and the clock does not go back. */
  ghost predicate OneTtl(schema: Schema, run: seq<Timed>, start: int, interval: int, ttl: nat) {
    run == [] ||
    (&& OneTtl(schema, run[..|run| - 1], start, interval, ttl)
     && var last, s := run[|run| - 1], Reach(schema, run[..|run| - 1], start, interval);
        && Proper(schema, s, last.op, last.now) && (!last.op.Deleted? ==> last.op.ttl == For(ttl))
        && Clock(run[..|run| - 1], start) <= last.now)
  }

  function Clock(run: seq<Timed>, start: int): int {
    if run == [] then start else run[|run| - 1].now
  }

  lemma {:induction false} HistoryIsCovered(schema: Schema, run: seq<Timed>, start: int, interval: int, ttl: nat)
    requires schema.Valid() && OneTtl(schema, run, start, interval, ttl)
    ensures Covered(schema, Reach(schema, run, start, interval), ttl, Clock(run, start))
  {
    if run != [] {
      HistoryIsCovered(schema, run[..|run| - 1], start, interval, ttl);
      hide Covered, Insert, Update, DeleteMany;
      var s, last := Reach(schema, run[..|run| - 1], start, interval), run[|run| - 1];
      CoveredLater(schema, s, ttl, Clock(run[..|run| - 1], start), last.now);
      CoveredIsStored(schema, s, ttl, last.now);
      match last.op
      case Inserted(record, _) =>
        InsertIsCovered(schema, s, record, ttl, interval, last.now);
      case Updated(key, changes, _) =>
        UpdateIsCovered(schema, s, key, changes, ttl, interval, last.now);
      case Deleted(keys) =>
        DeleteIsCovered(schema, s, keys, ttl, interval, last.now);
    }
  }

  lemma CoveredIsStored(schema: Schema, s: Store, ttl: nat, now: int)
    requires Covered(schema, s, ttl, now)
    ensures Stored(schema, s)
  {
  }

  /** No entry outlives its record: a lookup never meets a key without a live
      record; what it finds by one field alone is right. */
  lemma NoEntryOutlivesItsRecord(schema: Schema, run: seq<Timed>, start: int, interval: int, ttl: nat, query: Record,
                                 now: int)
    requires schema.Valid() && OneTtl(schema, run, start, interval, ttl) && Clock(run, start) <= now
    requires query != map[] && forall field :: field in query ==> Indexed(schema, field)
    ensures var s := Reach(schema, run, start, interval);
            var found := FindByIndex(schema, s, query, now);
            && found.Ok?
            && (forall key :: key in found.value ==>
                  Live(s, key, now) &&
                  exists field :: field in query && field in s.records[key] && s.records[key][field] == query[field])
            && (|query| == 1 ==> found.value <= Scan(s, query, now))
  {
    hide Covered, FindByIndex, Scan;
    HistoryIsCovered(schema, run, start, interval, ttl);
    CoveredLater(schema, Reach(schema, run, start, interval), ttl, Clock(run, start), now);
    CoveredFinds(schema, Reach(schema, run, start, interval), ttl, query, now);
  }

  lemma CoveredFinds(schema: Schema, s: Store, ttl: nat, query: Record, now: int)
    requires Covered(schema, s, ttl, now)
    requires query != map[] && forall field :: field in query ==> Indexed(schema, field)
    ensures var found := FindByIndex(schema, s, query, now);
            && found.Ok?
            && (forall key :: key in found.value ==>
                  Live(s, key, now) &&
                  exists field :: field in query && field in s.records[key] && s.records[key][field] == query[field])
            && (|query| == 1 ==> found.value <= Scan(s, query, now))
  {
    var sets := PartialKeys(schema, query);
    FilterHasSets(schema, query);
    hide IndexKey, PartialKeys, Matches, Entry, KeyOf;
    forall key | Matches(s.index, sets, key, now)
      ensures Live(s, key, now) &&
              exists field :: field in query && field in s.records[key] && s.records[key][field] == query[field]
    {
      FilterMatches(schema, s.index, query, key, now);
      var field :| field in query && CountsAt(schema, s.index, field, query[field], key, now);
      var _ := FieldAt(schema, field);
    }
    if |query| == 1 {
      forall a, b | a in query && b in query
        ensures a == b
      {
        OneField(query, a, b);
      }
    }
  }

  lemma OneField(query: Record, a: string, b: string)
    requires |query| == 1 && a in query && b in query
    ensures a == b
  {
    var rest := query.Keys - {a};
    assert query.Keys == rest + {a};
    assert |rest| == 0;
    assert b in rest + {a};
  }

  // --- what does not hold with expiries ---

  /** A lookup finds the key, a scan does not. */
  ghost predicate IsWronglyFound(schema: Schema, s: Store, query: Record, key: string, now: int) {
    var found := FindByIndex(schema, s, query, now);
    found.Ok? && key in found.value && key !in Scan(s, query, now)
  }

  /** Two fields: a record that expired, and came back with another value, is found
      by its former value together with a present one, until a cleanup. */
  lemma FormerValueIsFound(schema: Schema, a: Record, b: Record, f: string, g: string, ttl: nat, start: int)
    requires schema.Valid() && Fits(schema, a) && Fits(schema, b) && Indexed(schema, f) && Indexed(schema, g)
    requires f in a && f in b && g in a && g in b && f != g
    requires KeyOf(schema, a) == KeyOf(schema, b) && a[f] != b[f] && a[g] == b[g]
    ensures var interval, now := ttl + 1, start + ttl + 1;
            var s0 := Insert(schema, EmptyStore(start), a, For(ttl), interval, start);
            var s := Insert(schema, s0, b, For(ttl), interval, now);
            IsWronglyFound(schema, s, map[f := a[f], g := b[g]], KeyOf(schema, b), now)
  {
    var interval, now, key := ttl + 1, start + ttl + 1, KeyOf(schema, b);
    var s1 := Insert(schema, EmptyStore(start), a, For(ttl), interval, start);
    var s := Insert(schema, s1, b, For(ttl), interval, now);
    var query := map[f := a[f], g := b[g]];
    hide Insert, KeyOf, Entry, FindByIndex, Scan;
    FormerEntries(schema, a, b, f, g, ttl, start);
    NotScanned(s, query, key, f, now);
    FoundIf(schema, s, query, key, g, now);
    OnlyOneKey(schema, a, b, ttl, start, query);
  }

  /** One entry that counts is enough. */
  lemma FoundIf(schema: Schema, s: Store, query: Record, key: string, field: string, now: int)
    requires schema.Valid() && forall field :: field in query ==> Indexed(schema, field)
    requires forall field :: field in query ==> Entry(schema, s.index, field, query[field], key).Some?
    requires field in query && CountsAt(schema, s.index, field, query[field], key, now)
    ensures FindByIndex(schema, s, query, now).Ok? ==> key in FindByIndex(schema, s, query, now).value
  {
    hide IndexKey, Entry, PartialKeys, Matches, Zset, CountsAt;
    FilterHasSets(schema, query);
    FilterMatches(schema, s.index, query, key, now);
    MatchIsInFirst(s.index, PartialKeys(schema, query), key, now);
  }

  lemma NotScanned(s: Store, query: Record, key: string, field: string, now: int)
    requires key in s.records && field in query && (field in s.records[key] ==> s.records[key][field] != query[field])
    ensures key !in Scan(s, query, now)
  {
  }

  lemma FormerEntries(schema: Schema, a: Record, b: Record, f: string, g: string, ttl: nat, start: int)
    requires schema.Valid() && Fits(schema, a) && Fits(schema, b) && Indexed(schema, f) && Indexed(schema, g)
    requires f in a && f in b && g in a && g in b && f != g
    requires KeyOf(schema, a) == KeyOf(schema, b) && a[f] != b[f] && a[g] == b[g]
    ensures var interval, now, key := ttl + 1, start + ttl + 1, KeyOf(schema, b);
            var s0 := Insert(schema, EmptyStore(start), a, For(ttl), interval, start);
            var s := Insert(schema, s0, b, For(ttl), interval, now);
            && Entry(schema, s.index, f, a[f], key) == Some(Until(start + ttl))
            && Entry(schema, s.index, g, b[g], key) == Some(Until(now + ttl))
            && key in s.records && s.records[key] == b
  {
    hide IndexKey, KeyOf, Entry, AddAll, IndexKeysOf;
    var interval, now, key := ttl + 1, start + ttl + 1, KeyOf(schema, b);
    var s1 := Insert(schema, EmptyStore(start), a, For(ttl), interval, start);
    assert s1.lastCleanup == start && Cleanup(s1, interval, now) == s1;
    InsertEntry(schema, EmptyStore(start), a, For(ttl), interval, start, f, a[f], key);
    InsertEntry(schema, s1, b, For(ttl), interval, now, f, a[f], key);
    InsertEntry(schema, s1, b, For(ttl), interval, now, g, b[g], key);
  }

  lemma OnlyOneKey(schema: Schema, a: Record, b: Record, ttl: nat, start: int, query: Record)
    requires schema.Valid() && Fits(schema, a) && Fits(schema, b) && KeyOf(schema, a) == KeyOf(schema, b)
    requires query != map[] && forall field :: field in query ==> Indexed(schema, field)
    ensures var interval, now := ttl + 1, start + ttl + 1;
            var s0 := Insert(schema, EmptyStore(start), a, For(ttl), interval, start);
            var s := Insert(schema, s0, b, For(ttl), interval, now);
            FindByIndex(schema, s, query, now).Ok?
  {
    var interval, now := ttl + 1, start + ttl + 1;
    hide IndexKey, AddAll, IndexKeysOf, KeyOf, Cleanup, Entry, FindByIndex, Covered;
    var s0 := EmptyStore(start);
    EmptyIsCovered(schema, start, ttl);
    InsertIsCovered(schema, s0, a, ttl, interval, start);
    var s1 := Insert(schema, s0, a, For(ttl), interval, start);
    CleanupKeepsRecords(s0, interval, start);
    CoveredLater(schema, s1, ttl, start, now);
    InsertIsCovered(schema, s1, b, ttl, interval, now);
    CoveredFinds(schema, Insert(schema, s1, b, For(ttl), interval, now), ttl, query, now);
  }

  lemma EmptyIsCovered(schema: Schema, start: int, ttl: nat)
    requires schema.Valid()
    ensures Covered(schema, EmptyStore(start), ttl, start)
  {
  }

  /** An update that means to leave the expiry alone does so exactly if there is none;
      else the record is permanent from then on, though its entries are not. */
  lemma UpdateForgetsExpiry(schema: Schema, s: Store, key: string, changes: Record, interval: int, now: int, later: int)
    requires Stored(schema, s) && Live(s, key, now) && AllMovable(schema, s.records[key], changes)
    ensures var s' := Update(schema, s, key, changes, Unaltered, interval, now).0;
            && (s'.expiry == s.expiry <==> key !in s.expiry)
            && Live(s', key, later)
  {
    hide IndexKey, Update, KeyOf, AllMovable;
    UpdatedRecords(schema, s, key, changes, Unaltered, interval, now);
  }
}
