/** Lookups while records expire, all writes giving the same time to live: exactly
    which records are found, and exactly which stores answer every query rightly. */
module CollectionLifetimes {
  import opened Wrappers
  import opened Prefixes
  import opened IndexKeys
  import opened Collections
  import opened CollectionIndexes
  import opened CollectionProperties

  // --- how long a field is indexed ---

  /** The operation writes the entry of the field for the key. */
  predicate Names(schema: Schema, s: Store, timed: Timed, interval: int, key: string, field: string) {
    WellFormed(schema, s) &&
    match timed.op
    case Inserted(record, _) => Fits(schema, record) && KeyOf(schema, record) == key
    case Updated(k, changes, ttl) =>
      k == key && field in changes && Update(schema, s, k, changes, ttl, interval, timed.now).1.None?
    case Deleted(_) => false
  }

  /** When the field was last named in a write of the record. */
  function LastNamed(schema: Schema, run: seq<Timed>, start: int, interval: int, key: string, field: string): int {
    if run == [] then start
    else
      var front, last := run[..|run| - 1], run[|run| - 1];
      if Names(schema, Reach(schema, front, start, interval), last, interval, key, field) then last.now
      else LastNamed(schema, front, start, interval, key, field)
  }

  /** The operation cleans the indexes up, and takes the entries that end then: those
      from the start of the epoch on. */
  predicate Sweeps(schema: Schema, s: Store, timed: Timed, interval: int, end: int) {
    && WellFormed(schema, s)
    && timed.now - s.lastCleanup > interval && 0 <= end <= timed.now
    && match timed.op
       case Updated(k, changes, ttl) => Update(schema, s, k, changes, ttl, interval, timed.now).1.None?
       case _ => true
  }

  /** A cleanup has come between the end of the entry and the next write of it. */
  predicate Swept(schema: Schema, run: seq<Timed>, start: int, interval: int, ttl: nat, key: string, field: string) {
    if run == [] then false
    else
      var front, last := run[..|run| - 1], run[|run| - 1];
      var s, end := Reach(schema, front, start, interval), LastNamed(schema, front, start, interval, key, field) + ttl;
      && !Names(schema, s, last, interval, key, field)
      && (Swept(schema, front, start, interval, ttl, key, field) || Sweeps(schema, s, last, interval, end))
  }

  /** The entry of the present value ends then, unless a cleanup has taken it. */
  ghost predicate EndsAt(schema: Schema, s: Store, field: string, value: string, key: string, end: int, swept: bool) {
    Entry(schema, s.index, field, value, key) == if swept then None else Some(Until(end))
  }

  lemma CleanedEndsAt(schema: Schema, s: Store, interval: int, now: int, field: string, value: string, key: string,
                      end: int, swept: bool)
    requires EndsAt(schema, s, field, value, key, end, swept)
    ensures EndsAt(schema, Cleanup(s, interval, now), field, value, key, end,
                   swept || (now - s.lastCleanup > interval && 0 <= end <= now))
  {
    hide IndexKey;
  }

  lemma KeptEndsAt(schema: Schema, s: Store, s': Store, field: string, value: string, key: string,
                   end: int, swept: bool)
    requires EndsAt(schema, s, field, value, key, end, swept)
    requires Entry(schema, s'.index, field, value, key) == Entry(schema, s.index, field, value, key)
    ensures EndsAt(schema, s', field, value, key, end, swept)
  {
    hide Entry;
  }

  lemma InsertEndsAt(schema: Schema, s: Store, record: Record, ttl: nat, interval: int, now: int,
                     key: string, field: string, end: int, swept: bool)
    requires Stored(schema, s) && Fits(schema, record) && Indexed(schema, field)
    requires var s' := Insert(schema, s, record, For(ttl), interval, now);
             key in s'.records && field in s'.records[key]
    requires key in s.records ==>
               field in s.records[key] && EndsAt(schema, s, field, s.records[key][field], key, end, swept)
    ensures var s' := Insert(schema, s, record, For(ttl), interval, now);
            if key == KeyOf(schema, record) then
              EndsAt(schema, s', field, s'.records[key][field], key, now + ttl, false)
            else
              EndsAt(schema, s', field, s'.records[key][field], key, end,
                     swept || (now - s.lastCleanup > interval && 0 <= end <= now))
  {
    hide IndexKey, KeyOf, Entry, Insert, Cleanup;
    var s' := Insert(schema, s, record, For(ttl), interval, now);
    var swept' := swept || (now - s.lastCleanup > interval && 0 <= end <= now);
    InsertedRecords(schema, s, record, ttl, interval, now);
    InsertEntry(schema, s, record, For(ttl), interval, now, field, s'.records[key][field], key);
    if key != KeyOf(schema, record) {
      CleanedEndsAt(schema, s, interval, now, field, s.records[key][field], key, end, swept);
      KeptEndsAt(schema, Cleanup(s, interval, now), s', field, s.records[key][field], key, end, swept');
    }
  }

  lemma InsertedRecords(schema: Schema, s: Store, record: Record, ttl: nat, interval: int, now: int)
    requires Stored(schema, s) && Fits(schema, record)
    ensures Insert(schema, s, record, For(ttl), interval, now).records == s.records[KeyOf(schema, record) := record]
  {
    hide KeyOf, AddAll, IndexKeysOf;
    CleanupKeepsRecords(s, interval, now);
  }

  lemma UpdateEndsAt(schema: Schema, s: Store, k: string, changes: Record, ttl: nat, interval: int, now: int,
                     key: string, field: string, end: int, swept: bool)
    requires Stored(schema, s) && Indexed(schema, field)
    requires key in s.records && field in s.records[key]
    requires EndsAt(schema, s, field, s.records[key][field], key, end, swept)
    ensures var (s', error) := Update(schema, s, k, changes, For(ttl), interval, now);
            && key in s'.records && field in s'.records[key]
            && var value := s'.records[key][field];
               if error.Some? then EndsAt(schema, s', field, value, key, end, swept)
               else if k == key && field in changes then EndsAt(schema, s', field, value, key, now + ttl, false)
               else EndsAt(schema, s', field, value, key, end,
                           swept || (now - s.lastCleanup > interval && 0 <= end <= now))
  {
    hide IndexKey, KeyOf, Entry, Update, Cleanup, AllMovable;
    var (s', error) := Update(schema, s, k, changes, For(ttl), interval, now);
    var swept' := swept || (now - s.lastCleanup > interval && 0 <= end <= now);
    UpdatedRecords(schema, s, k, changes, For(ttl), interval, now);
    CleanedEndsAt(schema, s, interval, now, field, s.records[key][field], key, end, swept);
    if error.Some? {
      KeptEndsAt(schema, s, s', field, s.records[key][field], key, end, swept);
    } else {
      UpdateEntry(schema, s, k, changes, For(ttl), interval, now, field, s'.records[key][field], key);
      if k != key || field !in changes {
        KeptEndsAt(schema, Cleanup(s, interval, now), s', field, s.records[key][field], key, end, swept');
      }
    }
  }

  lemma DeleteEndsAt(schema: Schema, s: Store, keys: seq<string>, interval: int, now: int,
                     key: string, field: string, end: int, swept: bool)
    requires Stored(schema, s) && Indexed(schema, field) && key !in keys
    requires key in s.records && field in s.records[key]
    requires EndsAt(schema, s, field, s.records[key][field], key, end, swept)
    ensures var s' := DeleteMany(schema, s, keys, interval, now);
            && key in s'.records && s'.records[key] == s.records[key]
            && EndsAt(schema, s', field, s.records[key][field], key, end,
                      swept || (now - s.lastCleanup > interval && 0 <= end <= now))
  {
    hide IndexKey, KeyOf, Entry, Cleanup, DeleteEntries;
    var s' := DeleteMany(schema, s, keys, interval, now);
    var swept' := swept || (now - s.lastCleanup > interval && 0 <= end <= now);
    CleanedEndsAt(schema, s, interval, now, field, s.records[key][field], key, end, swept);
    DeletedEntry(schema, s, Cleanup(s, interval, now).index, keys, now, field, s.records[key][field], key);
    KeptEndsAt(schema, Cleanup(s, interval, now), s', field, s.records[key][field], key, end, swept');
  }

  lemma {:induction false} HistoryEndsAt(schema: Schema, run: seq<Timed>, start: int, interval: int, ttl: nat,
                                         key: string, field: string)
    requires schema.Valid() && OneTtl(schema, run, start, interval, ttl) && Indexed(schema, field)
    ensures var s := Reach(schema, run, start, interval);
            && Stored(schema, s)
            && (key in s.records ==>
                  && field in s.records[key]
                  && EndsAt(schema, s, field, s.records[key][field], key,
                            LastNamed(schema, run, start, interval, key, field) + ttl,
                            Swept(schema, run, start, interval, ttl, key, field)))
  {
    hide EndsAt, OneTtl, Reach, LastNamed, Swept, KeyOf, Sweeps, Names, After, WellFormed;
    HistoryIsStored(schema, run, start, interval, ttl);
    var _ := FieldAt(schema, field);
    if run == [] {
      NothingStored(schema, start, interval);
    } else {
      var front, last := run[..|run| - 1], run[|run| - 1];
      LastOp(schema, run, start, interval, ttl, key, field);
      HistoryEndsAt(schema, front, start, interval, ttl, key, field);
      OneMoreEndsAt(schema, Reach(schema, front, start, interval), last, interval, ttl, key, field,
                    LastNamed(schema, front, start, interval, key, field),
                    Swept(schema, front, start, interval, ttl, key, field));
    }
  }

  /** What is swept has ended before the last operation, or at that very instant. */
  lemma {:induction false} SweptHasEnded(schema: Schema, run: seq<Timed>, start: int, interval: int, ttl: nat,
                                         key: string, field: string)
    requires schema.Valid() && OneTtl(schema, run, start, interval, ttl)
    requires Swept(schema, run, start, interval, ttl, key, field)
    ensures LastNamed(schema, run, start, interval, key, field) + ttl <= Clock(run, start)
  {
    hide OneTtl, Reach, KeyOf;
    LastOp(schema, run, start, interval, ttl, key, field);
    var front := run[..|run| - 1];
    if Swept(schema, front, start, interval, ttl, key, field) {
      SweptHasEnded(schema, front, start, interval, ttl, key, field);
    }
  }

  lemma HistoryIsStored(schema: Schema, run: seq<Timed>, start: int, interval: int, ttl: nat)
    requires schema.Valid() && OneTtl(schema, run, start, interval, ttl)
    ensures Stored(schema, Reach(schema, run, start, interval))
  {
    hide Covered, Stored, OneTtl, Reach;
    HistoryIsCovered(schema, run, start, interval, ttl);
    CoveredIsStored(schema, Reach(schema, run, start, interval), ttl, Clock(run, start));
  }

  lemma NothingStored(schema: Schema, start: int, interval: int)
    ensures Reach(schema, [], start, interval) == EmptyStore(start)
  {
  }

  /** The last operation of a run, unfolded. */
  lemma LastOp(schema: Schema, run: seq<Timed>, start: int, interval: int, ttl: nat, key: string, field: string)
    requires schema.Valid() && OneTtl(schema, run, start, interval, ttl) && run != []
    ensures var front, last := run[..|run| - 1], run[|run| - 1];
            var s := Reach(schema, front, start, interval);
            && OneTtl(schema, front, start, interval, ttl) && Stored(schema, s)
            && (last.op.Inserted? ==> Fits(schema, last.op.record)) && (!last.op.Deleted? ==> last.op.ttl == For(ttl))
            && Clock(front, start) <= last.now == Clock(run, start)
            && Reach(schema, run, start, interval) == After(schema, s, last.op, interval, last.now)
            && LastNamed(schema, run, start, interval, key, field) ==
               (if Names(schema, s, last, interval, key, field) then last.now
                else LastNamed(schema, front, start, interval, key, field))
            && var end := LastNamed(schema, front, start, interval, key, field) + ttl;
               Swept(schema, run, start, interval, ttl, key, field) ==
               (&& !Names(schema, s, last, interval, key, field)
                && (Swept(schema, front, start, interval, ttl, key, field) || Sweeps(schema, s, last, interval, end)))
  {
    hide Insert, Update, DeleteMany, KeyOf, Names, Sweeps;
    HistoryIsStored(schema, run[..|run| - 1], start, interval, ttl);
  }

  lemma OneMoreEndsAt(schema: Schema, s: Store, timed: Timed, interval: int, ttl: nat, key: string, field: string,
                      named: int, swept: bool)
    requires Stored(schema, s) && Indexed(schema, field)
    requires timed.op.Inserted? ==> Fits(schema, timed.op.record)
    requires !timed.op.Deleted? ==> timed.op.ttl == For(ttl)
    requires key in s.records ==>
               field in s.records[key] && EndsAt(schema, s, field, s.records[key][field], key, named + ttl, swept)
    requires var s' := After(schema, s, timed.op, interval, timed.now); key in s'.records ==> field in s'.records[key]
    ensures var s' := After(schema, s, timed.op, interval, timed.now);
            key in s'.records ==>
              if Names(schema, s, timed, interval, key, field) then
                EndsAt(schema, s', field, s'.records[key][field], key, timed.now + ttl, false)
              else
                EndsAt(schema, s', field, s'.records[key][field], key, named + ttl,
                       swept || Sweeps(schema, s, timed, interval, named + ttl))
  {
    hide EndsAt, Insert, Update, DeleteMany, KeyOf, Cleanup, Names;
    StoredIsWellFormed(schema, s);
    var s' := After(schema, s, timed.op, interval, timed.now);
    if key in s'.records {
      match timed.op
      case Inserted(record, _) =>
        InsertEndsAt(schema, s, record, ttl, interval, timed.now, key, field, named + ttl, swept);
        NamedByInsert(schema, s, timed, interval, key, field);
        InsertedRecords(schema, s, record, ttl, interval, timed.now);
      case Updated(k, changes, _) =>
        OldKey(schema, s, k, changes, ttl, interval, timed.now, key);
        UpdateEndsAt(schema, s, k, changes, ttl, interval, timed.now, key, field, named + ttl, swept);
        NamedByUpdate(schema, s, timed, interval, key, field);
      case Deleted(keys) =>
        OldKeyKept(schema, s, keys, interval, timed.now, key);
        DeleteEndsAt(schema, s, keys, interval, timed.now, key, field, named + ttl, swept);
        NamedByDelete(schema, s, timed, interval, key, field);
    }
  }

  lemma NamedByInsert(schema: Schema, s: Store, timed: Timed, interval: int, key: string, field: string)
    requires Stored(schema, s) && timed.op.Inserted? && Fits(schema, timed.op.record)
    ensures Names(schema, s, timed, interval, key, field) <==> key == KeyOf(schema, timed.op.record)
  {
    hide KeyOf;
  }

  lemma NamedByUpdate(schema: Schema, s: Store, timed: Timed, interval: int, key: string, field: string)
    requires Stored(schema, s) && timed.op.Updated?
    ensures Names(schema, s, timed, interval, key, field) <==>
            && timed.op.key == key && field in timed.op.changes
            && Update(schema, s, key, timed.op.changes, timed.op.ttl, interval, timed.now).1.None?
  {
    hide KeyOf, Update;
  }

  lemma NamedByDelete(schema: Schema, s: Store, timed: Timed, interval: int, key: string, field: string)
    requires timed.op.Deleted?
    ensures !Names(schema, s, timed, interval, key, field)
  {
    hide KeyOf;
  }

  lemma OldKey(schema: Schema, s: Store, k: string, changes: Record, ttl: nat, interval: int, now: int, key: string)
    requires Stored(schema, s) && key in Update(schema, s, k, changes, For(ttl), interval, now).0.records
    ensures key in s.records
  {
    hide KeyOf, Update;
    UpdatedRecords(schema, s, k, changes, For(ttl), interval, now);
  }

  lemma OldKeyKept(schema: Schema, s: Store, keys: seq<string>, interval: int, now: int, key: string)
    requires Stored(schema, s) && key in DeleteMany(schema, s, keys, interval, now).records
    ensures key in s.records && key !in keys
  {
    hide KeyOf, DeleteEntries, Cleanup;
  }

  /** A live record is found by the value of a field exactly if the last write that
      named the field is not longer ago than the time to live: not what the record
      itself lives, which any write prolongs.  In the very instant in which the entry
      ends, it is found exactly if no cleanup has come in that instant. */
  lemma FoundWhileNamed(schema: Schema, run: seq<Timed>, start: int, interval: int, ttl: nat,
                        key: string, field: string, now: int)
    requires schema.Valid() && OneTtl(schema, run, start, interval, ttl) && Clock(run, start) <= now
    requires Indexed(schema, field) && Live(Reach(schema, run, start, interval), key, now)
    ensures var s, named := Reach(schema, run, start, interval), LastNamed(schema, run, start, interval, key, field);
            && field in s.records[key]
            && var query := map[field := s.records[key][field]];
               && key in Scan(s, query, now)
               && FindByIndex(schema, s, query, now).Ok?
               && (key in FindByIndex(schema, s, query, now).value <==>
                   now < named + ttl || (now == named + ttl && !Swept(schema, run, start, interval, ttl, key, field)))
  {
    hide EndsAt, Entry, FindByIndex, Covered, Reach, LastNamed, Swept, OneTtl, KeyOf, Scan;
    HistoryEndsAt(schema, run, start, interval, ttl, key, field);
    if Swept(schema, run, start, interval, ttl, key, field) {
      SweptHasEnded(schema, run, start, interval, ttl, key, field);
    }
    HistoryIsCovered(schema, run, start, interval, ttl);
    CoveredLater(schema, Reach(schema, run, start, interval), ttl, Clock(run, start), now);
    FoundUntil(schema, Reach(schema, run, start, interval), ttl, key, field, now,
               LastNamed(schema, run, start, interval, key, field) + ttl,
               Swept(schema, run, start, interval, ttl, key, field));
  }

  lemma FoundUntil(schema: Schema, s: Store, ttl: nat, key: string, field: string, now: int, end: int, swept: bool)
    requires Covered(schema, s, ttl, now) && Indexed(schema, field) && Live(s, key, now) && field in s.records[key]
    requires EndsAt(schema, s, field, s.records[key][field], key, end, swept) && (swept ==> end <= now)
    ensures var query := map[field := s.records[key][field]];
            && key in Scan(s, query, now)
            && FindByIndex(schema, s, query, now).Ok?
            && (key in FindByIndex(schema, s, query, now).value <==> now < end || (now == end && !swept))
  {
    CoveredIsStored(schema, s, ttl, now);
    hide Entry, FindByIndex, Covered, KeyOf;
    var query := map[field := s.records[key][field]];
    assert field in query;
    CoveredFinds(schema, s, ttl, query, now);
    FoundByOne(schema, s, field, s.records[key][field], key, now);
  }

  /** By one field a key is found exactly if its entry counts. */
  lemma FoundByOne(schema: Schema, s: Store, field: string, value: string, key: string, now: int)
    requires schema.Valid() && Indexed(schema, field) && FindByIndex(schema, s, map[field := value], now).Ok?
    ensures key in FindByIndex(schema, s, map[field := value], now).value <==>
            CountsAt(schema, s.index, field, value, key, now)
  {
    hide IndexKey, PartialKeys, Matches, Entry, CountsAt, Zset;
    var query := map[field := value];
    assert field in query;
    FilterHasSets(schema, query);
    FilterMatches(schema, s.index, query, key, now);
    if Matches(s.index, PartialKeys(schema, query), key, now) {
      MatchIsInFirst(s.index, PartialKeys(schema, query), key, now);
    }
    if CountsAt(schema, s.index, field, value, key, now) {
      CountingIsThere(schema, s.index, field, value, key, now);
    }
  }

  lemma CountingIsThere(schema: Schema, index: Index, field: string, value: string, key: string, now: int)
    requires CountsAt(schema, index, field, value, key, now)
    ensures Entry(schema, index, field, value, key).Some?
  {
  }

  /** Inserted, and one instant later updated in another field. */
  function UpdatedElsewhere(schema: Schema, record: Record, g: string, value: string, ttl: nat, start: int): seq<Timed>
    requires schema.Valid() && Fits(schema, record)
  {
    [Timed(Inserted(record, For(ttl)), start),
     Timed(Updated(KeyOf(schema, record), map[g := value], For(ttl)), start + 1)]
  }

  /** A scan finds the key, a lookup does not. */
  ghost predicate IsMissed(schema: Schema, s: Store, query: Record, key: string, now: int) {
    var found := FindByIndex(schema, s, query, now);
    key in Scan(s, query, now) && found.Ok? && key !in found.value
  }

  /** After that run the live record is missed by the field that was left alone. */
  lemma UntouchedFieldIsMissed(schema: Schema, record: Record, f: string, g: string, value: string, ttl: nat,
                               start: int, interval: int)
    requires schema.Valid() && Fits(schema, record) && Indexed(schema, f) && Indexed(schema, g) && f != g
    requires g !in schema.primary && ttl >= 1 && f in record && g in record && Residue(record[g]) == Residue(value)
    ensures var key, now := KeyOf(schema, record), start + 1 + ttl;
            var run := UpdatedElsewhere(schema, record, g, value, ttl, start);
            && OneTtl(schema, run, start, interval, ttl)
            && IsMissed(schema, Reach(schema, run, start, interval), map[f := record[f]], key, now)
  {
    hide KeyOf, FindByIndex, Residue, OneTtl, Reach, LastNamed, Stored, UpdatedElsewhere;
    var key, now := KeyOf(schema, record), start + 1 + ttl;
    var run := UpdatedElsewhere(schema, record, g, value, ttl, start);
    ElsewhereReached(schema, record, f, g, value, ttl, start, interval);
    FoundWhileNamed(schema, run, start, interval, ttl, key, f, now);
  }

  lemma ElsewhereReached(schema: Schema, record: Record, f: string, g: string, value: string, ttl: nat, start: int,
                         interval: int)
    requires schema.Valid() && Fits(schema, record) && f != g
    requires g !in schema.primary && ttl >= 1 && f in record && g in record && Residue(record[g]) == Residue(value)
    ensures var key, now := KeyOf(schema, record), start + 1 + ttl;
            var run := UpdatedElsewhere(schema, record, g, value, ttl, start);
            var s := Reach(schema, run, start, interval);
            && OneTtl(schema, run, start, interval, ttl) && Clock(run, start) == start + 1
            && Live(s, key, now) && s.records[key] == record[g := value]
            && LastNamed(schema, run, start, interval, key, f) == start
  {
    hide Insert, Update, KeyOf, Residue, Stored, AllMovable, LastNamed;
    var key, changes := KeyOf(schema, record), map[g := value];
    var first, second := Timed(Inserted(record, For(ttl)), start), Timed(Updated(key, changes, For(ttl)), start + 1);
    var run := UpdatedElsewhere(schema, record, g, value, ttl, start);
    FirstInsertion(schema, record, ttl, start, interval);
    var s1 := Reach(schema, [first], start, interval);
    assert run[..1] == [first];
    OnlyOther(schema, record, g, value);
    UpdatedRecords(schema, s1, key, changes, For(ttl), interval, start + 1);
    assert Proper(schema, s1, second.op, start + 1);
    StoredIsWellFormed(schema, s1);
    assert Reach(schema, run, start, interval) == Update(schema, s1, key, changes, For(ttl), interval, start + 1).0;
    LastNamedBefore(schema, first, second, start, interval, key, f);
  }

  lemma StoredIsWellFormed(schema: Schema, s: Store)
    requires Stored(schema, s)
    ensures WellFormed(schema, s)
  {
    hide KeyOf;
  }

  lemma FirstInsertion(schema: Schema, record: Record, ttl: nat, start: int, interval: int)
    requires schema.Valid() && Fits(schema, record)
    ensures var run := [Timed(Inserted(record, For(ttl)), start)];
            var s := Reach(schema, run, start, interval);
            && OneTtl(schema, run, start, interval, ttl) && Stored(schema, s)
            && s.records == map[KeyOf(schema, record) := record]
            && s.expiry == map[KeyOf(schema, record) := start + ttl]
  {
    hide KeyOf, AddAll, IndexKeysOf;
    var run := [Timed(Inserted(record, For(ttl)), start)];
    assert run[..0] == [];
    StoredAfter(schema, EmptyStore(start), run[0].op, interval, start);
  }

  /** A change of one field outside the primary ones, with nothing left of either
      value in a name. */
  lemma OnlyOther(schema: Schema, record: Record, g: string, value: string)
    requires schema.Valid() && Fits(schema, record) && g in record && g !in schema.primary &&
             Residue(record[g]) == Residue(value)
    ensures AllMovable(schema, record, map[g := value])
    ensures forall i :: 0 <= i < |schema.primary| ==> schema.primary[i] !in map[g := value]
  {
    forall i | 0 <= i < |schema.primary|
      ensures schema.primary[i] !in map[g := value]
    {
      assert schema.primary[i] in schema.primary;
    }
  }

  lemma LastNamedBefore(schema: Schema, first: Timed, second: Timed, start: int, interval: int, key: string, f: string)
    requires schema.Valid() && first.op.Inserted? && Fits(schema, first.op.record) &&
             KeyOf(schema, first.op.record) == key
    requires second.op.Updated? && f !in second.op.changes
    ensures LastNamed(schema, [first, second], start, interval, key, f) == first.now
  {
    hide KeyOf, Update, Insert;
    assert [first, second][..1] == [first] && [first][..0] == [];
    assert LastNamed(schema, [first], start, interval, key, f) == first.now;
  }

  // --- which stores answer rightly ---

  ghost predicate IsQuery(schema: Schema, query: Record) {
    query != map[] && forall field :: field in query ==> Indexed(schema, field)
  }

  /** A live record with an entry left at a value it no longer has, and an entry that
      still counts for another field. */
  ghost predicate Former(schema: Schema, s: Store, key: string, f: string, v: string, g: string, now: int) {
    && Live(s, key, now) && Indexed(schema, f) && Indexed(schema, g) && f != g
    && f in s.records[key] && g in s.records[key] && s.records[key][f] != v
    && Entry(schema, s.index, f, v, key).Some?
    && CountsAt(schema, s.index, g, s.records[key][g], key, now)
  }

  ghost predicate FindsOnlyMatches(schema: Schema, s: Store, now: int) {
    forall query :: IsQuery(schema, query) ==>
      FindByIndex(schema, s, query, now).Ok? && FindByIndex(schema, s, query, now).value <= Scan(s, query, now)
  }

  ghost predicate FindsAllMatches(schema: Schema, s: Store, now: int) {
    forall query :: IsQuery(schema, query) ==>
      FindByIndex(schema, s, query, now).Ok? && Scan(s, query, now) <= FindByIndex(schema, s, query, now).value
  }

  /** Every field of every live record still has an entry that counts. */
  ghost predicate AllCount(schema: Schema, s: Store, now: int) {
    forall key, field :: Live(s, key, now) && Indexed(schema, field) && field in s.records[key] ==>
      CountsAt(schema, s.index, field, s.records[key][field], key, now)
  }

  /** Lookups find nothing wrong exactly in the stores without such entries. */
  lemma FindsOnlyMatchesExactly(schema: Schema, s: Store, ttl: nat, now: int)
    requires Covered(schema, s, ttl, now)
    ensures FindsOnlyMatches(schema, s, now) <==> !exists key, f, v, g :: Former(schema, s, key, f, v, g, now)
  {
    hide Covered, FindByIndex, Scan, Former;
    if exists key, f, v, g :: Former(schema, s, key, f, v, g, now) {
      var key, f, v, g :| Former(schema, s, key, f, v, g, now);
      var query := FormerIsFound(schema, s, ttl, key, f, v, g, now);
      assert !(FindByIndex(schema, s, query, now).value <= Scan(s, query, now));
    } else {
      forall query | IsQuery(schema, query)
        ensures FindByIndex(schema, s, query, now).Ok? &&
                FindByIndex(schema, s, query, now).value <= Scan(s, query, now)
      {
        CoveredFinds(schema, s, ttl, query, now);
        forall key | key in FindByIndex(schema, s, query, now).value
          ensures key in Scan(s, query, now)
        {
          RightlyFound(schema, s, ttl, query, key, now);
        }
      }
    }
  }

  lemma FormerIsFound(schema: Schema, s: Store, ttl: nat, key: string, f: string, v: string, g: string, now: int)
    returns (query: Record)
    requires Covered(schema, s, ttl, now) && Former(schema, s, key, f, v, g, now)
    ensures IsQuery(schema, query) && FindByIndex(schema, s, query, now).Ok?
    ensures key in FindByIndex(schema, s, query, now).value && key !in Scan(s, query, now)
  {
    query := map[f := v, g := s.records[key][g]];
    CoveredIsStored(schema, s, ttl, now);
    hide Covered, FindByIndex, Entry, KeyOf;
    assert f in query && g in query;
    CountingIsThere(schema, s.index, g, s.records[key][g], key, now);
    CoveredFinds(schema, s, ttl, query, now);
    FoundIf(schema, s, query, key, g, now);
  }

  lemma RightlyFound(schema: Schema, s: Store, ttl: nat, query: Record, key: string, now: int)
    requires Covered(schema, s, ttl, now) && IsQuery(schema, query)
    requires FindByIndex(schema, s, query, now).Ok? && key in FindByIndex(schema, s, query, now).value
    requires forall f, v, g :: !Former(schema, s, key, f, v, g, now)
    ensures key in Scan(s, query, now)
  {
    hide IndexKey, PartialKeys, Matches, Entry, KeyOf, Zset;
    FilterHasSets(schema, query);
    FilterMatches(schema, s.index, query, key, now);
    var g :| g in query && CountsAt(schema, s.index, g, query[g], key, now);
    var _ := FieldAt(schema, g);
    forall f | f in query
      ensures f in s.records[key] && s.records[key][f] == query[f]
    {
      var _ := FieldAt(schema, f);
      assert !Former(schema, s, key, f, query[f], g, now);
    }
  }

  /** Lookups find all there is exactly in the stores where all entries count. */
  lemma FindsAllMatchesExactly(schema: Schema, s: Store, ttl: nat, now: int)
    requires Covered(schema, s, ttl, now)
    ensures FindsAllMatches(schema, s, now) <==> AllCount(schema, s, now)
  {
    CoveredIsStored(schema, s, ttl, now);
    hide Covered, FindByIndex, CountsAt, KeyOf;
    if FindsAllMatches(schema, s, now) {
      forall key, field | Live(s, key, now) && Indexed(schema, field) && field in s.records[key]
        ensures CountsAt(schema, s.index, field, s.records[key][field], key, now)
      {
        var query := map[field := s.records[key][field]];
        assert IsQuery(schema, query) by {
          assert field in query;
        }
        assert key in Scan(s, query, now);
        FoundByOne(schema, s, field, s.records[key][field], key, now);
      }
    }
    if AllCount(schema, s, now) {
      forall query | IsQuery(schema, query)
        ensures FindByIndex(schema, s, query, now).Ok? &&
                Scan(s, query, now) <= FindByIndex(schema, s, query, now).value
      {
        CoveredFinds(schema, s, ttl, query, now);
        forall key | key in Scan(s, query, now)
          ensures key in FindByIndex(schema, s, query, now).value
        {
          ScannedIsFound(schema, s, query, key, now);
        }
      }
    }
  }

  lemma ScannedIsFound(schema: Schema, s: Store, query: Record, key: string, now: int)
    requires schema.Valid() && IsQuery(schema, query) && AllCount(schema, s, now) && key in Scan(s, query, now)
    requires FindByIndex(schema, s, query, now).Ok?
    ensures key in FindByIndex(schema, s, query, now).value
  {
    hide FindByIndex, Entry;
    forall field | field in query
      ensures CountsAt(schema, s.index, field, query[field], key, now) &&
              Entry(schema, s.index, field, query[field], key).Some?
    {
      CountingIsThere(schema, s.index, field, s.records[key][field], key, now);
    }
    var field :| field in query;
    FoundIf(schema, s, query, key, field, now);
  }
}
