/** What each operation does to the entries of a field, a value and a key. */
module CollectionIndexes {
  import opened Wrappers
  import opened Prefixes
  import opened IndexKeys
  import opened Collections

  /** The score of a key in the index set of a field and a value. */
  function Entry(schema: Schema, index: Index, field: string, value: string, key: string): Option<Score> {
    ZScore(index, IndexKey(schema.prefix, field, value), key)
  }

  predicate Indexed(schema: Schema, field: string) {
    field in schema.fields
  }

  lemma FieldAt(schema: Schema, field: string) returns (i: nat)
    requires Indexed(schema, field)
    ensures i < |schema.fields| && schema.fields[i] == field
  {
    i :| 0 <= i < |schema.fields| && schema.fields[i] == field;
  }

  lemma KeysDiffer(schema: Schema, f: string, v: string, g: string, w: string)
    requires schema.Valid() && Indexed(schema, f) && Indexed(schema, g)
    ensures IndexKey(schema.prefix, f, v) == IndexKey(schema.prefix, g, w) <==> f == g && v == w
  {
    var _ := FieldAt(schema, f);
    var _ := FieldAt(schema, g);
    IndexKeysDiffer(schema.prefix, f, v, g, w);
  }

  // --- the sets of a record ---

  lemma InIndexKeys(schema: Schema, record: Record, field: string, value: string)
    requires schema.Valid() && Fits(schema, record) && Indexed(schema, field)
    ensures IndexKey(schema.prefix, field, value) in IndexKeysOf(schema, record) <==> record[field] == value
  {
    hide IndexKey;
    var i := FieldAt(schema, field);
    assert IndexKeysOf(schema, record)[i] == IndexKey(schema.prefix, field, record[field]);
    if IndexKey(schema.prefix, field, value) in IndexKeysOf(schema, record) {
      var j :| 0 <= j < |schema.fields| && IndexKeysOf(schema, record)[j] == IndexKey(schema.prefix, field, value);
      KeysDiffer(schema, field, value, schema.fields[j], record[schema.fields[j]]);
    }
  }

  // --- adding and removing ---

  lemma {:induction false} AddAllScore(index: Index, sets: seq<string>, member: string, score: Score, zset: string,
                                       key: string)
    ensures ZScore(AddAll(index, sets, member, score), zset, key) ==
            if zset in sets && key == member then Some(score) else ZScore(index, zset, key)
  {
    if sets != [] {
      AddAllScore(index, sets[..|sets| - 1], member, score, zset, key);
      assert sets == sets[..|sets| - 1] + [sets[|sets| - 1]];
    }
  }

  lemma {:induction false} RemAllScore(index: Index, sets: seq<string>, member: string, zset: string, key: string)
    ensures ZScore(RemAll(index, sets, member), zset, key) ==
            if zset in sets && key == member then None else ZScore(index, zset, key)
  {
    if sets != [] {
      RemAllScore(index, sets[..|sets| - 1], member, zset, key);
      assert sets == sets[..|sets| - 1] + [sets[|sets| - 1]];
    }
  }

  /** A cleanup removes only entries that have ended by now. */
  lemma CleanupScore(s: Store, interval: int, now: int, zset: string, key: string)
    ensures var was, left := ZScore(s.index, zset, key), ZScore(Cleanup(s, interval, now).index, zset, key);
            left == was || (left.None? && was.Some? && was.value.Until? && was.value.at <= now)
    ensures Cleanup(s, interval, now).records == s.records && Cleanup(s, interval, now).expiry == s.expiry
  {
  }

  lemma InsertEntry(schema: Schema, s: Store, record: Record, ttl: Ttl, interval: int, now: int,
                    field: string, value: string, key: string)
    requires schema.Valid() && Fits(schema, record) && Indexed(schema, field)
    ensures Entry(schema, Insert(schema, s, record, ttl, interval, now).index, field, value, key) ==
            if key == KeyOf(schema, record) && value == record[field] then Some(ScoreOf(ttl, now))
            else Entry(schema, Cleanup(s, interval, now).index, field, value, key)
  {
    hide Cleanup, IndexKeysOf, AddAll, IndexKey, ZScore;
    InIndexKeys(schema, record, field, value);
    AddAllScore(Cleanup(s, interval, now).index, IndexKeysOf(schema, record), KeyOf(schema, record), ScoreOf(ttl, now),
                IndexKey(schema.prefix, field, value), key);
  }

  // --- moving ---

  /** What is left of the old and the new value in the names of the keys is the same. */
  predicate Movable(prior: Record, changes: Record, field: string)
    requires field in prior && field in changes
  {
    Residue(prior[field]) == Residue(changes[field])
  }

  /** The key found for a property is that of the same field, or none. */
  lemma {:induction false} KeyForProp(schema: Schema, prior: Record, changes: Record, field: string, n: nat)
    requires schema.Valid() && Fits(schema, prior) && Indexed(schema, field) && field in changes && n <= |schema.fields|
    ensures KeyWithProp(IndexKeysOf(schema, prior)[..n], IndexProp(KeyAt(schema, changes, field))) ==
            if field in schema.fields[..n] && Movable(prior, changes, field) then
              Some(KeyAt(schema, prior, field))
            else
              None
  {
    hide IndexKey, IndexProp, Residue;
    var keys, fields := IndexKeysOf(schema, prior), schema.fields;
    if n > 0 {
      var at := fields[n - 1];
      KeyForProp(schema, prior, changes, field, n - 1);
      PrefixGrows(keys, n - 1);
      PrefixGrows(fields, n - 1);
      PrefixOfAppend(keys[..n - 1], keys[n - 1]);
      var _ := FieldAt(schema, field);
      PropsMatch(schema.prefix, at, prior[at], field, changes[field]);
    }
  }

  /** What moving leaves at a field and a value, for the key that moves. */
  function MovedEntry(schema: Schema, index: Index, prior: Record, changes: Record, member: string, ttl: Ttl, now: int,
                      field: string, value: string): Option<Score>
    requires field in prior && field in changes
  {
    if value == changes[field] then
      if ttl.Unaltered? then
        var score := Entry(schema, index, field, prior[field], member);
        Some(if score.Some? then score.value else Never)
      else Some(ScoreOf(ttl, now))
    else if value == prior[field] then None
    else Entry(schema, index, field, value, member)
  }

  lemma MovedOne(schema: Schema, index: Index, prior: Record, changes: Record, at: string, member: string, ttl: Ttl,
                 now: int, field: string, value: string, key: string)
    requires schema.Valid() && Indexed(schema, at) && Indexed(schema, field) && at in prior && at in changes
    ensures Entry(schema, Moved(index, KeyAt(schema, prior, at), KeyAt(schema, changes, at), member, ttl, now),
                  field, value, key) ==
            if key == member && field == at then
              MovedEntry(schema, index, prior, changes, member, ttl, now, field, value)
            else Entry(schema, index, field, value, key)
  {
    hide IndexKey;
    KeysDiffer(schema, field, value, at, prior[at]);
    KeysDiffer(schema, field, value, at, changes[at]);
    KeysDiffer(schema, at, prior[at], at, changes[at]);
  }

  /** The index with the first n of the fields that are set moved. */
  function MovedFirst(schema: Schema, index: Index, prior: Record, changes: Record, n: nat, member: string, ttl: Ttl,
                      now: int)
    : Result<Index, StoreError>
    requires Fits(schema, prior) && n <= |SetFields(schema.fields, changes)|
  {
    MoveAll(index, IndexKeysOf(schema, prior), PartialKeys(schema, changes), n, member, ttl, now)
  }

  predicate MovableAt(schema: Schema, prior: Record, changes: Record, i: nat)
    requires i < |SetFields(schema.fields, changes)|
  {
    var at := SetFields(schema.fields, changes)[i];
    at in prior && at in changes && Movable(prior, changes, at)
  }

  /** One more field: it has to be movable, and then is moved. */
  lemma MovedNext(schema: Schema, index: Index, prior: Record, changes: Record, n: nat, member: string, ttl: Ttl,
                  now: int)
    requires schema.Valid() && Fits(schema, prior) && n < |SetFields(schema.fields, changes)|
    ensures var at := SetFields(schema.fields, changes)[n];
            var before := MovedFirst(schema, index, prior, changes, n, member, ttl, now);
            && at in prior && at in changes && Indexed(schema, at)
            && MovedFirst(schema, index, prior, changes, n + 1, member, ttl, now) ==
               (if before.Err? then before
                else if !MovableAt(schema, prior, changes, n) then Err(PropertyError)
                else Ok(Moved(before.value, KeyAt(schema, prior, at), KeyAt(schema, changes, at), member, ttl, now)))
  {
    hide IndexKey, KeyWithProp, IndexKeysOf, Movable, IndexProp, SetFields, Moved;
    var at := SetFields(schema.fields, changes)[n];
    assert at in SetFields(schema.fields, changes);
    WholeForProp(schema, prior, changes, at);
  }

  /** Moving fails if one of the fields is not movable. */
  lemma {:induction false} MoveAllOk(schema: Schema, index: Index, prior: Record, changes: Record, n: nat,
                                     member: string, ttl: Ttl, now: int)
    requires schema.Valid() && Fits(schema, prior) && n <= |SetFields(schema.fields, changes)|
    ensures var moved := MovedFirst(schema, index, prior, changes, n, member, ttl, now);
            && (moved.Ok? <==> forall i :: 0 <= i < n ==> MovableAt(schema, prior, changes, i))
            && (moved.Err? ==> moved.error == PropertyError)
  {
    hide MovedFirst, MovableAt, SetFields, Moved;
    if n > 0 {
      MoveAllOk(schema, index, prior, changes, n - 1, member, ttl, now);
      MovedNext(schema, index, prior, changes, n - 1, member, ttl, now);
    } else {
      NothingMoved(schema, index, prior, changes, member, ttl, now);
    }
  }

  lemma NothingMoved(schema: Schema, index: Index, prior: Record, changes: Record, member: string, ttl: Ttl, now: int)
    requires Fits(schema, prior)
    ensures MovedFirst(schema, index, prior, changes, 0, member, ttl, now) == Ok(index)
  {
  }

  predicate AmongFirst(fields: seq<string>, n: nat, field: string)
    requires n <= |fields|
  {
    exists i :: 0 <= i < n && fields[i] == field
  }

  /** What is there when the first n of the fields that are set have been moved. */
  lemma {:induction false} MoveAllEntry(schema: Schema, index: Index, prior: Record, changes: Record, n: nat,
                                        member: string, ttl: Ttl, now: int,
                                        field: string, value: string, key: string)
    requires schema.Valid() && Fits(schema, prior) && Indexed(schema, field)
    requires n <= |SetFields(schema.fields, changes)|
    requires MovedFirst(schema, index, prior, changes, n, member, ttl, now).Ok?
    ensures var moved := MovedFirst(schema, index, prior, changes, n, member, ttl, now).value;
            var done := AmongFirst(SetFields(schema.fields, changes), n, field);
            && (done ==> field in prior && field in changes)
            && Entry(schema, moved, field, value, key) ==
               (if key == member && done then MovedEntry(schema, index, prior, changes, member, ttl, now, field, value)
                else Entry(schema, index, field, value, key))
    decreases n, 0
  {
    hide MovedFirst, MovableAt, SetFields, Moved, Entry, MovedEntry, AmongFirst;
    var fields := SetFields(schema.fields, changes);
    if n > 0 {
      var at := fields[n - 1];
      MovedNext(schema, index, prior, changes, n - 1, member, ttl, now);
      MoveAllEntry(schema, index, prior, changes, n - 1, member, ttl, now, field, value, key);
      var before := MovedFirst(schema, index, prior, changes, n - 1, member, ttl, now).value;
      MovedOne(schema, before, prior, changes, at, member, ttl, now, field, value, key);
      AmongOneMore(fields, n - 1, field);
      if field == at {
        LastIsNew(schema, changes, n - 1);
        MovedLater(schema, index, prior, changes, n - 1, member, ttl, now, field, value);
      }
    } else {
      AmongNone(fields, field);
      NothingMoved(schema, index, prior, changes, member, ttl, now);
    }
  }

  lemma AmongOneMore(fields: seq<string>, n: nat, field: string)
    requires n < |fields|
    ensures AmongFirst(fields, n + 1, field) <==> AmongFirst(fields, n, field) || fields[n] == field
  {
  }

  lemma AmongNone(fields: seq<string>, field: string)
    ensures !AmongFirst(fields, 0, field)
  {
  }

  lemma LastIsNew(schema: Schema, changes: Record, n: nat)
    requires schema.Valid() && n < |SetFields(schema.fields, changes)|
    ensures !AmongFirst(SetFields(schema.fields, changes), n, SetFields(schema.fields, changes)[n])
  {
    SetFieldsDistinct(schema.fields, changes);
  }

  lemma WholeForProp(schema: Schema, prior: Record, changes: Record, field: string)
    requires schema.Valid() && Fits(schema, prior) && Indexed(schema, field) && field in changes
    ensures field in prior
    ensures KeyWithProp(IndexKeysOf(schema, prior), IndexProp(KeyAt(schema, changes, field))) ==
            if Movable(prior, changes, field) then Some(KeyAt(schema, prior, field)) else None
  {
    hide IndexKey, IndexProp, Residue;
    var _ := FieldAt(schema, field);
    KeyForProp(schema, prior, changes, field, |schema.fields|);
    PrefixWhole(IndexKeysOf(schema, prior));
    PrefixWhole(schema.fields);
  }

  /** Moving other fields first makes no difference. */
  lemma MovedLater(schema: Schema, index: Index, prior: Record, changes: Record, n: nat, member: string, ttl: Ttl,
                   now: int, field: string, value: string)
    requires schema.Valid() && Fits(schema, prior) && Indexed(schema, field) && field in prior && field in changes
    requires n <= |SetFields(schema.fields, changes)| && !AmongFirst(SetFields(schema.fields, changes), n, field)
    requires MovedFirst(schema, index, prior, changes, n, member, ttl, now).Ok?
    ensures var before := MovedFirst(schema, index, prior, changes, n, member, ttl, now).value;
            MovedEntry(schema, before, prior, changes, member, ttl, now, field, value) ==
            MovedEntry(schema, index, prior, changes, member, ttl, now, field, value)
    decreases n, 1
  {
    hide MovedFirst, SetFields, Entry, AmongFirst;
    MoveAllEntry(schema, index, prior, changes, n, member, ttl, now, field, value, member);
    MoveAllEntry(schema, index, prior, changes, n, member, ttl, now, field, prior[field], member);
  }

  lemma {:induction false} SetFieldsDistinct(fields: seq<string>, partial: Record)
    requires forall i, j :: 0 <= i < j < |fields| ==> fields[i] != fields[j]
    ensures forall i, j :: 0 <= i < j < |SetFields(fields, partial)| ==>
            SetFields(fields, partial)[i] != SetFields(fields, partial)[j]
  {
    if fields != [] {
      var front, last := fields[..|fields| - 1], fields[|fields| - 1];
      SetFieldsDistinct(front, partial);
      assert last !in front;
      var chosen := SetFields(front, partial);
      assert forall i :: 0 <= i < |chosen| ==> chosen[i] in chosen;
    }
  }

  /** Whether an update goes through: the property of every new entry has to be that
      of an old one, which depends on the separators in the two values. */
  predicate AllMovable(schema: Schema, prior: Record, changes: Record)
    requires Fits(schema, prior)
  {
    forall i :: 0 <= i < |schema.fields| && schema.fields[i] in changes ==> Movable(prior, changes, schema.fields[i])
  }

  /** What an update does: it fails, without any change to records and entries, or
      it moves the entries of the changed fields. */
  lemma UpdateEntry(schema: Schema, s: Store, key: string, changes: Record, ttl: Ttl, interval: int, now: int,
                    field: string, value: string, other: string)
    requires schema.Valid() && Indexed(schema, field) && forall k :: k in s.records ==> Fits(schema, s.records[k])
    requires Live(s, key, now)
    ensures var (s', error) := Update(schema, s, key, changes, ttl, interval, now);
            var prior, cleaned := s.records[key], Cleanup(s, interval, now).index;
            && (error.None? <==> AllMovable(schema, prior, changes))
            && (error.Some? ==> error.value == PropertyError && s'.index == s.index)
            && (error.Some? ==> s'.records == s.records && s'.expiry == s.expiry)
            && (error.None? ==>
                  Entry(schema, s'.index, field, value, other) ==
                  (if other == KeyOf(schema, prior) && field in changes then
                     MovedEntry(schema, cleaned, prior, changes, other, ttl, now, field, value)
                   else Entry(schema, cleaned, field, value, other)))
  {
    var prior, cleaned := s.records[key], Cleanup(s, interval, now).index;
    hide MoveAll, Cleanup, MovedEntry, IndexKeysOf, Entry, MovableAt, SetFields, KeyOf, AmongFirst;
    var n := |SetFields(schema.fields, changes)|;
    MoveAllOk(schema, cleaned, prior, changes, n, KeyOf(schema, prior), ttl, now);
    MovableFields(schema, prior, changes);
    if MovedFirst(schema, cleaned, prior, changes, n, KeyOf(schema, prior), ttl, now).Ok? {
      MoveAllEntry(schema, cleaned, prior, changes, n, KeyOf(schema, prior), ttl, now, field, value, other);
      AmongAllSet(schema, changes, field);
    }
  }

  lemma AmongAllSet(schema: Schema, changes: Record, field: string)
    requires Indexed(schema, field)
    ensures var chosen := SetFields(schema.fields, changes); AmongFirst(chosen, |chosen|, field) <==> field in changes
  {
    var chosen := SetFields(schema.fields, changes);
    if field in changes {
      assert field in chosen;
    }
    if AmongFirst(chosen, |chosen|, field) {
      assert field in chosen;
    }
  }

  lemma MovableFields(schema: Schema, prior: Record, changes: Record)
    requires Fits(schema, prior)
    ensures AllMovable(schema, prior, changes) <==>
            forall i :: 0 <= i < |SetFields(schema.fields, changes)| ==> MovableAt(schema, prior, changes, i)
  {
    hide Movable;
    var chosen := SetFields(schema.fields, changes);
    if AllMovable(schema, prior, changes) {
      forall i | 0 <= i < |chosen|
        ensures MovableAt(schema, prior, changes, i)
      {
        assert chosen[i] in chosen;
        var _ := FieldAt(schema, chosen[i]);
      }
    } else {
      var i :| 0 <= i < |schema.fields| && schema.fields[i] in changes && !Movable(prior, changes, schema.fields[i]);
      assert schema.fields[i] in chosen;
      var j :| 0 <= j < |chosen| && chosen[j] == schema.fields[i];
      assert !MovableAt(schema, prior, changes, j);
    }
  }

  // --- deletion ---

  /** The records are stored under their own keys. */
  ghost predicate Stored(schema: Schema, s: Store) {
    schema.Valid() && forall k :: k in s.records ==> Fits(schema, s.records[k]) && KeyOf(schema, s.records[k]) == k
  }

  lemma {:induction false} DeletedEntry(schema: Schema, s: Store, index: Index, keys: seq<string>, now: int,
                                        field: string, value: string, key: string)
    requires Stored(schema, s) && Indexed(schema, field)
    ensures Entry(schema, DeleteEntries(schema, s, index, keys, now), field, value, key) ==
            if key in keys && Live(s, key, now) && s.records[key][field] == value then None
            else Entry(schema, index, field, value, key)
  {
    if keys != [] {
      hide IndexKey, IndexKeysOf, RemAll, KeyOf, ZScore;
      var front, last := keys[..|keys| - 1], keys[|keys| - 1];
      assert keys == front + [last];
      DeletedEntry(schema, s, index, front, now, field, value, key);
      if Live(s, last, now) {
        InIndexKeys(schema, s.records[last], field, value);
        RemAllScore(DeleteEntries(schema, s, index, front, now), IndexKeysOf(schema, s.records[last]), last,
                    IndexKey(schema.prefix, field, value), key);
      }
    }
  }

  // --- queries ---

  /** A key is in an intersection if it is in all the sets, and its score counts if
      one of its scores does. */
  lemma {:induction false} InterScore(index: Index, sets: seq<string>, member: string, now: int)
    requires sets != []
    ensures ZInter(index, sets, member).Some? <==> forall i :: 0 <= i < |sets| ==> ZScore(index, sets[i], member).Some?
    ensures ZInter(index, sets, member).Some? ==>
              (ZInter(index, sets, member).value.Counts(now) <==>
               exists i :: 0 <= i < |sets| && ZScore(index, sets[i], member).value.Counts(now))
  {
    if |sets| > 1 {
      var front := sets[..|sets| - 1];
      InterScore(index, front, member, now);
      assert forall i :: 0 <= i < |front| ==> sets[i] == front[i];
      hide ZScore;
      if ZInter(index, sets, member).Some? && ZInter(index, front, member).value.Counts(now) {
        var i :| 0 <= i < |front| && ZScore(index, front[i], member).value.Counts(now);
        assert ZScore(index, sets[i], member).value.Counts(now);
      }
      if i :| 0 <= i < |sets| && ZScore(index, sets[i], member).Some? &&
              ZScore(index, sets[i], member).value.Counts(now) {
        if i < |front| {
          assert ZScore(index, front[i], member).Some?;
        }
      }
    } else {
      assert ZInter(index, sets, member) == ZScore(index, sets[0], member);
    }
  }

  predicate CountsAt(schema: Schema, index: Index, field: string, value: string, key: string, now: int) {
    var score := Entry(schema, index, field, value, key);
    score.Some? && score.value.Counts(now)
  }

  /** The same, for the sets of a filter. */
  lemma FilterMatches(schema: Schema, index: Index, query: Record, key: string, now: int)
    requires schema.Valid() && PartialKeys(schema, query) != []
    requires forall field :: field in query ==> Indexed(schema, field)
    ensures Matches(index, PartialKeys(schema, query), key, now) <==>
            && (forall field :: field in query ==> Entry(schema, index, field, query[field], key).Some?)
            && (exists field :: field in query && CountsAt(schema, index, field, query[field], key, now))
  {
    hide IndexKey, ZScore, SetFields;
    var chosen, sets := SetFields(schema.fields, query), PartialKeys(schema, query);
    InterScore(index, sets, key, now);
    forall i | 0 <= i < |sets|
      ensures ZScore(index, sets[i], key) == Entry(schema, index, chosen[i], query[chosen[i]], key) &&
              chosen[i] in query
    {
      assert chosen[i] in chosen;
    }
    forall field | field in query
      ensures exists i :: 0 <= i < |sets| && chosen[i] == field
    {
      assert field in chosen;
    }
    FilterAll(schema, index, query, chosen, sets, key);
    if exists field :: field in query && CountsAt(schema, index, field, query[field], key, now) {
      var field :| field in query && CountsAt(schema, index, field, query[field], key, now);
      var i :| 0 <= i < |sets| && chosen[i] == field;
      assert ZScore(index, sets[i], key).Some?;
    }
  }

  lemma FilterAll(schema: Schema, index: Index, query: Record, chosen: seq<string>, sets: seq<string>, key: string)
    requires |chosen| == |sets|
    requires forall i :: 0 <= i < |sets| ==>
               chosen[i] in query &&
               ZScore(index, sets[i], key) == Entry(schema, index, chosen[i], query[chosen[i]], key)
    requires forall field :: field in query ==> exists i :: 0 <= i < |sets| && chosen[i] == field
    ensures (forall i :: 0 <= i < |sets| ==> ZScore(index, sets[i], key).Some?) <==>
            (forall field :: field in query ==> Entry(schema, index, field, query[field], key).Some?)
  {
    hide ZScore, Entry;
  }
}
