/** `Collection`: records and index sets changed in place, proved against
    `Collections`. */
module RecordCollections {
  import opened Wrappers
  import opened Prefixes
  import opened IndexKeys
  import opened Collections
  import opened CollectionProperties
  import opened RecordKeys

  class Collection {
    const schema: Schema
    const interval: int
    const defaultTtl: Ttl
    var records: map<string, Record>
    var expiry: map<string, int>
    var index: Index
    var lastCleanup: int

    ghost predicate Valid()
      reads this
    {
      schema.Valid() && forall k :: k in records ==> Fits(schema, records[k])
    }

    function State(): Store
      reads this
    {
      Store(records, expiry, index, lastCleanup)
    }

    constructor (schema: Schema, interval: int, defaultTtl: Ttl, now: int)
      requires schema.Valid()
      ensures Valid() && State() == EmptyStore(now)
      ensures this.schema == schema && this.interval == interval && this.defaultTtl == defaultTtl
    {
      this.schema, this.interval, this.defaultTtl := schema, interval, defaultTtl;
      records, expiry, index, lastCleanup := map[], map[], map[], now;
    }

    function Effective(ttl: Ttl): Ttl {
      if ttl.Unaltered? then defaultTtl else ttl
    }

    // --- indexes ---

    method InsertIndexes(sets: seq<string>, key: string, ttl: Ttl, now: int)
      modifies `index
      ensures index == AddAll(old(index), sets, key, ScoreOf(ttl, now))
    {
      var score := Never;
      if ttl.For? {
        score := Until(now + ttl.seconds);
      }
      for i := 0 to |sets|
        invariant index == AddAll(old(index), sets[..i], key, score)
      {
        PrefixGrows(sets, i);
        PrefixOfAppend(sets[..i], sets[i]);
        index := ZAdd(index, sets[i], key, score);
      }
      PrefixWhole(sets);
    }

    method DeleteIndexes(sets: seq<string>, key: string)
      modifies `index
      ensures index == RemAll(old(index), sets, key)
    {
      for i := 0 to |sets|
        invariant index == RemAll(old(index), sets[..i], key)
      {
        PrefixGrows(sets, i);
        PrefixOfAppend(sets[..i], sets[i]);
        index := ZRem(index, sets[i], key);
      }
      PrefixWhole(sets);
    }

    /** The moves are only carried out together. */
    method UpdateIndexes(olds: seq<string>, news: seq<string>, key: string, ttl: Ttl, now: int)
      returns (error: Option<StoreError>)
      modifies `index
      ensures MoveAll(old(index), olds, news, |news|, key, ttl, now) ==
              match error case None => Ok(index) case Some(e) => Err(e)
      ensures error.Some? ==> index == old(index)
    {
      var moved := index;
      error := None;
      for i := 0 to |news|
        invariant MoveAll(old(index), olds, news, i, key, ttl, now) ==
                  match error case None => Ok(moved) case Some(e) => Err(e)
      {
        if error.None? {
          var prior := KeyWithProp(olds, IndexProp(news[i]));
          if prior.None? {
            error := Some(PropertyError);
          } else if ttl.Unaltered? {
            moved := ZMove(moved, prior.value, news[i], key, Never);
          } else {
            moved := ZAdd(ZRem(moved, prior.value, key), news[i], key, ScoreOf(ttl, now));
          }
        }
      }
      if error.None? {
        index := moved;
      }
    }

    method CleanupExpiredIndexes(now: int)
      modifies `index, `lastCleanup
      ensures State() == Cleanup(old(State()), interval, now)
    {
      if now - lastCleanup > interval {
        var sets := index.Keys;
        while |sets| != 0
          invariant sets <= index.Keys == old(index).Keys
          invariant forall k :: k in index ==>
                    index[k] == if k in sets then old(index)[k] else Cleaned(old(index)[k], now)
          decreases |sets|
        {
          var k :| k in sets;
          index := index[k := Cleaned(index[k], now)];
          sets := sets - {k};
        }
        lastCleanup := now;
        assert index == Cleanup(old(State()), interval, now).index;
      }
    }

    // --- records ---

    predicate Exists(key: string, now: int)
      reads this
    {
      Live(State(), key, now)
    }

    method GetOne(key: string, now: int) returns (record: Result<Record, StoreError>)
      ensures record == if Live(State(), key, now) then Ok(records[key]) else Err(ItemNotFound)
    {
      record := if Exists(key, now) then Ok(records[key]) else Err(ItemNotFound);
    }

    method WriteRecord(key: string, record: Record, ttl: Ttl, now: int)
      modifies `records, `expiry
      ensures State() == Write(old(State()), key, record, ttl, now)
    {
      records, expiry := records[key := record], expiry - {key};
      if ttl.For? {
        expiry := expiry[key := now + ttl.seconds];
      }
      assert expiry == if ttl.For? then old(expiry)[key := now + ttl.seconds] else old(expiry) - {key};
    }

    method Insert(record: Record, ttl: Ttl, now: int)
      requires Valid() && Fits(schema, record)
      modifies this
      ensures Valid() && State() == Collections.Insert(schema, old(State()), record, Effective(ttl), interval, now)
      ensures var key, t := Join(PrimaryValues(schema, record)), if ttl.Unaltered? then defaultTtl else ttl;
              && records == old(records)[key := record]
              && expiry == (if t.For? then old(expiry)[key := now + t.seconds] else old(expiry) - {key})
              && Live(State(), key, now)
      ensures |schema.primary| == 1 ==>
                var key := record[schema.primary[0]]; Live(State(), key, now) && records[key] == record
    {
      KeyIsJoined(schema, record);
      KeyIsItsOwnExactly(schema, record);
      hide Join, PrimaryValues, KeyOf, Collections.Insert, AddAll, IndexKeysOf;
      InsertedIsFound(schema, State(), record, Effective(ttl), interval, now);
      var key := KeyOf(schema, record);
      CleanupExpiredIndexes(now);
      WriteRecord(key, record, Effective(ttl), now);
      InsertIndexes(IndexKeysOf(schema, record), key, Effective(ttl), now);
    }

    method Update(key: string, changes: Record, ttl: Ttl, now: int) returns (record: Result<Record, StoreError>)
      requires Valid()
      modifies this
      ensures Valid()
      ensures var (s, error) := Collections.Update(schema, old(State()), key, changes, Effective(ttl), interval, now);
              State() == s && record == match error case None => Ok(records[key]) case Some(e) => Err(e)
      ensures record.Ok? ==> Live(old(State()), key, now) && records == old(records)[key := old(records)[key] + changes]
      ensures record.Err? ==> records == old(records) && expiry == old(expiry) && index == old(index)
    {
      var prior := GetOne(key, now);
      if prior.Err? {
        return Err(ItemNotFound);
      }
      var updated := prior.value + changes;
      var before := index;
      CleanupExpiredIndexes(now);
      var olds, news := IndexKeysOf(schema, prior.value), PartialKeys(schema, changes);
      var error := UpdateIndexes(olds, news, KeyOf(schema, prior.value), Effective(ttl), now);
      if error.Some? {
        index := before;
        return Err(error.value);
      }
      WriteRecord(key, updated, Effective(ttl), now);
      record := Ok(updated);
    }

    method DeleteMany(keys: seq<string>, now: int)
      requires Valid()
      modifies this
      ensures Valid() && State() == Collections.DeleteMany(schema, old(State()), keys, interval, now)
    {
      var s := State();
      records, expiry := records - Keys(keys), expiry - Keys(keys);
      CleanupExpiredIndexes(now);
      ghost var cleaned := index;
      for i := 0 to |keys|
        invariant records == s.records - Keys(keys) && expiry == s.expiry - Keys(keys)
        invariant lastCleanup == Cleanup(s, interval, now).lastCleanup
        invariant index == DeleteEntries(schema, s, cleaned, keys[..i], now)
      {
        PrefixGrows(keys, i);
        PrefixOfAppend(keys[..i], keys[i]);
        if Live(s, keys[i], now) {
          var item := s.records[keys[i]];
          DeleteIndexes(IndexKeysOf(schema, item), KeyOf(schema, item));
        }
      }
      PrefixWhole(keys);
    }
  }
}
