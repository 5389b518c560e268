/** A collection on values: a hash map of records with expiries, and one sorted set
    per value of every indexed field, whose members are keys and whose scores are
    the times up to which the entries count. */
module Collections {
  import opened Wrappers
  import opened IndexKeys

  /** The primary fields come first among the indexed ones. */
  datatype Schema = Schema(prefix: string, primary: seq<string>, fields: seq<string>) {
    predicate Valid() {
      && (forall i :: 0 <= i < |fields| ==> IsField(fields[i]))
      && (forall i, j :: 0 <= i < j < |fields| ==> fields[i] != fields[j])
      && primary <= fields
      && fields != []
    }
  }

  type Record = map<string, string>

  /** All indexed fields are set. */
  predicate Fits(schema: Schema, record: Record) {
    forall i :: 0 <= i < |schema.fields| ==> schema.fields[i] in record
  }

  datatype Score = Never | Until(at: int) {
    predicate Counts(now: int) {
      Never? || at >= now
    }
  }

  function Later(a: Score, b: Score): Score {
    if a.Never? || b.Never? then Never else Until(if a.at < b.at then b.at else a.at)
  }

  /** What a caller may ask for: to leave the expiry, to have none, or some seconds. */
  datatype Ttl = Unaltered | Forever | For(seconds: nat)

  function ScoreOf(ttl: Ttl, now: int): Score {
    if ttl.For? then Until(now + ttl.seconds) else Never
  }

  type Entries = map<string, Score>

  type Index = map<string, Entries>

  datatype Store = Store(records: map<string, Record>, expiry: map<string, int>, index: Index, lastCleanup: int)

  function EmptyStore(now: int): Store {
    Store(map[], map[], map[], now)
  }

  datatype StoreError =
    | ItemNotFound
    | NotIndexed       // a filter names a field that is not indexed
    | NoFilter         // an intersection of no sets
    | InvalidItem      // a matched key has no record
    | PropertyError    // no old entry for the property of a new one

  const KEY_SEPARATOR := "@@@"

  function JoinValues(record: Record, fields: seq<string>): string
    requires forall i :: 0 <= i < |fields| ==> fields[i] in record
  {
    if fields == [] then ""
    else if |fields| == 1 then record[fields[0]]
    else record[fields[0]] + KEY_SEPARATOR + JoinValues(record, fields[1..])
  }

  function KeyOf(schema: Schema, record: Record): string
    requires schema.Valid() && Fits(schema, record)
  {
    JoinValues(record, schema.primary)
  }

  /** A record whose time has come is as good as deleted. */
  predicate Live(s: Store, key: string, now: int) {
    key in s.records && (key in s.expiry ==> s.expiry[key] >= now)
  }

  // --- sorted sets ---

  function Zset(index: Index, zset: string): Entries {
    if zset in index then index[zset] else map[]
  }

  function ZScore(index: Index, zset: string, member: string): Option<Score> {
    if member in Zset(index, zset) then Some(Zset(index, zset)[member]) else None
  }

  function ZAdd(index: Index, zset: string, member: string, score: Score): Index {
    index[zset := Zset(index, zset)[member := score]]
  }

  function ZRem(index: Index, zset: string, member: string): Index {
    index[zset := Zset(index, zset) - {member}]
  }

  /** Moves the member with its score; the score is the default if it is new. */
  function ZMove(index: Index, prior: string, target: string, member: string, fallback: Score): Index {
    var score := ZScore(index, prior, member);
    ZAdd(if score.Some? then ZRem(index, prior, member) else index, target, member,
         if score.Some? then score.value else fallback)
  }

  // --- index keys of a record ---

  function KeyAt(schema: Schema, record: Record, field: string): string
    requires field in record
  {
    IndexKey(schema.prefix, field, record[field])
  }

  function IndexKeysOf(schema: Schema, record: Record): seq<string>
    requires Fits(schema, record)
  {
    seq(|schema.fields|, i requires 0 <= i < |schema.fields| => KeyAt(schema, record, schema.fields[i]))
  }

  /** The fields of the schema that are set, in its order. */
  function SetFields(fields: seq<string>, partial: Record): (chosen: seq<string>)
    ensures forall field :: field in chosen <==> field in fields && field in partial
  {
    if fields == [] then []
    else
      var front, last := SetFields(fields[..|fields| - 1], partial), fields[|fields| - 1];
      assert fields == fields[..|fields| - 1] + [last];
      if last in partial then front + [last] else front
  }

  function PartialKeys(schema: Schema, partial: Record): seq<string> {
    var chosen := SetFields(schema.fields, partial);
    seq(|chosen|, i requires 0 <= i < |chosen| => KeyAt(schema, partial, chosen[i]))
  }

  // --- insertion ---

  function AddAll(index: Index, sets: seq<string>, member: string, score: Score): Index {
    if sets == [] then index
    else ZAdd(AddAll(index, sets[..|sets| - 1], member, score), sets[|sets| - 1], member, score)
  }

  function RemAll(index: Index, sets: seq<string>, member: string): Index {
    if sets == [] then index else ZRem(RemAll(index, sets[..|sets| - 1], member), sets[|sets| - 1], member)
  }

  /** Entries that have ended by now leave all the sets. */
  function Cleaned(entries: Entries, now: int): Entries {
    map member | member in entries && !(entries[member].Until? && 0 <= entries[member].at <= now) :: entries[member]
  }

  function Cleanup(s: Store, interval: int, now: int): Store {
    if now - s.lastCleanup > interval then
      s.(index := map zset | zset in s.index :: Cleaned(s.index[zset], now), lastCleanup := now)
    else s
  }

  /** Writing a field of a hash forgets its expiry, which is then set anew. */
  function Write(s: Store, key: string, record: Record, ttl: Ttl, now: int): Store {
    s.(records := s.records[key := record],
       expiry := if ttl.For? then s.expiry[key := now + ttl.seconds] else s.expiry - {key})
  }

  function Insert(schema: Schema, s: Store, record: Record, ttl: Ttl, interval: int, now: int): Store
    requires schema.Valid() && Fits(schema, record)
  {
    var key := KeyOf(schema, record);
    var written := Write(Cleanup(s, interval, now), key, record, ttl, now);
    written.(index := AddAll(written.index, IndexKeysOf(schema, record), key, ScoreOf(ttl, now)))
  }

  // --- update ---

  /** The old key with the same property: of two, the later one. */
  function KeyWithProp(keys: seq<string>, prop: string): Option<string> {
    if keys == [] then None
    else if IndexProp(keys[|keys| - 1]) == prop then Some(keys[|keys| - 1])
    else KeyWithProp(keys[..|keys| - 1], prop)
  }

  function Moved(index: Index, prior: string, target: string, member: string, ttl: Ttl, now: int): Index {
    if ttl.Unaltered? then ZMove(index, prior, target, member, Never)
    else ZAdd(ZRem(index, prior, member), target, member, ScoreOf(ttl, now))
  }

  /** The first n of the new keys. */
  function MoveAll(index: Index, olds: seq<string>, news: seq<string>, n: nat, member: string, ttl: Ttl, now: int)
    : Result<Index, StoreError>
    requires n <= |news|
  {
    if n == 0 then Ok(index)
    else
      var front, last := MoveAll(index, olds, news, n - 1, member, ttl, now), news[n - 1];
      var prior := KeyWithProp(olds, IndexProp(last));
      if front.Err? then front
      else if prior.None? then Err(PropertyError)
      else Ok(Moved(front.value, prior.value, last, member, ttl, now))
  }

  /** If an entry cannot be moved nothing is changed, except that the next cleanup is
      put off. */
  function Update(schema: Schema, s: Store, key: string, changes: Record, ttl: Ttl, interval: int, now: int)
    : (Store, Option<StoreError>)
    requires schema.Valid() && forall k :: k in s.records ==> Fits(schema, s.records[k])
  {
    if !Live(s, key, now) then (s, Some(ItemNotFound))
    else
      var prior := s.records[key];
      var written := Write(Cleanup(s, interval, now), key, prior + changes, ttl, now);
      var news := PartialKeys(schema, changes);
      var index := MoveAll(written.index, IndexKeysOf(schema, prior), news, |news|, KeyOf(schema, prior), ttl, now);
      if index.Err? then (s.(lastCleanup := Cleanup(s, interval, now).lastCleanup), Some(index.error))
      else (written.(index := index.value), None)
  }

  // --- deletion ---

  /** Only records that are live have their entries removed. */
  function DeleteEntries(schema: Schema, s: Store, index: Index, keys: seq<string>, now: int): Index
    requires schema.Valid() && forall k :: k in s.records ==> Fits(schema, s.records[k])
  {
    if keys == [] then index
    else
      var front, last := DeleteEntries(schema, s, index, keys[..|keys| - 1], now), keys[|keys| - 1];
      if Live(s, last, now) then RemAll(front, IndexKeysOf(schema, s.records[last]), KeyOf(schema, s.records[last]))
      else front
  }

  function Keys(keys: seq<string>): set<string> {
    set key | key in keys
  }

  function DeleteMany(schema: Schema, s: Store, keys: seq<string>, interval: int, now: int): Store
    requires schema.Valid() && forall k :: k in s.records ==> Fits(schema, s.records[k])
  {
    var cleaned := Cleanup(s, interval, now);
    cleaned.(records := s.records - Keys(keys), expiry := s.expiry - Keys(keys),
             index := DeleteEntries(schema, s, cleaned.index, keys, now))
  }

  // --- queries ---

  /** `ZINTER … AGGREGATE MAX`: the score of a member of all the sets. */
  function ZInter(index: Index, sets: seq<string>, member: string): Option<Score>
    requires sets != []
  {
    var last := ZScore(index, sets[|sets| - 1], member);
    if |sets| == 1 then last
    else
      var front := ZInter(index, sets[..|sets| - 1], member);
      if front.Some? && last.Some? then Some(Later(front.value, last.value)) else None
  }

  predicate Matches(index: Index, sets: seq<string>, member: string, now: int)
    requires sets != []
  {
    var score := ZInter(index, sets, member);
    score.Some? && score.value.Counts(now)
  }

  /** The keys found, if there is a live record for every one. */
  function FindByIndex(schema: Schema, s: Store, query: Record, now: int): Result<set<string>, StoreError> {
    var sets := PartialKeys(schema, query);
    if exists field :: field in query && field !in schema.fields then Err(NotIndexed)
    else if sets == [] then Err(NoFilter)
    else
      var found := set member | member in Zset(s.index, sets[0]) && Matches(s.index, sets, member, now);
      if forall key :: key in found ==> Live(s, key, now) then Ok(found) else Err(InvalidItem)
  }

  predicate Satisfies(record: Record, query: Record) {
    forall field :: field in query ==> field in record && record[field] == query[field]
  }

  /** What a scan of all the records finds. */
  function Scan(s: Store, query: Record, now: int): set<string> {
    set key | key in s.records && Live(s, key, now) && Satisfies(s.records[key], query)
  }
}
