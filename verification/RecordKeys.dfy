/** Under which key a record is stored, and when that key is its own. */
module RecordKeys {
  import opened Wrappers
  import opened IndexKeys
  import opened Collections
  import opened CollectionIndexes
  import opened CollectionProperties

  /** The values joined by three at signs. */
  function Join(values: seq<string>): string {
    if values == [] then ""
    else if |values| == 1 then values[0]
    else values[0] + "@@@" + Join(values[1..])
  }

  function PrimaryValues(schema: Schema, record: Record): seq<string>
    requires schema.Valid() && Fits(schema, record)
  {
    seq(|schema.primary|, i requires 0 <= i < |schema.primary| => record[schema.primary[i]])
  }

  lemma {:induction false} JoinedFields(record: Record, fields: seq<string>, values: seq<string>)
    requires |values| == |fields|
    requires forall i :: 0 <= i < |fields| ==> fields[i] in record && record[fields[i]] == values[i]
    ensures JoinValues(record, fields) == Join(values)
  {
    if |fields| >= 2 {
      JoinedFields(record, fields[1..], values[1..]);
    }
  }

  /** The key is the primary values, joined. */
  lemma KeyIsJoined(schema: Schema, record: Record)
    requires schema.Valid() && Fits(schema, record)
    ensures KeyOf(schema, record) == Join(PrimaryValues(schema, record))
  {
    JoinedFields(record, schema.primary, PrimaryValues(schema, record));
  }

  // --- when a key can be taken apart ---

  /** Three at signs in a row, at a place. */
  predicate TripleAt(s: string, i: nat) {
    i + 3 <= |s| && s[i] == '@' && s[i + 1] == '@' && s[i + 2] == '@'
  }

  /** No value has three at signs in a row; and where two values are joined, the first
      does not end with one and the second does not start with one. */
  ghost predicate Tidy(values: seq<string>) {
    && (forall i, j :: 0 <= i < |values| && 0 <= j < |values[i]| ==> !TripleAt(values[i], j))
    && (forall i :: 0 <= i < |values| - 1 && values[i] != "" ==> values[i][|values[i]| - 1] != '@')
    && (forall i :: 1 <= i < |values| && values[i] != "" ==> values[i][0] != '@')
  }

  lemma TidyRest(values: seq<string>)
    requires Tidy(values) && |values| >= 2
    ensures Tidy(values[1..])
  {
    var rest := values[1..];
    assert forall i :: 0 <= i < |rest| ==> rest[i] == values[i + 1];
  }

  /** What is joined after the first value. */
  function Tail(values: seq<string>): string {
    if values == [] then "" else "@@@" + Join(values)
  }

  lemma JoinIsHeadAndTail(values: seq<string>)
    requires values != []
    ensures Join(values) == values[0] + Tail(values[1..])
  {
  }

  /** No separator of another splitting is before the first separator ... */
  lemma NoneBefore(u0: string, tail: string, whole: string, p: nat)
    requires whole == u0 + "@@@" + tail && p < |u0|
    requires !TripleAt(u0, p) && u0[|u0| - 1] != '@'
    ensures !TripleAt(whole, p)
  {
    assert forall k :: 0 <= k < |u0| ==> whole[k] == u0[k];
    assert whole[|u0| - 1] != '@';
  }

  /** ... nor after it, in the first value that follows. */
  lemma NoneAfter(u0: string, u1: string, tail: string, whole: string, e: nat)
    requires whole == u0 + "@@@" + (u1 + tail) && 1 <= e <= |u1|
    requires u1[0] != '@' && (e >= 3 ==> !TripleAt(u1, e - 3))
    ensures !TripleAt(whole, |u0| + e)
  {
    var start := u0 + "@@@";
    assert whole == start + (u1 + tail);
    assert forall k :: 0 <= k < |u1| ==> (u1 + tail)[k] == u1[k];
    assert whole[|start|] == u1[0];
    if e >= 3 {
      assert whole[|start| + (e - 3)] == u1[e - 3];
      if e - 3 + 2 < |u1| {
        assert whole[|start| + (e - 2)] == u1[e - 2] && whole[|start| + (e - 1)] == u1[e - 1];
      }
    }
  }

  lemma SameSeparator(u: seq<string>, p: nat)
    requires |u| >= 2 && Tidy(u) && TripleAt(Join(u), p) && (p > |u[0]| ==> p - |u[0]| <= |u[1]|)
    ensures p == |u[0]|
  {
    var whole, rest := Join(u), u[1..];
    assert whole == u[0] + "@@@" + Join(rest);
    JoinIsHeadAndTail(rest);
    hide TripleAt, Join;
    if p < |u[0]| {
      NoneBefore(u[0], Join(rest), whole, p);
    } else if p > |u[0]| {
      NoneAfter(u[0], u[1], Tail(rest[1..]), whole, p - |u[0]|);
    }
  }

  /** What follows a place after the first value. */
  lemma CutLater(u0: string, tail: string, whole: string, p: nat)
    requires whole == u0 + "@@@" + tail && |u0| <= p && p + 3 <= |whole|
    ensures whole[p + 3..] == tail[p - |u0|..]
  {
    var start := u0 + "@@@";
    assert whole == start + tail;
  }

  lemma CutHere(u0: string, tail: string, whole: string, d: nat)
    requires whole == u0 + "@@@" + tail && d <= |u0|
    ensures whole[d..|u0|] == u0[d..]
  {
  }

  /** A tidy list of values is told from every other of at least its length, whatever
      is cut off in front. */
  lemma {:induction false} TidyIsSplit(u: seq<string>, x: seq<string>, d: nat)
    requires u != [] && Tidy(u) && |x| >= |u| && d <= |Join(u)| && Join(x) == Join(u)[d..]
    ensures |x| == |u| && d <= |u[0]| && x[0] == u[0][d..] && x[1..] == u[1..]
    decreases |u|
  {
    hide Tidy, TripleAt;
    if |u| == 1 {
      if |x| >= 2 {
        NoTripleInOne(u, d + |x[0]|);
        TripleInCut(Join(u), d, x);
      }
      assert x[1..] == [] && u[1..] == [];
    } else {
      hide Join;
      SplitOnce(u, x, d);
      TidyRest(u);
      var p := d + |x[0]|;
      if p >= |u[0]| {
        TidyIsSplit(u[1..], x[1..], p - |u[0]|);
      }
      SameSeparator(u, p);
      SameAll(x[1..], u[1..]);
      FirstIsCut(u, x, d);
    }
  }

  /** The first separator of the other splitting, in the whole. */
  lemma SplitOnce(u: seq<string>, x: seq<string>, d: nat)
    requires |u| >= 2 && |x| >= 2 && d <= |Join(u)| && Join(x) == Join(u)[d..]
    ensures var p := d + |x[0]|;
            && TripleAt(Join(u), p)
            && (p >= |u[0]| ==>
                  p - |u[0]| <= |Join(u[1..])| && Join(x[1..]) == Join(u[1..])[p - |u[0]|..])
  {
    var whole, p := Join(u), d + |x[0]|;
    assert whole == u[0] + "@@@" + Join(u[1..]);
    hide Join, TripleAt;
    TripleInCut(whole, d, x);
    if p >= |u[0]| {
      CutLater(u[0], Join(u[1..]), whole, p);
    }
  }

  lemma FirstIsCut(u: seq<string>, x: seq<string>, d: nat)
    requires |u| >= 2 && |x| >= 2 && d <= |Join(u)| && Join(x) == Join(u)[d..] && d + |x[0]| == |u[0]|
    ensures x[0] == u[0][d..]
  {
    var whole := Join(u);
    assert whole == u[0] + "@@@" + Join(u[1..]);
    TripleInCut(whole, d, x);
    hide Join, TripleAt;
    CutHere(u[0], Join(u[1..]), whole, d);
  }

  lemma SameAll(a: seq<string>, b: seq<string>)
    requires |a| == |b| >= 1 && a[0] == b[0][0..] && a[1..] == b[1..]
    ensures a == b
  {
    assert a == [a[0]] + a[1..] && b == [b[0]] + b[1..];
  }

  lemma NoTripleInOne(u: seq<string>, p: nat)
    requires |u| == 1 && Tidy(u)
    ensures !TripleAt(Join(u), p)
  {
    if p < |u[0]| {
      assert !TripleAt(u[0], p);
    }
  }

  /** Where the first separator is. */
  lemma TripleInCut(whole: string, d: nat, x: seq<string>)
    requires |x| >= 2 && d <= |whole| && Join(x) == whole[d..]
    ensures TripleAt(whole, d + |x[0]|) && d + |x[0]| + 3 <= |whole|
    ensures x[0] == whole[d..d + |x[0]|] && Join(x[1..]) == whole[d + |x[0]| + 3..]
  {
    var n, p := |x[0]|, d + |x[0]|;
    assert Join(x) == x[0] + "@@@" + Join(x[1..]);
    assert Join(x)[n] == '@' && Join(x)[n + 1] == '@' && Join(x)[n + 2] == '@';
    assert whole[p] == Join(x)[n] && whole[p + 1] == Join(x)[n + 1] && whole[p + 2] == Join(x)[n + 2];
    assert Join(x)[n + 3..] == Join(x[1..]);
  }

  // --- when it cannot ---

  /** Two neighbours that join to the same string can be put in. */
  lemma {:induction false} SwappedIn(values: seq<string>, i: nat, a: string, b: string)
    requires i + 1 < |values| && a + "@@@" + b == values[i] + "@@@" + values[i + 1]
    ensures Join(values[i := a][i + 1 := b]) == Join(values)
  {
    var other, rest := values[i := a][i + 1 := b], values[1..];
    if i == 0 {
      JoinIsHeadAndTail(rest);
      JoinIsHeadAndTail(other[1..]);
      assert other[1..] == [b] + values[2..] && rest == [values[1]] + values[2..];
      var tail := Tail(values[2..]);
      assert Join(values) == (values[0] + "@@@" + values[1]) + tail;
      assert Join(other) == (a + "@@@" + b) + tail;
    } else {
      SwappedIn(rest, i - 1, a, b);
      assert other[1..] == rest[i - 1 := a][i := b];
    }
  }

  /** A value that is not tidy can be split otherwise. */
  lemma OtherSplit(values: seq<string>) returns (other: seq<string>)
    requires |values| >= 2 && !Tidy(values)
    ensures |other| == |values| && other != values && Join(other) == Join(values)
  {
    if i, j :| 0 <= i < |values| && 0 <= j < |values[i]| && TripleAt(values[i], j) {
      var v := values[i];
      var before, after := v[..j], v[j + 3..];
      assert v == before + "@@@" + after;
      if i + 1 < |values| {
        assert before + "@@@" + (after + "@@@" + values[i + 1]) == v + "@@@" + values[i + 1];
        SwappedIn(values, i, before, after + "@@@" + values[i + 1]);
        other := values[i := before][i + 1 := after + "@@@" + values[i + 1]];
        assert |other[i]| < |values[i]|;
      } else {
        var k := i - 1;
        assert (values[k] + "@@@" + before) + "@@@" + after == values[k] + "@@@" + v;
        SwappedIn(values, k, values[k] + "@@@" + before, after);
        other := values[k := values[k] + "@@@" + before][k + 1 := after];
        assert |other[i]| < |values[i]|;
      }
    } else if i :| 0 <= i < |values| - 1 && values[i] != "" && values[i][|values[i]| - 1] == '@' {
      var v := values[i];
      var before := v[..|v| - 1];
      assert v == before + "@";
      assert before + "@@@" + ("@" + values[i + 1]) == v + "@@@" + values[i + 1];
      SwappedIn(values, i, before, "@" + values[i + 1]);
      other := values[i := before][i + 1 := "@" + values[i + 1]];
      assert |other[i]| < |values[i]|;
    } else {
      var i :| 1 <= i < |values| && values[i] != "" && values[i][0] == '@';
      var v, k := values[i], i - 1;
      var after := v[1..];
      assert v == "@" + after;
      assert (values[k] + "@") + "@@@" + after == values[k] + "@@@" + v;
      SwappedIn(values, k, values[k] + "@", after);
      other := values[k := values[k] + "@"][k + 1 := after];
      assert |other[i]| < |values[i]|;
    }
  }

  // --- records ---

  /** The record with other values in the fields. */
  function With(record: Record, fields: seq<string>, values: seq<string>): Record
    requires |fields| == |values|
  {
    if fields == [] then record
    else With(record, fields[..|fields| - 1], values[..|values| - 1])[fields[|fields| - 1] := values[|values| - 1]]
  }

  lemma {:induction false} WithHas(record: Record, fields: seq<string>, values: seq<string>)
    requires |fields| == |values| && forall i, j :: 0 <= i < j < |fields| ==> fields[i] != fields[j]
    ensures forall i :: 0 <= i < |fields| ==>
              fields[i] in With(record, fields, values) && With(record, fields, values)[fields[i]] == values[i]
    ensures forall field :: field in record ==> field in With(record, fields, values)
  {
    if fields != [] {
      WithHas(record, fields[..|fields| - 1], values[..|values| - 1]);
    }
  }

  /** With one primary field the key is its value.  With several, a record shares its
      key with no record of other primary values exactly if its own are tidy. */
  lemma KeyIsItsOwnExactly(schema: Schema, record: Record)
    requires schema.Valid() && Fits(schema, record)
    ensures |schema.primary| == 1 ==> KeyOf(schema, record) == record[schema.primary[0]]
    ensures (forall other :: Fits(schema, other) && KeyOf(schema, other) == KeyOf(schema, record) ==>
               PrimaryValues(schema, other) == PrimaryValues(schema, record)) <==>
            |schema.primary| < 2 || Tidy(PrimaryValues(schema, record))
  {
    var values := PrimaryValues(schema, record);
    KeyIsJoined(schema, record);
    if |schema.primary| < 2 || Tidy(values) {
      forall other | Fits(schema, other) && KeyOf(schema, other) == KeyOf(schema, record)
        ensures PrimaryValues(schema, other) == values
      {
        KeyIsJoined(schema, other);
        SameValues(values, PrimaryValues(schema, other));
      }
    } else {
      var split := OtherSplit(values);
      var other := With(record, schema.primary, split);
      WithHas(record, schema.primary, split);
      KeyIsJoined(schema, other);
      assert PrimaryValues(schema, other) == split;
    }
  }

  lemma SameValues(values: seq<string>, other: seq<string>)
    requires |other| == |values| && Join(other) == Join(values) && (|values| < 2 || Tidy(values))
    ensures other == values
  {
    if |values| >= 2 {
      assert Join(values)[0..] == Join(values);
      TidyIsSplit(values, other, 0);
      SameAll(other, values);
    }
  }

  /** After an insertion the record is what its key gives, up to its time; and under
      every other key there is what was there before. */
  lemma InsertedIsFound(schema: Schema, s: Store, record: Record, ttl: Ttl, interval: int, now: int)
    requires schema.Valid() && Fits(schema, record)
    ensures var s', key := Insert(schema, s, record, ttl, interval, now), Join(PrimaryValues(schema, record));
            && Live(s', key, now) && s'.records[key] == record
            && (ttl.For? ==> key in s'.expiry && s'.expiry[key] == now + ttl.seconds)
            && (!ttl.For? ==> key !in s'.expiry)
            && (forall other :: other != key ==>
                  && (other in s'.records <==> other in s.records)
                  && (other in s.records ==> s'.records[other] == s.records[other])
                  && (other in s'.expiry <==> other in s.expiry)
                  && (other in s.expiry ==> s'.expiry[other] == s.expiry[other]))
  {
    hide KeyOf, AddAll, IndexKeysOf;
    KeyIsJoined(schema, record);
    CleanupKeepsRecords(s, interval, now);
  }

  /** Records with other primary values stay as they are, if the values are tidy. */
  lemma InsertKeepsOthers(schema: Schema, s: Store, record: Record, other: Record, ttl: Ttl, interval: int, now: int)
    requires schema.Valid() && Fits(schema, record) && Fits(schema, other)
    requires PrimaryValues(schema, other) != PrimaryValues(schema, record)
    requires |schema.primary| < 2 || Tidy(PrimaryValues(schema, record))
    requires Live(s, KeyOf(schema, other), now) && s.records[KeyOf(schema, other)] == other
    ensures var s' := Insert(schema, s, record, ttl, interval, now);
            Live(s', KeyOf(schema, other), now) && s'.records[KeyOf(schema, other)] == other
  {
    hide KeyOf, Insert, Join, Tidy;
    KeyIsItsOwnExactly(schema, record);
    KeyIsJoined(schema, record);
    InsertedIsFound(schema, s, record, ttl, interval, now);
  }

  /** An update fails without a live record, and then changes nothing; or on the names of
      its index sets, and then only puts off the next cleanup.  Else the record has the
      new values, for the time that was asked for. */
  lemma UpdateMeans(schema: Schema, s: Store, key: string, changes: Record, ttl: Ttl, interval: int, now: int)
    requires schema.Valid() && forall k :: k in s.records ==> Fits(schema, s.records[k])
    ensures var (s', error) := Update(schema, s, key, changes, ttl, interval, now);
            && (error == Some(ItemNotFound) <==> !Live(s, key, now))
            && (error.Some? && error.value != ItemNotFound ==> error.value == PropertyError)
            && (error.Some? ==> s'.records == s.records && s'.expiry == s.expiry && s'.index == s.index)
            && (error.None? ==>
                  && s'.records == s.records[key := s.records[key] + changes]
                  && s'.expiry == if ttl.For? then s.expiry[key := now + ttl.seconds] else s.expiry - {key})
            && s'.lastCleanup == if Live(s, key, now) && now - s.lastCleanup > interval then now else s.lastCleanup
  {
    hide KeyOf, IndexKeysOf, PartialKeys, MoveAll;
    CleanupKeepsRecords(s, interval, now);
    if Live(s, key, now) {
      var written := Write(Cleanup(s, interval, now), key, s.records[key] + changes, ttl, now);
      var olds, news := IndexKeysOf(schema, s.records[key]), PartialKeys(schema, changes);
      MovingFails(written.index, olds, news, |news|, KeyOf(schema, s.records[key]), ttl, now);
    }
  }

  lemma {:induction false} MovingFails(index: Index, olds: seq<string>, news: seq<string>, n: nat, member: string,
                                       ttl: Ttl, now: int)
    requires n <= |news|
    ensures var moved := MoveAll(index, olds, news, n, member, ttl, now); moved.Err? ==> moved.error == PropertyError
  {
    if n > 0 {
      MovingFails(index, olds, news, n - 1, member, ttl, now);
    }
  }

  /** After a deletion the keys have no records, and all others what they had. */
  lemma DeletedAreGone(schema: Schema, s: Store, keys: seq<string>, interval: int, now: int, key: string)
    requires schema.Valid() && forall k :: k in s.records ==> Fits(schema, s.records[k])
    ensures var s' := DeleteMany(schema, s, keys, interval, now);
            && (key in s'.records <==> key in s.records && key !in keys)
            && (key in s'.records ==> s'.records[key] == s.records[key])
            && (key in s'.expiry <==> key in s.expiry && key !in keys)
            && (key in s'.expiry ==> s'.expiry[key] == s.expiry[key])
  {
    hide DeleteEntries;
  }

  /** What a lookup answers when it finds nothing to look up. */
  lemma LookupFailsExactly(schema: Schema, s: Store, query: Record, now: int)
    ensures var found := FindByIndex(schema, s, query, now);
            && (found == Err(NotIndexed) <==> exists field :: field in query && field !in schema.fields)
            && (found == Err(NoFilter) <==> query == map[])
  {
    var chosen := SetFields(schema.fields, query);
    if query == map[] {
      NothingSet(schema.fields);
    } else if forall field :: field in query ==> field in schema.fields {
      var field :| field in query;
      assert field in chosen;
    }
  }

  lemma {:induction false} NothingSet(fields: seq<string>)
    ensures SetFields(fields, map[]) == []
  {
    if fields != [] {
      NothingSet(fields[..|fields| - 1]);
    }
  }
}
