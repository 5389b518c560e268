/** Run-length coding: runs of equal values, with counts above one. */
module RunLengths {
  import opened Wrappers

  /** A count of one is left out. */
  datatype Run<T> = Run(value: T, count: Option<int>)

  /** Runs of equal values with their lengths. */
  function Groups<T(==)>(s: seq<T>): seq<(T, nat)> {
    if s == [] then []
    else
      var rest := Groups(s[1..]);
      if rest != [] && rest[0].0 == s[0] then [(s[0], rest[0].1 + 1)] + rest[1..] else [(s[0], 1)] + rest
  }

  function RunOf<T>(group: (T, nat)): Run<T> {
    Run(group.0, if group.1 > 1 then Some(group.1) else None)
  }

  function Runs<T>(groups: seq<(T, nat)>): seq<Run<T>> {
    seq(|groups|, i requires 0 <= i < |groups| => RunOf(groups[i]))
  }

  function Encode<T(==)>(s: seq<T>): seq<Run<T>> {
    Runs(Groups(s))
  }

  function Repeat<T>(value: T, n: int): seq<T> {
    if n <= 0 then [] else [value] + Repeat(value, n - 1)
  }

  function Expand<T>(run: Run<T>): seq<T> {
    Repeat(run.value, if run.count.Some? then run.count.value else 1)
  }

  function Decode<T>(runs: seq<Run<T>>): seq<T> {
    if runs == [] then [] else Expand(runs[0]) + Decode(runs[1..])
  }

  /** Neighbours differ, and a count is given exactly if it is above one. */
  ghost predicate Canonical<T(!new)>(runs: seq<Run<T>>) {
    && (forall i :: 0 <= i < |runs| - 1 ==> runs[i].value != runs[i + 1].value)
    && (forall i :: 0 <= i < |runs| ==> runs[i].count.Some? ==> runs[i].count.value > 1)
  }

  /** One more value in front of an encoding. */
  function Push<T(==)>(x: T, runs: seq<Run<T>>): seq<Run<T>> {
    if runs != [] && runs[0].value == x
    then [Run(x, Some(if runs[0].count.Some? then runs[0].count.value + 1 else 2))] + runs[1..]
    else [Run(x, None)] + runs
  }

  lemma RunsCons<T(!new)>(group: (T, nat), rest: seq<(T, nat)>)
    ensures Runs([group] + rest) == [RunOf(group)] + Runs(rest)
  {
  }

  lemma GroupsCons<T(!new)>(s: seq<T>)
    requires s != []
    ensures var rest := Groups(s[1..]);
            Groups(s) == if rest != [] && rest[0].0 == s[0] then [(s[0], rest[0].1 + 1)] + rest[1..]
                         else [(s[0], 1)] + rest
  {
  }

  lemma EncodeCons<T(!new)>(s: seq<T>)
    requires s != []
    ensures Encode(s) == Push(s[0], Encode(s[1..]))
  {
    hide Runs, Groups;
    GroupsCons(s);
    GroupsArePositive(s[1..]);
    var rest := Groups(s[1..]);
    if rest != [] {
      assert rest == [rest[0]] + rest[1..];
      RunsCons(rest[0], rest[1..]);
      RunsCons((s[0], rest[0].1 + 1), rest[1..]);
    }
    RunsCons((s[0], 1), rest);
    NoRuns<T>();
  }

  lemma NoRuns<T(!new)>()
    ensures Runs<T>([]) == []
  {
  }

  lemma {:induction false} GroupsArePositive<T(!new)>(s: seq<T>)
    ensures forall i :: 0 <= i < |Groups(s)| ==> Groups(s)[i].1 >= 1
  {
    if s != [] {
      GroupsArePositive(s[1..]);
    }
  }

  lemma DecodeCons<T>(run: Run<T>, rest: seq<Run<T>>)
    ensures Decode([run] + rest) == Expand(run) + Decode(rest)
  {
    assert ([run] + rest)[1..] == rest;
  }

  lemma PushDecodes<T(!new)>(x: T, runs: seq<Run<T>>)
    requires Canonical(runs)
    ensures Decode(Push(x, runs)) == [x] + Decode(runs)
  {
    if runs != [] && runs[0].value == x {
      var n := if runs[0].count.Some? then runs[0].count.value else 1;
      assert runs == [runs[0]] + runs[1..];
      DecodeCons(runs[0], runs[1..]);
      DecodeCons(Run(x, Some(n + 1)), runs[1..]);
      assert Repeat(x, n + 1) == [x] + Repeat(x, n);
      assert [x] + (Repeat(x, n) + Decode(runs[1..])) == [x] + Repeat(x, n) + Decode(runs[1..]);
    } else {
      DecodeCons(Run(x, None), runs);
      assert Expand(Run(x, None)) == [x];
    }
  }

  lemma PushIsCanonical<T(!new)>(x: T, runs: seq<Run<T>>)
    requires Canonical(runs)
    ensures Canonical(Push(x, runs))
  {
  }

  /** Decoding what was encoded gives it back; the encoding is canonical. */
  lemma {:induction false} DecodeEncode<T(!new)>(s: seq<T>)
    ensures Decode(Encode(s)) == s && Canonical(Encode(s))
  {
    if s != [] {
      hide Encode, Decode, Push, Canonical;
      DecodeEncode(s[1..]);
      EncodeCons(s);
      PushDecodes(s[0], Encode(s[1..]));
      PushIsCanonical(s[0], Encode(s[1..]));
      assert s == [s[0]] + s[1..];
    }
  }

  /** Runs of the same value in front of a sequence that starts otherwise. */
  lemma {:induction false} EncodeRepeat<T(!new)>(value: T, n: int, s: seq<T>)
    requires n >= 1 && (s == [] || s[0] != value)
    ensures Encode(Repeat(value, n) + s) == [Run(value, if n > 1 then Some(n) else None)] + Encode(s)
  {
    var all := Repeat(value, n) + s;
    assert all[1..] == Repeat(value, n - 1) + s;
    EncodeCons(all);
    if n > 1 {
      EncodeRepeat(value, n - 1, s);
    } else {
      assert Repeat(value, n - 1) + s == s;
      if s != [] {
        EncodeCons(s);
      }
    }
  }

  /** Encoding what was decoded gives back every canonical encoding. */
  lemma {:induction false} EncodeDecode<T(!new)>(runs: seq<Run<T>>)
    requires Canonical(runs)
    ensures Encode(Decode(runs)) == runs
  {
    if runs != [] {
      var run, rest := runs[0], runs[1..];
      assert Canonical(rest) by {
        assert forall i :: 0 <= i < |rest| ==> rest[i] == runs[i + 1];
      }
      EncodeDecode(rest);
      if rest != [] {
        assert rest[0] == runs[1] && Expand(rest[0]) != [] && Expand(rest[0])[0] == rest[0].value;
        assert Decode(rest)[0] == rest[0].value;
      }
      EncodeRepeat(run.value, if run.count.Some? then run.count.value else 1, Decode(rest));
      assert runs == [run] + rest;
    }
  }

  /** Among all encodings of a sequence the canonical one is exactly the encoder's. */
  lemma CanonicalIsUnique<T(!new)>(runs: seq<Run<T>>, s: seq<T>)
    requires Decode(runs) == s
    ensures Canonical(runs) <==> runs == Encode(s)
  {
    DecodeEncode(s);
    if Canonical(runs) {
      EncodeDecode(runs);
    }
  }
}
