/** Names of experiments carry their index, and so their order. */
module ExperimentNames {
  import opened Wrappers

  const DELIMITER := '~'
  const PUNCTUATION := " -_,.()"

  function DigitChar(d: nat): char
    requires d < 10
  {
    "0123456789"[d]
  }

  function Show(n: nat): (s: string)
    ensures s != []
  {
    if n < 10 then [DigitChar(n)] else Show(n / 10) + [DigitChar(n % 10)]
  }

  function DigitOf(c: char): Option<nat> {
    if '0' <= c <= '9' then Some((c as int) - ('0' as int)) else None
  }

  /** A number in decimal digits. */
  function ReadNumber(s: string): Option<nat> {
    if s == [] then None
    else
      var last := DigitOf(s[|s| - 1]);
      if last.None? then None
      else if |s| == 1 then last
      else
        var front := ReadNumber(s[..|s| - 1]);
        if front.None? then None else Some(10 * front.value + last.value)
  }

  /** Keeps letters, digits and some punctuation. */
  function Sanitized(name: string, isAlnum: char -> bool): string {
    if name == [] then []
    else if isAlnum(name[0]) || name[0] in PUNCTUATION then [name[0]] + Sanitized(name[1..], isAlnum)
    else Sanitized(name[1..], isAlnum)
  }

  function ExperimentName(name: string, index: nat, isAlnum: char -> bool): string {
    Sanitized(name, isAlnum) + [DELIMITER] + Show(index)
  }

  /** Where the delimiter is last. */
  function LastDelimiter(s: string): Option<nat> {
    if s == [] then None
    else if s[|s| - 1] == DELIMITER then Some(|s| - 1)
    else LastDelimiter(s[..|s| - 1])
  }

  function ParseIndex(name: string): Option<nat> {
    var at := LastDelimiter(name);
    if at.None? || at.value >= |name| then None else ReadNumber(name[at.value + 1..])
  }

  /** A name is what is kept of it, a tilde, and the index in digits; of every name
      letters, digits, spaces and some punctuation are kept, in order. */
  lemma {:induction false} NameIsKept(name: string, c: char, index: nat, isAlnum: char -> bool)
    ensures ExperimentName(name, index, isAlnum) == Sanitized(name, isAlnum) + "~" + Show(index)
    ensures Sanitized("", isAlnum) == ""
    ensures Sanitized(name + [c], isAlnum) ==
            Sanitized(name, isAlnum) + if isAlnum(c) || c in " -_,.()" then [c] else []
  {
    if name != [] {
      assert (name + [c])[1..] == name[1..] + [c];
      NameIsKept(name[1..], c, index, isAlnum);
    } else {
      assert name + [c] == [c];
      assert [c][1..] == "";
    }
  }

  // --- the index is read back ---

  lemma DigitCharDigit(d: nat)
    requires d < 10
    ensures DigitOf(DigitChar(d)) == Some(d) && DigitChar(d) != DELIMITER
  {
  }

  lemma ReadSnoc(s: string, c: char)
    requires s != [] && ReadNumber(s).Some? && DigitOf(c).Some?
    ensures ReadNumber(s + [c]) == Some(10 * ReadNumber(s).value + DigitOf(c).value)
  {
    hide DigitOf;
    assert (s + [c])[..|s|] == s;
  }

  lemma {:induction false} ReadShow(n: nat)
    ensures ReadNumber(Show(n)) == Some(n) && DELIMITER !in Show(n)
  {
    hide DigitChar, DigitOf;
    DigitCharDigit(n % 10);
    if n >= 10 {
      ReadShow(n / 10);
      ReadSnoc(Show(n / 10), DigitChar(n % 10));
    } else {
      assert Show(n) == [DigitChar(n)];
    }
  }

  lemma {:induction false} LastDelimiterOf(a: string, b: string)
    requires DELIMITER !in b
    ensures LastDelimiter(a + [DELIMITER] + b) == Some(|a|)
  {
    var s := a + [DELIMITER] + b;
    if b == [] {
      assert s == a + [DELIMITER];
    } else {
      var front := b[..|b| - 1];
      assert s[..|s| - 1] == a + [DELIMITER] + front;
      assert s[|s| - 1] == b[|b| - 1];
      LastDelimiterOf(a, front);
    }
  }

  /** Whatever the name, and whatever counts as a letter, the index comes back. */
  lemma IndexComesBack(name: string, index: nat, isAlnum: char -> bool)
    ensures ParseIndex(ExperimentName(name, index, isAlnum)) == Some(index)
  {
    var start, full := Sanitized(name, isAlnum), ExperimentName(name, index, isAlnum);
    ReadShow(index);
    LastDelimiterOf(start, Show(index));
    assert full == (start + [DELIMITER]) + Show(index);
    assert full[|start| + 1..] == Show(index);
  }

  // --- and with it the order ---

  function NamesOf(names: seq<string>, isAlnum: char -> bool): (r: seq<string>)
    ensures |r| == |names| && forall i :: 0 <= i < |names| ==> r[i] == ExperimentName(names[i], i, isAlnum)
  {
    seq(|names|, i requires 0 <= i < |names| => ExperimentName(names[i], i, isAlnum))
  }

  ghost predicate SortedByIndex(names: seq<string>) {
    forall i, j :: 0 <= i < j < |names| ==>
      ParseIndex(names[i]).Some? && ParseIndex(names[j]).Some? &&
      ParseIndex(names[i]).value <= ParseIndex(names[j]).value
  }

  /** Distinct numbers in increasing order, as many as there are below a bound. */
  lemma {:induction false} AllBelow(keys: seq<nat>, i: nat)
    requires forall i, j :: 0 <= i < j < |keys| ==> keys[i] < keys[j]
    requires forall i :: 0 <= i < |keys| ==> keys[i] < |keys|
    requires i < |keys|
    ensures keys[i] == i
  {
    AtLeast(keys, i);
    AtMost(keys, i);
  }

  lemma {:induction false} AtLeast(keys: seq<nat>, i: nat)
    requires forall i, j :: 0 <= i < j < |keys| ==> keys[i] < keys[j]
    requires i < |keys|
    ensures keys[i] >= i
  {
    if i > 0 {
      AtLeast(keys, i - 1);
      assert keys[i - 1] < keys[i];
    }
  }

  lemma {:induction false} AtMost(keys: seq<nat>, i: nat)
    requires forall i, j :: 0 <= i < j < |keys| ==> keys[i] < keys[j]
    requires forall i :: 0 <= i < |keys| ==> keys[i] < |keys|
    requires i < |keys|
    ensures keys[i] <= i
    decreases |keys| - i
  {
    if i + 1 < |keys| {
      AtMost(keys, i + 1);
      assert keys[i] < keys[i + 1];
    }
  }

  /** However the results were saved, sorting them by index puts them in the order of
      the experiments. */
  lemma OrderIsRecovered(names: seq<string>, isAlnum: char -> bool, sorted: seq<string>)
    requires multiset(sorted) == multiset(NamesOf(names, isAlnum)) && SortedByIndex(sorted)
    ensures sorted == NamesOf(names, isAlnum)
  {
    var saved := NamesOf(names, isAlnum);
    hide ParseIndex, ExperimentName, SortedByIndex;
    forall i | 0 <= i < |saved|
      ensures ParseIndex(saved[i]) == Some(i)
    {
      IndexComesBack(names[i], i, isAlnum);
    }
    IndexesFollow(saved, sorted);
  }

  /** Every name is one of those saved. */
  lemma FromSaved(saved: seq<string>, sorted: seq<string>, k: nat)
    requires multiset(sorted) == multiset(saved) && k < |sorted|
    requires forall i :: 0 <= i < |saved| ==> ParseIndex(saved[i]) == Some(i)
    ensures var at := ParseIndex(sorted[k]); at.Some? && at.value < |saved| && sorted[k] == saved[at.value]
  {
    hide ParseIndex;
    assert sorted[k] in multiset(sorted);
    assert sorted[k] in multiset(saved);
    var i :| 0 <= i < |saved| && saved[i] == sorted[k];
  }

  lemma SameLength(a: seq<string>, b: seq<string>)
    requires multiset(a) == multiset(b)
    ensures |a| == |b|
  {
    assert |multiset(a)| == |a| && |multiset(b)| == |b|;
  }

  lemma IndexesFollow(saved: seq<string>, sorted: seq<string>)
    requires multiset(sorted) == multiset(saved) && SortedByIndex(sorted)
    requires forall i :: 0 <= i < |saved| ==> ParseIndex(saved[i]) == Some(i)
    ensures sorted == saved
  {
    hide ParseIndex;
    SameLength(sorted, saved);
    NoRepeats(saved, sorted);
    forall k | 0 <= k < |sorted|
      ensures var at := ParseIndex(sorted[k]); at.Some? && at.value < |saved| && sorted[k] == saved[at.value]
    {
      FromSaved(saved, sorted, k);
    }
    KeysFollow(saved, sorted);
  }

  lemma KeysFollow(saved: seq<string>, sorted: seq<string>)
    requires |sorted| == |saved| && SortedByIndex(sorted)
    requires forall k, l :: 0 <= k < l < |sorted| ==> sorted[k] != sorted[l]
    requires forall k :: 0 <= k < |sorted| ==>
               ParseIndex(sorted[k]).Some? && ParseIndex(sorted[k]).value < |saved| &&
               sorted[k] == saved[ParseIndex(sorted[k]).value]
    ensures sorted == saved
  {
    hide ParseIndex;
    var keys: seq<nat> := seq(|sorted|, k requires 0 <= k < |sorted| => ParseIndex(sorted[k]).value);
    forall k, l | 0 <= k < l < |keys|
      ensures keys[k] < keys[l]
    {
      assert sorted[k] != sorted[l];
    }
    forall k | 0 <= k < |sorted|
      ensures sorted[k] == saved[k]
    {
      AllBelow(keys, k);
    }
  }

  /** A permutation of distinct names has distinct names. */
  lemma NoRepeats(saved: seq<string>, sorted: seq<string>)
    requires multiset(sorted) == multiset(saved)
    requires forall i :: 0 <= i < |saved| ==> ParseIndex(saved[i]) == Some(i)
    ensures forall k, l :: 0 <= k < l < |sorted| ==> sorted[k] != sorted[l]
  {
    hide ParseIndex;
    forall k, l | 0 <= k < l < |sorted|
      ensures sorted[k] != sorted[l]
    {
      var x := sorted[k];
      OnceEach(saved, x);
      if sorted[l] == x {
        TwiceIn(sorted, k, l);
      }
    }
  }

  lemma {:induction false} OnceEach(saved: seq<string>, x: string)
    requires forall i :: 0 <= i < |saved| ==> ParseIndex(saved[i]) == Some(i)
    ensures multiset(saved)[x] <= 1
  {
    hide ParseIndex;
    if saved != [] {
      var front, last := saved[..|saved| - 1], saved[|saved| - 1];
      OnceEach(front, x);
      assert saved == front + [last];
      if last == x {
        assert forall i :: 0 <= i < |front| ==> front[i] == saved[i];
        assert x !in front;
        assert multiset(front)[x] == 0;
      }
    }
  }

  lemma TwiceIn(s: seq<string>, k: nat, l: nat)
    requires k < l < |s| && s[k] == s[l]
    ensures multiset(s)[s[k]] >= 2
  {
    var a, b := s[..l], s[l..];
    assert s == a + b;
    assert a[k] == s[k] && b[0] == s[l];
    assert s[k] in multiset(a) && s[k] in multiset(b);
  }
}
