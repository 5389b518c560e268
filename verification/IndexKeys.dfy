/** The names of the index sets, and how a field is found back in them. */
module IndexKeys {
  import opened Wrappers

  const SEPARATOR := "::"

  /** `{prefix}::{field}::{value}`. */
  function IndexKey(prefix: string, field: string, value: string): string {
    prefix + SEPARATOR + field + SEPARATOR + value
  }

  /** The index of the last separator in a string. */
  function LastSeparator(s: string): (i: Option<nat>)
    ensures i.Some? ==> i.value + 2 <= |s| && s[i.value] == ':' && s[i.value + 1] == ':'
  {
    if |s| < 2 then None
    else if s[|s| - 2] == ':' && s[|s| - 1] == ':' then Some(|s| - 2)
    else LastSeparator(s[..|s| - 1])
  }

  /** `key.rsplit("::", 1)[0]`. */
  function IndexProp(key: string): string {
    var i := LastSeparator(key);
    if i.Some? then key[..i.value] else key
  }

  /** Names of fields are identifiers. */
  predicate IsField(field: string) {
    ':' !in field
  }

  lemma StripPrefix(prefix: string, a: string, b: string)
    requires prefix + a == prefix + b
    ensures a == b
  {
    assert (prefix + a)[|prefix|..] == a && (prefix + b)[|prefix|..] == b;
  }

  /** What comes before the first colon. */
  function UpToColon(s: string): string {
    if s == [] || s[0] == ':' then [] else [s[0]] + UpToColon(s[1..])
  }

  lemma {:induction false} FieldIsUpToColon(field: string, rest: string)
    requires IsField(field) && (rest == [] || rest[0] == ':')
    ensures UpToColon(field + rest) == field
  {
    if field == [] {
      assert field + rest == rest;
    } else {
      assert (field + rest)[1..] == field[1..] + rest;
      FieldIsUpToColon(field[1..], rest);
    }
  }

  /** A field before the end or a colon can be read off. */
  lemma FieldsMatch(f: string, a: string, g: string, b: string)
    requires IsField(f) && IsField(g) && f + a == g + b
    requires (a == [] || a[0] == ':') && (b == [] || b[0] == ':')
    ensures f == g && a == b
  {
    FieldIsUpToColon(f, a);
    FieldIsUpToColon(g, b);
    StripPrefix(f, a, b);
  }

  /** Whatever the values, two fields never share an index set. */
  lemma IndexKeysDiffer(prefix: string, f: string, v: string, g: string, w: string)
    requires IsField(f) && IsField(g)
    ensures IndexKey(prefix, f, v) == IndexKey(prefix, g, w) <==> f == g && v == w
  {
    if IndexKey(prefix, f, v) == IndexKey(prefix, g, w) {
      var start := prefix + SEPARATOR;
      assert IndexKey(prefix, f, v) == start + (f + (SEPARATOR + v));
      assert IndexKey(prefix, g, w) == start + (g + (SEPARATOR + w));
      StripPrefix(start, f + (SEPARATOR + v), g + (SEPARATOR + w));
      FieldsMatch(f, SEPARATOR + v, g, SEPARATOR + w);
      StripPrefix(SEPARATOR, v, w);
    }
  }

  lemma LastSeparatorSnoc(s: string, c: char)
    requires s != []
    ensures LastSeparator(s + [c]) == if s[|s| - 1] == ':' && c == ':' then Some(|s| - 1) else LastSeparator(s)
  {
    assert (s + [c])[..|s|] == s;
  }

  lemma LastSeparatorAtEnd(start: string)
    ensures LastSeparator(start + SEPARATOR) == Some(|start|) && LastSeparator(":") == None
  {
  }

  /** Where the name of a key is cut depends on the value, with the colon before it. */
  lemma {:induction false} LastSeparatorOf(start: string, value: string)
    ensures var i := LastSeparator(":" + value);
            LastSeparator(start + SEPARATOR + value) == Some(if i.Some? then |start| + 1 + i.value else |start|)
  {
    hide LastSeparator;
    if value == [] {
      assert start + SEPARATOR + value == start + SEPARATOR && ":" + value == ":";
      LastSeparatorAtEnd(start);
    } else {
      var front, c := value[..|value| - 1], value[|value| - 1];
      LastSeparatorOf(start, front);
      LastSeparatorSnoc(start + SEPARATOR + front, c);
      LastSeparatorSnoc(":" + front, c);
      assert start + SEPARATOR + value == (start + SEPARATOR + front) + [c];
      assert ":" + value == (":" + front) + [c];
    }
  }

  /** What of a value stays in the name of the property: nothing, unless there is a
      separator in the value, or a colon at its front. */
  function Residue(value: string): Option<string> {
    var i := LastSeparator(":" + value);
    if i.Some? then Some((":" + value)[..i.value]) else None
  }

  lemma PropOf(prefix: string, field: string, value: string)
    ensures var start := prefix + SEPARATOR + field;
            IndexProp(IndexKey(prefix, field, value)) == start + Rest(Residue(value))
  {
    var start, tail := prefix + SEPARATOR + field, ":" + value;
    var key := IndexKey(prefix, field, value);
    assert key == start + SEPARATOR + value;
    LastSeparatorOf(start, value);
    var i := LastSeparator(tail);
    if i.Some? {
      assert key == start + ":" + tail;
      assert key[..|start| + 1 + i.value] == start + (":" + tail[..i.value]);
    } else {
      assert key[..|start|] == start;
    }
  }

  ghost predicate HasSeparator(s: string) {
    exists i :: 0 <= i < |s| - 1 && s[i] == ':' && s[i + 1] == ':'
  }

  /** No separator in the value, and no colon at its front. */
  ghost predicate Plain(value: string) {
    !HasSeparator(value) && (value != [] ==> value[0] != ':')
  }

  lemma {:induction false} NoSeparatorFound(s: string)
    ensures LastSeparator(s).None? <==> !HasSeparator(s)
  {
    if |s| >= 2 {
      var front := s[..|s| - 1];
      NoSeparatorFound(front);
      if HasSeparator(front) {
        var i :| 0 <= i < |front| - 1 && front[i] == ':' && front[i + 1] == ':';
        assert s[i] == ':' && s[i + 1] == ':';
      }
      if s[|s| - 2] == ':' && s[|s| - 1] == ':' {
        var i := |s| - 2;
        assert s[i] == ':' && s[i + 1] == ':';
      } else if HasSeparator(s) {
        var i :| 0 <= i < |s| - 1 && s[i] == ':' && s[i + 1] == ':';
        assert front[i] == ':' && front[i + 1] == ':';
      }
    }
  }

  lemma PlainHasNoResidue(value: string)
    ensures Residue(value).None? <==> Plain(value)
  {
    var tail := ":" + value;
    NoSeparatorFound(tail);
    if HasSeparator(value) {
      var i :| 0 <= i < |value| - 1 && value[i] == ':' && value[i + 1] == ':';
      var j := i + 1;
      assert tail[j] == ':' && tail[j + 1] == ':';
    }
    if value != [] && value[0] == ':' {
      var j := 0;
      assert tail[j] == ':' && tail[j + 1] == ':';
    }
    if HasSeparator(tail) && value != [] && value[0] != ':' {
      var j :| 0 <= j < |tail| - 1 && tail[j] == ':' && tail[j + 1] == ':';
      var i := j - 1;
      assert value[i] == ':' && value[i + 1] == ':';
    }
  }

  /** The property is the field exactly for values without a separator in them, or
      a colon at their front. */
  lemma PropIsField(prefix: string, field: string, value: string)
    ensures IndexProp(IndexKey(prefix, field, value)) == prefix + SEPARATOR + field <==> Plain(value)
  {
    hide IndexProp, IndexKey, Residue, Plain;
    PropOf(prefix, field, value);
    PlainHasNoResidue(value);
    RestOfNone(prefix + SEPARATOR + field, Residue(value));
  }

  lemma RestOfNone(start: string, residue: Option<string>)
    ensures start + Rest(residue) == start <==> residue.None?
  {
    assert |start + Rest(residue)| == |start| + |Rest(residue)|;
  }

  /** Two keys have the same property exactly if they are of the same field, and the
      same is left of their values. */
  lemma PropsMatch(prefix: string, f: string, v: string, g: string, w: string)
    requires IsField(f) && IsField(g)
    ensures IndexProp(IndexKey(prefix, f, v)) == IndexProp(IndexKey(prefix, g, w)) <==>
            f == g && Residue(v) == Residue(w)
  {
    hide IndexProp, IndexKey, LastSeparator, Residue;
    PropOf(prefix, f, v);
    PropOf(prefix, g, w);
    var start, a, b := prefix + SEPARATOR, Rest(Residue(v)), Rest(Residue(w));
    assert IndexProp(IndexKey(prefix, f, v)) == start + (f + a);
    assert IndexProp(IndexKey(prefix, g, w)) == start + (g + b);
    if start + (f + a) == start + (g + b) {
      StripPrefix(start, f + a, g + b);
      FieldsMatch(f, a, g, b);
      SameRest(Residue(v), Residue(w));
    }
  }

  function Rest(residue: Option<string>): string {
    if residue.None? then "" else ":" + residue.value
  }

  lemma SameRest(a: Option<string>, b: Option<string>)
    requires Rest(a) == Rest(b)
    ensures a == b
  {
    if a.Some? && b.Some? {
      StripPrefix(":", a.value, b.value);
    }
  }
}
