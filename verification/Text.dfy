/**
 The string operations the agent relies on: searching, splitting and joining.
 A char stands for one character of the Go string; every character the code compares
 against is ASCII, so counting bytes instead would find and cut at the same places.
 */
module Text {
  import opened Base

  /** p occurs in s at index i. */
  predicate OccursAt<T(==)>(s: seq<T>, p: seq<T>, i: int) {
    0 <= i <= |s| - |p| && s[i..i + |p|] == p
  }

  ghost predicate Contains<T>(s: seq<T>, p: seq<T>) {
    exists i :: OccursAt(s, p, i)
  }

  /** strings.Index: the first place where p occurs in s. */
  method Index<T(==)>(s: seq<T>, p: seq<T>) returns (r: Option<nat>)
    ensures r.None? <==> !Contains(s, p)
    ensures r.Some? ==> OccursAt(s, p, r.value) && forall i :: OccursAt(s, p, i) ==> r.value <= i
  {
    var i := 0;
    while i + |p| <= |s|
      invariant forall j :: 0 <= j < i ==> !OccursAt(s, p, j)
    {
      if s[i..i + |p|] == p {
        assert OccursAt(s, p, i);
        return Some(i);
      }
      i := i + 1;
    }
    return None;
  }

  /** strings.Split(s, d): the pieces between the occurrences of d, in order. */
  function Split(s: string, d: char): (parts: seq<string>)
    ensures |parts| >= 1
    ensures forall i | 0 <= i < |parts| :: d !in parts[i]
  {
    if s == "" then [""]
    else
      var rest := Split(s[1..], d);
      if s[0] == d then [""] + rest else [[s[0]] + rest[0]] + rest[1..]
  }

  /** strings.Join(parts, d). */
  function Join(parts: seq<string>, d: char): string {
    if |parts| == 0 then ""
    else if |parts| == 1 then parts[0]
    else parts[0] + [d] + Join(parts[1..], d)
  }

  /** Joining the pieces of a string gives the string back. */
  lemma {:induction false} JoinSplit(s: string, d: char)
    ensures Join(Split(s, d), d) == s
  {
    if s == "" {
    } else {
      JoinSplit(s[1..], d);
      var rest := Split(s[1..], d);
      if s[0] == d {
        assert ([""] + rest)[1..] == rest;
      } else {
        assert ([[s[0]] + rest[0]] + rest[1..])[1..] == rest[1..];
      }
    }
  }

  /** Splitting a joined list of separator-free pieces gives the list back. */
  lemma {:induction false} SplitJoin(parts: seq<string>, d: char)
    requires |parts| >= 1
    requires forall i | 0 <= i < |parts| :: d !in parts[i]
    ensures Split(Join(parts, d), d) == parts
  {
    if |parts| == 1 {
      SplitPlain(parts[0], d);
    } else {
      SplitJoin(parts[1..], d);
      SplitPrefix(parts[0], Join(parts[1..], d), d);
      assert parts[0] + [d] + Join(parts[1..], d) == parts[0] + ([d] + Join(parts[1..], d));
    }
  }

  lemma {:induction false} SplitPlain(s: string, d: char)
    requires d !in s
    ensures Split(s, d) == [s]
  {
    if s == "" {
    } else {
      SplitPlain(s[1..], d);
      assert [s[0]] + s[1..] == s;
    }
  }

  lemma {:induction false} SplitPrefix(p: string, rest: string, d: char)
    requires d !in p
    ensures Split(p + ([d] + rest), d) == [p] + Split(rest, d)
  {
    var s := p + ([d] + rest);
    if p == "" {
      assert s[1..] == rest;
    } else {
      SplitPrefix(p[1..], rest, d);
      assert s[1..] == p[1..] + ([d] + rest);
      assert [s[0]] + p[1..] == p;
    }
  }

  /** A string with a separator is its first piece, the separator and the rest; one without
      is a single piece. */
  lemma FirstAndRest(s: string, d: char)
    ensures
      var parts := Split(s, d);
      && (|parts| >= 2 <==> d in s)
      && (|parts| >= 2 ==> parts[0] + [d] + Join(parts[1..], d) == s && d !in parts[0])
  {
    JoinSplit(s, d);
    if d !in s {
      SplitPlain(s, d);
    }
  }
}
