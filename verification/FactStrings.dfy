/**
 @fact.X references in a string (internal/agent/factref.go): the loop that rewrites
 the first reference and rescans from the start, and the single left-to-right pass it
 is meant to be.
 */
module FactStrings {
  import opened Base
  import opened Text

  predicate IsDelimiter(c: char) {
    c == ' ' || c == '\"' || c == '\'' || c == ',' || c == ';'
  }

  /** A space, either quote, a comma or a semicolon. */
  lemma DelimitersAre(c: char)
    ensures IsDelimiter(c) <==> c in " \"',;"
  {
    var five := " \"',;";
    assert five == [' ', '\"', '\'', ',', ';'];
  }

  predicate DelimiterFree(s: string) {
    forall i | 0 <= i < |s| :: !IsDelimiter(s[i])
  }

  predicate IsPrefix(p: string) {
    |p| > 1 && DelimiterFree(p) && forall i | 1 <= i < |p| :: p[i] != p[0]
  }

  /** What can serve as facts.Prefix: it holds no delimiter, and its first character
      does not come back in it. */
  type Prefix = p: string | IsPrefix(p) witness "@fact."

  datatype FactError =
    | FactsNotAvailable
    | NotSet(key: string)
    | OsNotAvailable
    | CustomNotFound(customKey: string)
    | UnknownKey(unknown: string)

  /** The reference as written, and why it has no value. */
  datatype Unresolvable = Unresolvable(reference: string, cause: FactError)

  /** What resolution works with: the reference prefix and the lookup of keys. */
  datatype Facts = Facts(prefix: Prefix, lookup: string -> Result<string, FactError>)

  // ------------------------------------------------------ finding references

  /** Where the first reference starts. */
  ghost function FirstRef(s: string, p: Prefix): (r: Option<nat>)
    ensures r.None? ==> forall i :: !OccursAt(s, p, i)
    ensures r.Some? ==> OccursAt(s, p, r.value) && forall i | 0 <= i < r.value :: !OccursAt(s, p, i)
  {
    if exists i: nat :: OccursAt(s, p, i) then
      var i: nat :| OccursAt(s, p, i);
      Some(Earliest(s, p, i))
    else None
  }

  /** The earliest occurrence, given one. */
  ghost function Earliest(s: string, p: string, i: nat): (e: nat)
    requires OccursAt(s, p, i)
    ensures OccursAt(s, p, e) && forall j | 0 <= j < e :: !OccursAt(s, p, j)
  {
    if j: nat :| j < i && OccursAt(s, p, j) then Earliest(s, p, j) else i
  }

  ghost predicate Free(s: string, p: Prefix) {
    FirstRef(s, p).None?
  }

  /** The reference that is open at i ends at e: at the next delimiter or the end. */
  ghost predicate EndsAt(s: string, i: nat, e: nat) {
    && i <= e <= |s|
    && (forall j | i <= j < e :: !IsDelimiter(s[j]))
    && (e == |s| || IsDelimiter(s[e]))
  }

  lemma {:induction false} SomeEnd(s: string, i: nat)
    requires i <= |s|
    ensures exists e :: EndsAt(s, i, e)
    decreases |s| - i
  {
    if i == |s| || IsDelimiter(s[i]) {
      assert EndsAt(s, i, i);
    } else {
      SomeEnd(s, i + 1);
      var e :| EndsAt(s, i + 1, e);
      assert EndsAt(s, i, e);
    }
  }

  ghost function RefEnd(s: string, i: nat): (e: nat)
    requires i <= |s|
    ensures EndsAt(s, i, e)
  {
    SomeEnd(s, i);
    var e :| EndsAt(s, i, e);
    e
  }

  /** The first reference of s, cut in three: the text before it, its key, and the rest
      from the delimiter that ends it. */
  datatype Cut = Cut(before: string, key: string, after: string)

  ghost function CutAt(s: string, start: nat, n: nat): (c: Cut)
    requires start + n <= |s|
    ensures DelimiterFree(c.key) && (c.after == "" || IsDelimiter(c.after[0])) && |c.after| <= |s| - n
  {
    var end := RefEnd(s, start + n);
    var key := s[start + n..end];
    assert forall j | 0 <= j < |key| :: key[j] == s[start + n + j];
    Cut(s[..start], key, s[end..])
  }

  ghost function FirstCut(s: string, p: Prefix): (c: Cut)
    requires !Free(s, p)
    ensures DelimiterFree(c.key) && (c.after == "" || IsDelimiter(c.after[0])) && |c.after| < |s|
  {
    CutAt(s, FirstRef(s, p).value, |p|)
  }

  // ------------------------------------------------------- the specification

  /** One left-to-right pass: every key runs from its prefix to the next delimiter,
      and what replaces a reference is never looked at again. */
  ghost function Pass(s: string, f: Facts): Result<string, Unresolvable>
    decreases |s|
  {
    if Free(s, f.prefix) then Ok(s)
    else
      var c := FirstCut(s, f.prefix);
      match f.lookup(c.key)
      case Err(e) => Err(Unresolvable(f.prefix + c.key, e))
      case Ok(replacement) => Prepend(c.before + replacement, Pass(c.after, f))
  }

  function Prepend(p: string, r: Result<string, Unresolvable>): Result<string, Unresolvable> {
    match r
    case Ok(s) => Ok(p + s)
    case Err(e) => Err(e)
  }

  /** One turn of resolveString's loop. */
  ghost function Rewrite(s: string, f: Facts): Result<string, Unresolvable>
    requires !Free(s, f.prefix)
  {
    var c := FirstCut(s, f.prefix);
    match f.lookup(c.key)
    case Err(e) => Err(Unresolvable(f.prefix + c.key, e))
    case Ok(replacement) => Ok(c.before + replacement + c.after)
  }

  datatype Progress = Unfinished(text: string) | Finished(result: Result<string, Unresolvable>)

  /** resolveString's loop after at most n turns. */
  ghost function Iterate(n: nat, s: string, f: Facts): Progress {
    if Free(s, f.prefix) then Finished(Ok(s))
    else if n == 0 then Unfinished(s)
    else
      match Rewrite(s, f)
      case Err(e) => Finished(Err(e))
      case Ok(t) => Iterate(n - 1, t, f)
  }

  ghost predicate Ends(s: string, f: Facts) {
    exists n: nat :: Iterate(n, s, f).Finished?
  }

  // ------------------------------------------------------------------ hygiene

  /** No reference in v, and none that text on its left could complete. */
  ghost predicate Clean(v: string, p: Prefix) {
    Free(v, p) && forall i | 1 <= i < |p| :: !(p[i..] <= v)
  }

  /** Every value a reference can be replaced by is clean. */
  ghost predicate Hygienic(f: Facts) {
    forall key :: DelimiterFree(key) && f.lookup(key).Ok? ==> Clean(f.lookup(key).value, f.prefix)
  }

  // ---------------------------------------------------------- joining strings

  /** b cannot continue a reference begun in a. */
  predicate Separate(a: string, b: string) {
    a == "" || b == "" || IsDelimiter(b[0]) || IsDelimiter(a[|a| - 1])
  }

  lemma OccursRight(a: string, b: string, p: string, i: int)
    requires i >= |a|
    ensures OccursAt(a + b, p, i) <==> OccursAt(b, p, i - |a|)
  {
    if i <= |a + b| - |p| {
      assert (a + b)[i..i + |p|] == b[i - |a|..i - |a| + |p|];
    }
  }

  lemma OccursLeft(a: string, b: string, p: string, i: int)
    requires i + |p| <= |a|
    ensures OccursAt(a + b, p, i) <==> OccursAt(a, p, i)
  {
    if 0 <= i {
      assert (a + b)[i..i + |p|] == a[i..i + |p|];
    }
  }

  lemma OccursAcross(a: string, b: string, p: string, i: int)
    requires i < |a| < i + |p| && OccursAt(a + b, p, i)
    ensures p[|a| - i..] <= b && b != "" && b[0] == p[|a| - i] && a[|a| - 1] == p[|a| - i - 1]
  {
    var k := |a| - i;
    assert (a + b)[i..i + |p|][k - 1] == a[|a| - 1];
    assert (a + b)[i..i + |p|][k..] == b[..|p| - k];
  }

  lemma NothingAcross(a: string, b: string, p: Prefix, i: int)
    requires Free(a, p) && Separate(a, b) && i < |a|
    ensures !OccursAt(a + b, p, i)
  {
    if OccursAt(a + b, p, i) {
      if i + |p| <= |a| {
        OccursLeft(a, b, p, i);
      } else {
        OccursAcross(a, b, p, i);
      }
    }
  }

  /** Behind a reference-free text nothing new appears across a separation. */
  lemma FirstRefAfter(a: string, b: string, p: Prefix)
    requires Free(a, p) && Separate(a, b)
    ensures FirstRef(a + b, p) == match FirstRef(b, p) case None => None case Some(i) => Some(|a| + i)
  {
    var r := FirstRef(a + b, p);
    if r.Some? {
      if r.value < |a| {
        NothingAcross(a, b, p, r.value);
      }
      OccursRight(a, b, p, r.value);
    }
    var rb := FirstRef(b, p);
    if rb.Some? {
      OccursRight(a, b, p, |a| + rb.value);
    }
  }

  /** A clean value completes no reference. */
  lemma FreeThenClean(a: string, v: string, p: Prefix)
    requires Free(a, p) && Clean(v, p)
    ensures Free(a + v, p)
  {
    forall i
      ensures !OccursAt(a + v, p, i)
    {
      if OccursAt(a + v, p, i) {
        if i + |p| <= |a| {
          OccursLeft(a, v, p, i);
        } else if i < |a| {
          OccursAcross(a, v, p, i);
        } else {
          OccursRight(a, v, p, i);
        }
      }
    }
  }

  /** The text before the first reference holds none. */
  lemma FreeBefore(s: string, p: Prefix)
    requires !Free(s, p)
    ensures Free(FirstCut(s, p).before, p)
  {
    var start := FirstRef(s, p).value;
    assert s[..start] + s[start..] == s;
    forall i
      ensures !OccursAt(s[..start], p, i)
    {
      if i + |p| <= start {
        OccursLeft(s[..start], s[start..], p, i);
      }
    }
  }

  lemma RefEndAfter(a: string, b: string, i: nat)
    requires i <= |b|
    ensures RefEnd(a + b, |a| + i) == |a| + RefEnd(b, i)
  {
    var e := RefEnd(a + b, |a| + i);
    forall j | i <= j < e - |a|
      ensures !IsDelimiter(b[j])
    {
      assert (a + b)[|a| + j] == b[j];
    }
    assert EndsAt(b, i, e - |a|);
  }

  /** The first reference behind a reference-free text is the rest's first reference. */
  lemma FirstCutAfter(a: string, b: string, p: Prefix)
    requires Free(a, p) && Separate(a, b) && !Free(b, p)
    ensures !Free(a + b, p)
    ensures FirstCut(a + b, p) == FirstCut(b, p).(before := a + FirstCut(b, p).before)
  {
    FirstRefAfter(a, b, p);
    CutAfter(a, b, FirstRef(b, p).value, |p|);
  }

  lemma CutAfter(a: string, b: string, start: nat, n: nat)
    requires start + n <= |b|
    ensures CutAt(a + b, |a| + start, n) == CutAt(b, start, n).(before := a + CutAt(b, start, n).before)
  {
    RefEndAfter(a, b, start + n);
    var end := RefEnd(b, start + n);
    assert (a + b)[..|a| + start] == a + b[..start];
    assert (a + b)[|a| + start + n..|a| + end] == b[start + n..end];
    assert (a + b)[|a| + end..] == b[end..];
  }

  /** One turn behind resolved text is one turn on the rest. */
  lemma RewriteAfter(done: string, rest: string, f: Facts)
    requires Free(done, f.prefix) && Separate(done, rest) && !Free(rest, f.prefix)
    ensures !Free(done + rest, f.prefix)
    ensures Rewrite(done + rest, f) == Prepend(done, Rewrite(rest, f))
  {
    FirstCutAfter(done, rest, f.prefix);
    var c := FirstCut(rest, f.prefix);
    var found := f.lookup(c.key);
    if found.Ok? {
      Regroup(done, c.before, found.value, c.after);
    }
  }

  // --------------------------------------------------- the loop is the pass

  /** From resolved text and the rest of the input, the loop ends within as many turns
      as the rest has characters, with the pass over the rest behind the text. */
  lemma {:induction false} LoopIsPassFrom(n: nat, done: string, rest: string, f: Facts)
    requires Hygienic(f) && Free(done, f.prefix) && Separate(done, rest) && |rest| <= n
    ensures Iterate(n, done + rest, f) == Finished(Prepend(done, Pass(rest, f)))
    decreases |rest|
  {
    if Free(rest, f.prefix) {
      FirstRefAfter(done, rest, f.prefix);
    } else {
      var more, after := TurnAfter(done, rest, f);
      if Rewrite(done + rest, f).Ok? {
        OneTurn(n, done + rest, f);
        LoopIsPassFrom(n - 1, more, after, f);
      } else {
        LastTurn(n, done + rest, f);
      }
    }
  }

  lemma LastTurn(n: nat, s: string, f: Facts)
    requires n > 0 && !Free(s, f.prefix) && Rewrite(s, f).Err?
    ensures Iterate(n, s, f) == Finished(Rewrite(s, f))
  {
  }

  /** One turn of the loop behind resolved text: the failure, or more resolved text. */
  lemma TurnAfter(done: string, rest: string, f: Facts) returns (more: string, after: string)
    requires Hygienic(f) && Free(done, f.prefix) && Separate(done, rest) && !Free(rest, f.prefix)
    ensures |rest| > 0 && !Free(done + rest, f.prefix)
    ensures
      match Rewrite(done + rest, f)
      case Err(e) => Prepend(done, Pass(rest, f)) == Err(e)
      case Ok(t) =>
        && t == more + after && |after| < |rest|
        && Free(more, f.prefix) && Separate(more, after)
        && Prepend(done, Pass(rest, f)) == Prepend(more, Pass(after, f))
  {
    RewriteAfter(done, rest, f);
    var c := FirstCut(rest, f.prefix);
    var found := f.lookup(c.key);
    more, after := done, c.after;
    if found.Ok? {
      more := done + c.before + found.value;
      Advances(done, rest, f);
      Regroup(done, c.before, found.value, c.after);
      PassTurn(rest, f);
      PrependTwice(done, c.before + found.value, Pass(c.after, f));
    }
  }

  lemma Regroup(a: string, b: string, c: string, d: string)
    ensures a + (b + c + d) == a + b + c + d && a + (b + c) == a + b + c
  {
  }

  lemma OneTurn(n: nat, s: string, f: Facts)
    requires n > 0 && !Free(s, f.prefix) && Rewrite(s, f).Ok?
    ensures Iterate(n, s, f) == Iterate(n - 1, Rewrite(s, f).value, f)
  {
  }

  lemma PrependTwice(a: string, b: string, r: Result<string, Unresolvable>)
    ensures Prepend(a, Prepend(b, r)) == Prepend(a + b, r)
  {
    if r.Ok? {
      assert a + (b + r.value) == a + b + r.value;
    }
  }

  /** What one turn adds to the resolved text stays free of references. */
  lemma Advances(done: string, rest: string, f: Facts)
    requires Hygienic(f) && Free(done, f.prefix) && Separate(done, rest) && !Free(rest, f.prefix)
    requires f.lookup(FirstCut(rest, f.prefix).key).Ok?
    ensures
      var c := FirstCut(rest, f.prefix);
      Free(done + c.before + f.lookup(c.key).value, f.prefix)
  {
    var c := FirstCut(rest, f.prefix);
    FreeBefore(rest, f.prefix);
    FirstRefAfter(done, c.before, f.prefix);
    FreeThenClean(done + c.before, f.lookup(c.key).value, f.prefix);
  }

  /** With hygienic facts the rescanning loop terminates on every string and computes
      the single pass. */
  lemma {:induction false} LoopIsPass(s: string, f: Facts)
    requires Hygienic(f)
    ensures Iterate(|s|, s, f) == Finished(Pass(s, f))
  {
    LoopIsPassFrom(|s|, "", s, f);
    assert "" + s == s;
    PrependNothing(Pass(s, f));
  }

  lemma PrependNothing(r: Result<string, Unresolvable>)
    ensures Prepend("", r) == r
  {
    if r.Ok? {
      assert "" + r.value == r.value;
    }
  }

  /** The loop ends in one way only. */
  lemma {:induction false} EndsOnce(n: nat, m: nat, s: string, f: Facts)
    requires Iterate(n, s, f).Finished? && Iterate(m, s, f).Finished?
    ensures Iterate(n, s, f) == Iterate(m, s, f)
  {
    if Free(s, f.prefix) || Rewrite(s, f).Err? {
    } else {
      EndsOnce(n - 1, m - 1, Rewrite(s, f).value, f);
    }
  }

  /** What the loop makes of s, if it ends. */
  ghost function Outcome(s: string, f: Facts): Option<Result<string, Unresolvable>> {
    if Ends(s, f) then
      var n: nat :| Iterate(n, s, f).Finished?;
      Some(Iterate(n, s, f).result)
    else None
  }

  lemma OutcomeAt(n: nat, s: string, r: Result<string, Unresolvable>, f: Facts)
    requires Iterate(n, s, f) == Finished(r)
    ensures Ends(s, f) && Outcome(s, f) == Some(r)
  {
    assert Ends(s, f);
    var m: nat :| Iterate(m, s, f).Finished? && Outcome(s, f) == Some(Iterate(m, s, f).result);
    EndsOnce(n, m, s, f);
  }

  /** With hygienic facts the loop ends everywhere, with the pass. */
  lemma HygienicOutcome(s: string, f: Facts)
    requires Hygienic(f)
    ensures Ends(s, f) && Outcome(s, f) == Some(Pass(s, f))
  {
    LoopIsPass(s, f);
    OutcomeAt(|s|, s, Pass(s, f), f);
  }

  /** Without any condition on the facts: where the loop succeeds it leaves no reference,
      and resolving its result again changes nothing. */
  lemma OutcomeIsFree(s: string, f: Facts)
    requires Outcome(s, f).Some? && Outcome(s, f).value.Ok?
    ensures
      var t := Outcome(s, f).value.value;
      Free(t, f.prefix) && Outcome(t, f) == Outcome(s, f)
  {
    var t := Outcome(s, f).value.value;
    var n: nat :| Iterate(n, s, f).Finished? && Outcome(s, f) == Some(Iterate(n, s, f).result);
    FinishedIsFree(n, s, f);
    assert Iterate(0, t, f) == Finished(Ok(t));
    OutcomeAt(0, t, Ok(t), f);
  }

  lemma {:induction false} FinishedIsFree(n: nat, s: string, f: Facts)
    ensures Iterate(n, s, f).Finished? && Iterate(n, s, f).result.Ok? ==> Free(Iterate(n, s, f).result.value, f.prefix)
  {
    if Free(s, f.prefix) || n == 0 || Rewrite(s, f).Err? {
    } else {
      FinishedIsFree(n - 1, Rewrite(s, f).value, f);
    }
  }

  /** Whatever is resolved holds no reference, so resolving it again changes nothing. */
  lemma ResolvedIsFree(s: string, f: Facts)
    requires Hygienic(f) && Pass(s, f).Ok?
    ensures Free(Pass(s, f).value, f.prefix)
    ensures Pass(Pass(s, f).value, f) == Pass(s, f)
  {
    LoopIsPass(s, f);
    FinishedIsFree(|s|, s, f);
  }

  /** The loop ends on s, with the single pass over s. */
  ghost predicate LoopYieldsPass(s: string, f: Facts) {
    exists n: nat :: Iterate(n, s, f) == Finished(Pass(s, f))
  }

  /** Hygiene is exactly what the loop needs: it computes the single pass on every
      string if and only if the facts are hygienic. */
  lemma LoopIsPassIffHygienic(f: Facts)
    ensures Hygienic(f) <==> forall s :: LoopYieldsPass(s, f)
  {
    if Hygienic(f) {
      forall s
        ensures LoopYieldsPass(s, f)
      {
        LoopIsPass(s, f);
      }
    } else {
      var s := Spoiler(f);
      assert !LoopYieldsPass(s, f);
    }
  }

  /** With unclean facts there is a string on which the loop never yields the pass:
      enough of the prefix for the unclean value to complete, then its reference. */
  lemma Spoiler(f: Facts) returns (s: string)
    requires !Hygienic(f)
    ensures !LoopYieldsPass(s, f)
  {
    var key :| DelimiterFree(key) && f.lookup(key).Ok? && !Clean(f.lookup(key).value, f.prefix);
    var v := f.lookup(key).value;
    var i: nat := 0;
    if Free(v, f.prefix) {
      i :| 1 <= i < |f.prefix| && f.prefix[i..] <= v;
    }
    var before := f.prefix[..i];
    s := before + (f.prefix + key);
    PassOfOne(i, key, f);
    Completes(i, v, f.prefix);
    assert Pass(s, f) == Ok(before + v) && !Free(before + v, f.prefix);
    forall n: nat
      ensures Iterate(n, s, f) != Finished(Pass(s, f))
    {
      FinishedIsFree(n, s, f);
    }
  }

  lemma Completes(i: nat, v: string, p: Prefix)
    requires i < |p| && (if i == 0 then !Free(v, p) else p[i..] <= v)
    ensures !Free(p[..i] + v, p)
  {
    if i == 0 {
      assert p[..i] + v == v;
    } else {
      assert p == p[..i] + p[i..];
      assert OccursAt(p[..i] + v, p, 0);
    }
  }

  /** The pass over the start of a prefix followed by one reference. */
  lemma PassOfOne(i: nat, key: string, f: Facts)
    requires i < |f.prefix| && DelimiterFree(key) && f.lookup(key).Ok?
    ensures Pass(f.prefix[..i] + (f.prefix + key), f) == Ok(f.prefix[..i] + f.lookup(key).value)
  {
    var p := f.prefix;
    var before := p[..i];
    FreePart(i, p);
    OneRef(i, key, p);
    var v := f.lookup(key).value;
    assert Free("", p);
    assert Pass("", f) == Ok("");
    assert before + v + "" == before + v;
  }

  lemma FreePart(i: nat, p: Prefix)
    requires i < |p|
    ensures Free(p[..i], p)
  {
  }

  lemma OneRef(i: nat, key: string, p: Prefix)
    requires i < |p| && DelimiterFree(key)
    ensures !Free(p[..i] + (p + key), p)
    ensures FirstCut(p[..i] + (p + key), p) == Cut(p[..i], key, "")
  {
    var s := p[..i] + (p + key);
    assert s[i..i + |p|] == p;
    assert OccursAt(s, p, i);
    assert s[i] == p[0];
    forall j | 0 <= j < i
      ensures !OccursAt(s, p, j)
    {
      NotBefore(s, p, j, i);
    }
    assert FirstRef(s, p) == Some(i);
    assert forall j | i + |p| <= j < |s| :: s[j] == key[j - i - |p|];
    assert EndsAt(s, i + |p|, |s|);
    assert s[i + |p|..] == key;
  }

  /** A prefix does not overlap another one. */
  lemma NotBefore(s: string, p: Prefix, j: nat, i: nat)
    requires j < i < j + |p| <= |s| && s[i] == p[0]
    ensures !OccursAt(s, p, j)
  {
    assert s[j..j + |p|][i - j] == s[i];
  }

  /** A value that is its own reference: the loop never ends. */
  lemma {:induction false} SelfReferenceLoops(n: nat, key: string, f: Facts)
    requires DelimiterFree(key) && f.lookup(key) == Ok(f.prefix + key)
    ensures Iterate(n, f.prefix + key, f) == Unfinished(f.prefix + key)
  {
    SelfTurn(key, f);
    if n > 0 {
      OneTurn(n, f.prefix + key, f);
      SelfReferenceLoops(n - 1, key, f);
    }
  }

  lemma SelfTurn(key: string, f: Facts)
    requires DelimiterFree(key) && f.lookup(key) == Ok(f.prefix + key)
    ensures !Free(f.prefix + key, f.prefix) && Rewrite(f.prefix + key, f) == Ok(f.prefix + key)
  {
    var s := f.prefix + key;
    assert s == f.prefix[..0] + (f.prefix + key);
    OneRef(0, key, f.prefix);
    assert f.prefix[..0] + s + "" == s;
  }

  // ------------------------------------------------ references and delimiters

  lemma CutOfReference(key: string, after: string, p: Prefix)
    requires DelimiterFree(key) && (after == "" || IsDelimiter(after[0]))
    ensures
      var s := p + key + after;
      !Free(s, p) && FirstCut(s, p) == Cut("", key, after)
  {
    var s := p + key + after;
    assert s[0..|p|] == p;
    assert OccursAt(s, p, 0);
    assert FirstRef(s, p) == Some(0);
    var end := |p| + |key|;
    assert forall j | |p| <= j < end :: s[j] == key[j - |p|];
    assert after != "" ==> s[end] == after[0];
    assert EndsAt(s, |p|, end);
    EndIsOne(s, |p|, end, RefEnd(s, |p|));
    assert s[|p|..end] == key && s[end..] == after;
  }

  lemma EndIsOne(s: string, i: nat, e: nat, e': nat)
    requires EndsAt(s, i, e) && EndsAt(s, i, e')
    ensures e == e'
  {
  }

  /** Resolving is done piece by piece: a delimiter keeps what is on its two sides
      apart. It succeeds iff both sides do, and the first failure is the one reported. */
  lemma {:induction false} PassDistributes(a: string, d: char, b: string, f: Facts)
    requires IsDelimiter(d)
    ensures Pass(a + ([d] + b), f)
         == match Pass(a, f)
            case Err(e) => Err(e)
            case Ok(a') => Prepend(a' + [d], Pass(b, f))
    decreases |a|
  {
    if Free(a, f.prefix) {
      PassBehind(a, [d] + b, f);
      DelimiterFirst(d, b, f);
      PrependTwice(a, [d], Pass(b, f));
    } else {
      var c := FirstCut(a, f.prefix);
      var found := f.lookup(c.key);
      PassBefore(a, d, b, f);
      if found.Ok? {
        PassDistributes(c.after, d, b, f);
        PrependBetween(c.before + found.value, Pass(c.after, f), d, Pass(b, f));
      }
    }
  }

  /** Before a delimiter the pass deals with the first reference as if nothing followed. */
  lemma PassBefore(a: string, d: char, b: string, f: Facts)
    requires IsDelimiter(d) && !Free(a, f.prefix)
    ensures
      var c := FirstCut(a, f.prefix);
      match f.lookup(c.key)
      case Err(e) => Pass(a + ([d] + b), f) == Pass(a, f) == Err(Unresolvable(f.prefix + c.key, e))
      case Ok(v) =>
        && Pass(a + ([d] + b), f) == Prepend(c.before + v, Pass(c.after + ([d] + b), f))
        && Pass(a, f) == Prepend(c.before + v, Pass(c.after, f))
  {
    FirstCutBefore(a, d, b, f.prefix);
    if f.lookup(FirstCut(a, f.prefix).key).Ok? {
      PassTurn(a, f);
      PassTurn(a + ([d] + b), f);
    }
  }

  lemma PrependBetween(p: string, a: Result<string, Unresolvable>, d: char, b: Result<string, Unresolvable>)
    ensures a.Ok? ==> Prepend(p, Prepend(a.value + [d], b)) == Prepend(p + a.value + [d], b)
  {
    if a.Ok? {
      PrependTwice(p, a.value + [d], b);
      assert p + (a.value + [d]) == p + a.value + [d];
    }
  }

  /** The pass leaves a reference-free text as it is. */
  lemma PassBehind(a: string, b: string, f: Facts)
    requires Free(a, f.prefix) && Separate(a, b)
    ensures Pass(a + b, f) == Prepend(a, Pass(b, f))
  {
    if Free(b, f.prefix) {
      FirstRefAfter(a, b, f.prefix);
    } else {
      FirstCutAfter(a, b, f.prefix);
      var c := FirstCut(b, f.prefix);
      var found := f.lookup(c.key);
      if found.Ok? {
        PassTurn(b, f);
        PassTurn(a + b, f);
        PrependTwice(a, c.before + found.value, Pass(c.after, f));
        Regroup(a, c.before, found.value, "");
      }
    }
  }

  lemma PassTurn(s: string, f: Facts)
    requires !Free(s, f.prefix) && f.lookup(FirstCut(s, f.prefix).key).Ok?
    ensures
      var c := FirstCut(s, f.prefix);
      Pass(s, f) == Prepend(c.before + f.lookup(c.key).value, Pass(c.after, f))
  {
  }

  /** What follows a delimiter does not touch the reference before it. */
  lemma FirstCutBefore(a: string, d: char, b: string, p: Prefix)
    requires IsDelimiter(d) && !Free(a, p)
    ensures !Free(a + ([d] + b), p)
    ensures FirstCut(a + ([d] + b), p) == FirstCut(a, p).(after := FirstCut(a, p).after + ([d] + b))
  {
    var s := a + ([d] + b);
    var start := FirstRef(a, p).value;
    forall j | j <= start
      ensures OccursAt(s, p, j) <==> OccursAt(a, p, j)
    {
      OccursLeft(a, [d] + b, p, j);
    }
    assert FirstRef(s, p) == Some(start);
    CutBefore(a, d, b, start, |p|);
  }

  lemma CutBefore(a: string, d: char, b: string, start: nat, n: nat)
    requires IsDelimiter(d) && start + n <= |a|
    ensures CutAt(a + ([d] + b), start, n) == CutAt(a, start, n).(after := CutAt(a, start, n).after + ([d] + b))
  {
    var s := a + ([d] + b);
    var end := RefEnd(a, start + n);
    EndBefore(a, d, b, start + n);
    assert s[..start] == a[..start];
    assert s[start + n..end] == a[start + n..end];
    assert s[end..] == a[end..] + ([d] + b);
  }

  lemma EndBefore(a: string, d: char, b: string, i: nat)
    requires IsDelimiter(d) && i <= |a|
    ensures RefEnd(a + ([d] + b), i) == RefEnd(a, i)
  {
    var s := a + ([d] + b);
    assert s[|a|] == d;
    var e := RefEnd(s, i);
    forall j | i <= j < |a|
      ensures s[j] == a[j]
    {
    }
    assert EndsAt(a, i, e);
  }

  lemma FreeDelimiter(d: char, p: Prefix)
    requires IsDelimiter(d)
    ensures Free([d], p)
  {
  }

  lemma DelimiterFirst(d: char, b: string, f: Facts)
    requires IsDelimiter(d)
    ensures Pass([d] + b, f) == Prepend([d], Pass(b, f))
  {
    FreeDelimiter(d, f.prefix);
    PassBehind([d], b, f);
  }
}
