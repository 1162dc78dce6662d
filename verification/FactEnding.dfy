/**
 When the rewriting loop of resolveString ends (internal/agent/factref.go:101-122), with
 facts that need not be hygienic.
 */
module FactEnding {
  import opened Base
  import opened Text
  import opened FactStrings

  // --------------------------------------------------- the loop, piece by piece

  lemma {:induction false} IterateMore(n: nat, m: nat, s: string, f: Facts)
    requires Iterate(n, s, f).Finished? && n <= m
    ensures Iterate(m, s, f) == Iterate(n, s, f)
  {
    if Free(s, f.prefix) || Rewrite(s, f).Err? {
    } else {
      IterateMore(n - 1, m - 1, Rewrite(s, f).value, f);
    }
  }

  lemma StillUnfinished(n: nat, m: nat, s: string, f: Facts)
    requires n <= m
    ensures Iterate(m, s, f).Unfinished? ==> Iterate(n, s, f).Unfinished?
  {
    if Iterate(n, s, f).Finished? {
      IterateMore(n, m, s, f);
    }
  }

  /** What follows a delimiter does not touch the turn before it. */
  lemma RewriteBefore(a: string, d: char, b: string, f: Facts)
    requires IsDelimiter(d) && !Free(a, f.prefix)
    ensures !Free(a + ([d] + b), f.prefix)
    ensures Rewrite(a, f).Err? ==> Rewrite(a + ([d] + b), f) == Rewrite(a, f)
    ensures Rewrite(a, f).Ok? ==> Rewrite(a + ([d] + b), f) == Ok(Rewrite(a, f).value + ([d] + b))
  {
    FirstCutBefore(a, d, b, f.prefix);
    var c := FirstCut(a, f.prefix);
    var found := f.lookup(c.key);
    if found.Ok? {
      assert c.before + found.value + (c.after + ([d] + b)) == c.before + found.value + c.after + ([d] + b);
    }
  }

  /** As long as the left side is not done, or when it fails, the loop does with the whole
      what it does with the left side. */
  lemma {:induction false} LeftSide(n: nat, a: string, d: char, b: string, f: Facts)
    requires IsDelimiter(d)
    ensures Iterate(n, a, f).Unfinished? ==> Iterate(n, a + ([d] + b), f).Unfinished?
    ensures Iterate(n, a, f).Finished? && Iterate(n, a, f).result.Err? ==>
      Iterate(n, a + ([d] + b), f) == Iterate(n, a, f)
  {
    if Free(a, f.prefix) {
    } else {
      RewriteBefore(a, d, b, f);
      if n > 0 && Rewrite(a, f).Ok? {
        LeftSide(n - 1, Rewrite(a, f).value, d, b, f);
      }
    }
  }

  /** When the left side is done after some turns, the whole is where the right side starts. */
  lemma {:induction false} LeftSideDone(n: nat, m: nat, a: string, a': string, d: char, b: string, f: Facts)
    returns (turns: nat)
    requires IsDelimiter(d) && Iterate(n, a, f) == Finished(Ok(a'))
    ensures Iterate(turns + m, a + ([d] + b), f) == Iterate(m, a' + ([d] + b), f)
    decreases n
  {
    if Free(a, f.prefix) {
      turns := 0;
    } else {
      var t, less := LeftTurn(n, a, d, b, f);
      var more := LeftSideDone(less, m, t, a', d, b, f);
      turns := more + 1;
      WholeTurn(more + m, a + ([d] + b), t + ([d] + b), f);
    }
  }

  lemma WholeTurn(n: nat, s: string, t: string, f: Facts)
    requires !Free(s, f.prefix) && Rewrite(s, f) == Ok(t)
    ensures Iterate(n + 1, s, f) == Iterate(n, t, f)
  {
  }

  /** One turn on the left side is one turn on the whole. */
  lemma LeftTurn(n: nat, a: string, d: char, b: string, f: Facts) returns (t: string, less: nat)
    requires IsDelimiter(d) && !Free(a, f.prefix)
    requires Iterate(n, a, f).Finished? && Iterate(n, a, f).result.Ok?
    ensures less < n && Iterate(n, a, f) == Iterate(less, t, f)
    ensures !Free(a + ([d] + b), f.prefix) && Rewrite(a + ([d] + b), f) == Ok(t + ([d] + b))
  {
    RewriteBefore(a, d, b, f);
    t, less := Rewrite(a, f).value, n - 1;
  }

  /** Behind resolved text that ends in a delimiter the loop does what it does alone. */
  lemma {:induction false} RightSide(n: nat, done: string, b: string, f: Facts)
    requires Free(done, f.prefix) && done != "" && IsDelimiter(done[|done| - 1])
    ensures Iterate(n, done + b, f) == Behind(done, Iterate(n, b, f))
  {
    if Free(b, f.prefix) {
      FirstRefAfter(done, b, f.prefix);
    } else {
      RewriteAfter(done, b, f);
      if n > 0 && Rewrite(b, f).Ok? {
        RightSide(n - 1, done, Rewrite(b, f).value, f);
      }
    }
  }

  lemma FreeWithDelimiter(a: string, d: char, f: Facts)
    requires IsDelimiter(d) && Free(a, f.prefix)
    ensures Free(a + [d], f.prefix)
  {
    FreeDelimiter(d, f.prefix);
    FirstRefAfter(a, [d], f.prefix);
  }

  /** What the loop makes of two sides of a delimiter, from what it makes of each. */
  ghost function Joined(left: Option<Result<string, Unresolvable>>, d: char,
                        right: Option<Result<string, Unresolvable>>): Option<Result<string, Unresolvable>> {
    if left.None? || left.value.Err? then left
    else if right.None? then None
    else Some(Prepend(left.value.value + [d], right.value))
  }

  /** Whatever the facts, a delimiter keeps its two sides apart in the loop too: the whole
      ends if the left side fails, or ends and the right side ends. */
  lemma LoopDistributes(a: string, d: char, b: string, f: Facts)
    requires IsDelimiter(d)
    ensures Outcome(a + ([d] + b), f) == Joined(Outcome(a, f), d, Outcome(b, f))
  {
    var whole := a + ([d] + b);
    if !Ends(a, f) {
      forall n: nat
        ensures Iterate(n, whole, f).Unfinished?
      {
        LeftSide(n, a, d, b, f);
      }
    } else {
      var n: nat :| Iterate(n, a, f).Finished?;
      OutcomeAt(n, a, Iterate(n, a, f).result, f);
      if Outcome(a, f).value.Err? {
        LeftSide(n, a, d, b, f);
        OutcomeAt(n, whole, Outcome(a, f).value, f);
      } else {
        LeftSucceeds(n, a, Outcome(a, f).value.value, d, b, f);
      }
    }
  }

  lemma LeftSucceeds(n: nat, a: string, a': string, d: char, b: string, f: Facts)
    requires IsDelimiter(d) && Iterate(n, a, f) == Finished(Ok(a'))
    ensures Outcome(a + ([d] + b), f) == if Ends(b, f) then Some(Prepend(a' + [d], Outcome(b, f).value)) else None
  {
    var whole := a + ([d] + b);
    if Ends(b, f) {
      var m: nat :| Iterate(m, b, f).Finished?;
      OutcomeAt(m, b, Iterate(m, b, f).result, f);
      var total := RightSideOf(n, m, a, a', d, b, f);
      OutcomeAt(total, whole, Prepend(a' + [d], Outcome(b, f).value), f);
    } else {
      forall m: nat
        ensures Iterate(m, whole, f).Unfinished?
      {
        OutcomeAt(n, a, Ok(a'), f);
        WholeUnfinished(m, a, d, b, f);
      }
    }
  }

  /** Where the loop is on a text behind other text that is done. */
  function Behind(done: string, progress: Progress): Progress {
    match progress
    case Unfinished(t) => Unfinished(done + t)
    case Finished(r) => Finished(Prepend(done, r))
  }

  /** Once the left side has succeeded, the whole follows the right side. */
  lemma RightSideOf(n: nat, m: nat, a: string, a': string, d: char, b: string, f: Facts) returns (total: nat)
    requires IsDelimiter(d) && Iterate(n, a, f) == Finished(Ok(a'))
    ensures total >= m && Iterate(total, a + ([d] + b), f) == Behind(a' + [d], Iterate(m, b, f))
  {
    assert a' + ([d] + b) == a' + [d] + b;
    DoneLeft(n, a, a', d, f);
    RightSide(m, a' + [d], b, f);
    var turns := LeftSideDone(n, m, a, a', d, b, f);
    total := turns + m;
  }

  lemma DoneLeft(n: nat, a: string, a': string, d: char, f: Facts)
    requires IsDelimiter(d) && Iterate(n, a, f) == Finished(Ok(a'))
    ensures Free(a' + [d], f.prefix)
  {
    FinishedIsFree(n, a, f);
    FreeWithDelimiter(a', d, f);
  }

  // ------------------------------------------- values that complete no reference

  /** v begins with no end of the prefix, so that text before it completes none. */
  ghost predicate Inert(v: string, p: Prefix) {
    forall i | 1 <= i < |p| :: !(p[i..] <= v)
  }

  /** The values may hold references, of which the text around them becomes no part. */
  ghost predicate InertFacts(f: Facts) {
    forall key :: DelimiterFree(key) && f.lookup(key).Ok? ==> Inert(f.lookup(key).value, f.prefix)
  }

  /** A text that begins with the prefix begins with no end of it. */
  lemma ReferenceIsInert(rest: string, p: Prefix)
    ensures Inert(p + rest, p)
  {
    forall i | 1 <= i < |p|
      ensures !(p[i..] <= p + rest)
    {
      assert p[i..][0] == p[i] && (p + rest)[0] == p[0];
    }
  }

  lemma FirstRefInert(u: string, x: string, p: Prefix)
    requires Free(u, p) && Inert(x, p)
    ensures FirstRef(u + x, p) == match FirstRef(x, p) case None => None case Some(i) => Some(|u| + i)
  {
    var r := FirstRef(u + x, p);
    if r.Some? {
      if r.value + |p| <= |u| {
        OccursLeft(u, x, p, r.value);
      } else if r.value < |u| {
        OccursAcross(u, x, p, r.value);
      } else {
        OccursRight(u, x, p, r.value);
      }
    }
    var rx := FirstRef(x, p);
    if rx.Some? {
      OccursRight(u, x, p, |u| + rx.value);
    }
  }

  lemma RewriteBehind(u: string, x: string, f: Facts)
    requires Free(u, f.prefix) && Inert(x, f.prefix) && !Free(x, f.prefix)
    ensures !Free(u + x, f.prefix) && Rewrite(u + x, f) == Prepend(u, Rewrite(x, f))
  {
    FirstCutBehind(u, x, f.prefix);
    var c := FirstCut(x, f.prefix);
    var found := f.lookup(c.key);
    if found.Ok? {
      Regroup(u, c.before, found.value, c.after);
    }
  }

  /** In the open: any text without a reference, one reference, and nothing or a delimiter
      behind it. The pass puts the value in the reference's place and goes on behind. */
  lemma PassAtReference(before: string, key: string, after: string, f: Facts)
    requires Free(before, f.prefix) && DelimiterFree(key) && (after == "" || IsDelimiter(after[0]))
    ensures
      var found := f.lookup(key);
      Pass(before + (f.prefix + key + after), f)
      == if found.Err? then Err(Unresolvable(f.prefix + key, found.error))
         else Prepend(before + found.value, Pass(after, f))
  {
    CutAtReference(before, key, after, f.prefix);
    PassByCut(before + (f.prefix + key + after), Cut(before, key, after), f);
  }

  lemma CutAtReference(before: string, key: string, after: string, p: Prefix)
    requires Free(before, p) && DelimiterFree(key) && (after == "" || IsDelimiter(after[0]))
    ensures
      var s := before + (p + key + after);
      !Free(s, p) && FirstCut(s, p) == Cut(before, key, after)
  {
    var rest := p + key + after;
    assert rest == p + (key + after);
    assert before + "" == before;
    ReferenceIsInert(key + after, p);
    CutOfReference(key, after, p);
    FirstCutBehind(before, rest, p);
  }

  lemma FirstCutBehind(u: string, x: string, p: Prefix)
    requires Free(u, p) && Inert(x, p) && !Free(x, p)
    ensures !Free(u + x, p) && FirstCut(u + x, p) == FirstCut(x, p).(before := u + FirstCut(x, p).before)
  {
    FirstRefInert(u, x, p);
    CutAfter(u, x, FirstRef(x, p).value, |p|);
  }

  lemma PassByCut(s: string, c: Cut, f: Facts)
    requires !Free(s, f.prefix) && FirstCut(s, f.prefix) == c
    ensures
      var found := f.lookup(c.key);
      Pass(s, f) == if found.Err? then Err(Unresolvable(f.prefix + c.key, found.error))
                    else Prepend(c.before + found.value, Pass(c.after, f))
  {
  }

  /** A prefix of two texts is one of the first, or the first and a prefix of the second. */
  lemma PrefixOfTwo(q: string, v: string, w: string)
    requires q <= v + w
    ensures if |q| <= |v| then q <= v else q[|v|..] <= w && w != "" && q[|v|] == w[0]
  {
    if |q| <= |v| {
      assert q == (v + w)[..|q|] == v[..|q|];
    } else {
      assert q[|v|..] == (v + w)[|v|..|q|] == w[..|q| - |v|];
      assert q[|v|] == q[|v|..][0];
    }
  }

  /** A value and what stands behind its reference. */
  lemma InertThenDelimiter(v: string, after: string, p: Prefix)
    requires Inert(v, p) && (after == "" || IsDelimiter(after[0]))
    ensures Inert(v + after, p)
  {
    forall i | 1 <= i < |p|
      ensures !(p[i..] <= v + after)
    {
      var q := p[i..];
      assert forall k | 0 <= k < |q| :: q[k] == p[i + k];
      if q <= v + after {
        PrefixOfTwo(q, v, after);
      }
    }
  }

  lemma InertThenInert(u: string, x: string, y: string, p: Prefix)
    requires Inert(u + x, p) && Inert(y, p)
    ensures Inert(u + y, p)
  {
    forall i | 1 <= i < |p|
      ensures !(p[i..] <= u + y)
    {
      var q := p[i..];
      assert q <= u ==> q <= u + x;
      assert |u| < |q| ==> q[|u|..] == p[i + |u|..];
      if q <= u + y {
        PrefixOfTwo(q, u, y);
      }
    }
  }

  lemma RewriteKeepsInert(x: string, f: Facts)
    requires InertFacts(f) && Inert(x, f.prefix) && !Free(x, f.prefix) && Rewrite(x, f).Ok?
    ensures Inert(Rewrite(x, f).value, f.prefix)
  {
    var c := FirstCut(x, f.prefix);
    var v := f.lookup(c.key).value;
    InertThenDelimiter(v, c.after, f.prefix);
    CutIsWhole(x, f.prefix);
    assert x == c.before + (f.prefix + c.key + c.after);
    InertThenInert(c.before, f.prefix + c.key + c.after, v + c.after, f.prefix);
    assert c.before + (v + c.after) == c.before + v + c.after;
  }

  lemma CutIsWhole(s: string, p: Prefix)
    requires !Free(s, p)
    ensures
      var c := FirstCut(s, p);
      s == c.before + (p + c.key + c.after)
  {
    var start := FirstRef(s, p).value;
    assert s[start..start + |p|] == p;
  }

  /** Text before an inert one stands aside for good. */
  lemma {:induction false} StandsAside(n: nat, u: string, x: string, f: Facts)
    requires InertFacts(f) && Free(u, f.prefix) && Inert(x, f.prefix)
    ensures Iterate(n, u + x, f).Finished? <==> Iterate(n, x, f).Finished?
  {
    if Free(x, f.prefix) {
      FirstRefInert(u, x, f.prefix);
    } else {
      RewriteBehind(u, x, f);
      if n > 0 && Rewrite(x, f).Ok? {
        RewriteKeepsInert(x, f);
        StandsAside(n - 1, u, Rewrite(x, f).value, f);
      }
    }
  }

  // --------------------------------------------------------- chains of references

  /** The keys of the references in s, from left to right. */
  ghost function KeysOf(s: string, p: Prefix): seq<string>
    decreases |s|
  {
    if Free(s, p) then [] else [FirstCut(s, p).key] + KeysOf(FirstCut(s, p).after, p)
  }

  ghost predicate Succeeds(key: string, f: Facts) {
    Outcome(f.prefix + key, f).Some? && Outcome(f.prefix + key, f).value.Ok?
  }

  /** The i-th reference of s is one for key, and those before it can be resolved. */
  ghost predicate ReachedAt(s: string, i: nat, key: string, f: Facts) {
    var keys := KeysOf(s, f.prefix);
    i < |keys| && keys[i] == key && forall j | 0 <= j < i :: Succeeds(keys[j], f)
  }

  /** Resolving the one key leads to resolving the other. */
  ghost predicate Reaches(key: string, key': string, f: Facts) {
    DelimiterFree(key) && f.lookup(key).Ok? && exists i: nat :: ReachedAt(f.lookup(key).value, i, key', f)
  }

  /** A text with a reference, taken apart: the text before it, the reference, and behind
      it nothing or a delimiter and the rest. */
  lemma Apart(n: nat, s: string, f: Facts)
    requires InertFacts(f) && !Free(s, f.prefix)
    ensures
      var c := FirstCut(s, f.prefix);
      Iterate(n, s, f).Finished? <==> Iterate(n, f.prefix + c.key + c.after, f).Finished?
  {
    var c := FirstCut(s, f.prefix);
    CutIsWhole(s, f.prefix);
    FreeBefore(s, f.prefix);
    ReferenceIsInert(c.key + c.after, f.prefix);
    assert f.prefix + (c.key + c.after) == f.prefix + c.key + c.after;
    StandsAside(n, c.before, f.prefix + c.key + c.after, f);
  }

  /** Whoever resolves a text in n turns resolves each reference it reaches in n turns. */
  lemma {:induction false} ReachedEnds(n: nat, s: string, i: nat, key: string, f: Facts)
    requires InertFacts(f) && ReachedAt(s, i, key, f) && Iterate(n, s, f).Finished?
    ensures Iterate(n, f.prefix + key, f).Finished?
    decreases i
  {
    var c := FirstCut(s, f.prefix);
    Apart(n, s, f);
    if i == 0 {
      FirstEnds(n, c.key, c.after, f);
    } else {
      ReachedInRest(s, i, key, f);
      RestEnds(n, f.prefix + c.key, c.after, f);
      ReachedEnds(n, c.after, i - 1, key, f);
    }
  }

  lemma FirstEnds(n: nat, key: string, after: string, f: Facts)
    requires Iterate(n, f.prefix + key + after, f).Finished? && (after == "" || IsDelimiter(after[0]))
    ensures Iterate(n, f.prefix + key, f).Finished?
  {
    if after == "" {
      assert f.prefix + key + after == f.prefix + key;
    } else {
      assert after == [after[0]] + after[1..];
      LeftSide(n, f.prefix + key, after[0], after[1..], f);
    }
  }

  lemma ReachedInRest(s: string, i: nat, key: string, f: Facts)
    requires i > 0 && ReachedAt(s, i, key, f)
    ensures
      var c := FirstCut(s, f.prefix);
      c.after != "" && Succeeds(c.key, f) && ReachedAt(c.after, i - 1, key, f)
  {
    var c := FirstCut(s, f.prefix);
    var keys, rest := KeysOf(s, f.prefix), KeysOf(c.after, f.prefix);
    assert keys == [c.key] + rest;
    assert keys[0] == c.key && keys[i] == rest[i - 1];
    forall j | 0 <= j < i - 1
      ensures Succeeds(rest[j], f)
    {
      assert rest[j] == keys[j + 1];
    }
    NoKeys(f.prefix);
  }

  lemma NoKeys(p: Prefix)
    ensures KeysOf("", p) == []
  {
    assert Free("", p);
  }

  lemma RestEnds(n: nat, a: string, after: string, f: Facts)
    requires after != "" && IsDelimiter(after[0]) && Outcome(a, f).Some? && Outcome(a, f).value.Ok?
    requires Iterate(n, a + after, f).Finished?
    ensures Iterate(n, after, f).Finished?
  {
    var d, b := after[0], after[1..];
    assert after == [d] + b;
    BehindDelimiter(n, d, b, f);
    if Iterate(n, b, f).Unfinished? {
      WholeUnfinished(n, a, d, b, f);
    }
  }

  lemma BehindDelimiter(n: nat, d: char, b: string, f: Facts)
    requires IsDelimiter(d)
    ensures Iterate(n, [d] + b, f).Finished? <==> Iterate(n, b, f).Finished?
  {
    FreeDelimiter(d, f.prefix);
    RightSide(n, [d], b, f);
  }

  lemma WholeUnfinished(n: nat, a: string, d: char, b: string, f: Facts)
    requires IsDelimiter(d) && Outcome(a, f).Some? && Outcome(a, f).value.Ok? && Iterate(n, b, f).Unfinished?
    ensures Iterate(n, a + ([d] + b), f).Unfinished?
  {
    var m: nat :| Iterate(m, a, f).Finished?;
    OutcomeAt(m, a, Iterate(m, a, f).result, f);
    var total := RightSideOf(m, n, a, Outcome(a, f).value.value, d, b, f);
    StillUnfinished(n, total, a + ([d] + b), f);
  }

  /** A text ends if every reference it reaches does. */
  lemma {:induction false} EndsIfReachedEnd(s: string, f: Facts)
    requires InertFacts(f)
    requires forall i: nat, key | ReachedAt(s, i, key, f) :: Ends(f.prefix + key, f)
    ensures Ends(s, f)
    decreases |s|
  {
    if Free(s, f.prefix) {
      assert Iterate(0, s, f).Finished?;
    } else {
      var c := FirstCut(s, f.prefix);
      var reference := f.prefix + c.key;
      assert ReachedAt(s, 0, c.key, f);
      if c.after == "" {
        assert reference + c.after == reference;
      } else if Succeeds(c.key, f) {
        forall i: nat, key | ReachedAt(c.after, i, key, f)
          ensures Ends(f.prefix + key, f)
        {
          ReachedBehind(s, i, key, f);
        }
        EndsIfReachedEnd(c.after, f);
      }
      BothEnd(c.key, c.after, f);
      var n: nat :| Iterate(n, reference + c.after, f).Finished?;
      Apart(n, s, f);
    }
  }

  lemma ReachedBehind(s: string, i: nat, key: string, f: Facts)
    requires !Free(s, f.prefix) && Succeeds(FirstCut(s, f.prefix).key, f)
    requires ReachedAt(FirstCut(s, f.prefix).after, i, key, f)
    ensures ReachedAt(s, i + 1, key, f)
  {
    var after := KeysOf(FirstCut(s, f.prefix).after, f.prefix);
    var keys := KeysOf(s, f.prefix);
    assert keys == [FirstCut(s, f.prefix).key] + after;
    forall j | 0 <= j < i + 1
      ensures Succeeds(keys[j], f)
    {
      if j > 0 {
        assert keys[j] == after[j - 1];
      }
    }
  }

  lemma BothEnd(key: string, after: string, f: Facts)
    requires Ends(f.prefix + key, f) && (after == "" || IsDelimiter(after[0]))
    requires Succeeds(key, f) ==> after == "" || Ends(after, f)
    ensures Ends(f.prefix + key + after, f)
  {
    var reference := f.prefix + key;
    if after == "" {
      assert reference + after == reference;
    } else {
      var d, b := after[0], after[1..];
      assert after == [d] + b;
      LoopDistributes(reference, d, b, f);
      if Succeeds(key, f) {
        var n: nat :| Iterate(n, after, f).Finished?;
        BehindDelimiter(n, d, b, f);
      }
    }
  }

  // ----------------------------------------------------- the loop ends everywhere

  /** The number goes down along every chain of references. */
  ghost predicate Ranks(rank: string -> nat, f: Facts) {
    forall key, key' | Reaches(key, key', f) :: rank(key') < rank(key)
  }

  /** How many turns the loop takes on s, if it ends. */
  ghost function Turns(s: string, f: Facts): (n: nat)
    ensures Ends(s, f) ==> Iterate(n, s, f).Finished? && forall m: nat | m < n :: Iterate(m, s, f).Unfinished?
  {
    if Ends(s, f) then
      var n: nat :| Iterate(n, s, f).Finished?;
      Least(n, s, f)
    else 0
  }

  ghost function Least(n: nat, s: string, f: Facts): (least: nat)
    requires Iterate(n, s, f).Finished?
    ensures Iterate(least, s, f).Finished? && forall m: nat | m < least :: Iterate(m, s, f).Unfinished?
  {
    if m: nat :| m < n && Iterate(m, s, f).Finished? then Least(m, s, f) else n
  }

  /** A reference takes one turn more than its value. */
  lemma ReferenceTurn(n: nat, key: string, f: Facts)
    requires DelimiterFree(key)
    ensures !Free(f.prefix + key, f.prefix)
    ensures f.lookup(key).Err? ==> Iterate(n + 1, f.prefix + key, f).Finished?
    ensures f.lookup(key).Ok? ==> Iterate(n + 1, f.prefix + key, f) == Iterate(n, f.lookup(key).value, f)
  {
    assert f.prefix[..0] + (f.prefix + key) == f.prefix + key;
    OneRef(0, key, f.prefix);
    var found := f.lookup(key);
    if found.Ok? {
      assert f.prefix[..0] + found.value + "" == found.value;
    }
  }

  /** A reference fails if its key has no value, and otherwise is what its value comes to. */
  lemma ReferenceIsItsValue(key: string, f: Facts)
    requires DelimiterFree(key)
    ensures
      var found := f.lookup(key);
      Outcome(f.prefix + key, f)
      == if found.Err? then Some(Err(Unresolvable(f.prefix + key, found.error))) else Outcome(found.value, f)
  {
    var s, found := f.prefix + key, f.lookup(key);
    ReferenceTurn(0, key, f);
    if found.Err? {
      assert f.prefix[..0] + s == s;
      OneRef(0, key, f.prefix);
      OutcomeAt(1, s, Err(Unresolvable(s, found.error)), f);
    } else if Ends(found.value, f) {
      var n: nat :| Iterate(n, found.value, f).Finished?;
      var r := Iterate(n, found.value, f).result;
      OutcomeAt(n, found.value, r, f);
      ReferenceTurn(n, key, f);
      OutcomeAt(n + 1, s, r, f);
    } else {
      forall n: nat
        ensures Iterate(n, s, f).Unfinished?
      {
        if Iterate(n, s, f).Finished? {
          var less := ValueEnds(n, key, found.value, f);
        }
      }
    }
  }

  lemma {:induction false} KeysAreKeys(s: string, i: nat, p: Prefix)
    requires i < |KeysOf(s, p)|
    ensures DelimiterFree(KeysOf(s, p)[i])
    decreases i
  {
    if i == 0 {
    } else {
      KeysAreKeys(FirstCut(s, p).after, i - 1, p);
    }
  }

  lemma TurnsGoDown(key: string, key': string, f: Facts)
    requires InertFacts(f) && Reaches(key, key', f)
    requires Ends(f.prefix + key, f) && Ends(f.prefix + key', f)
    ensures Turns(f.prefix + key', f) < Turns(f.prefix + key, f)
  {
    var v := f.lookup(key).value;
    var less := ValueEnds(Turns(f.prefix + key, f), key, v, f);
    var i: nat :| ReachedAt(v, i, key', f);
    ReachedEnds(less, v, i, key', f);
    AtMost(less, f.prefix + key', f);
  }

  lemma ValueEnds(n: nat, key: string, v: string, f: Facts) returns (less: nat)
    requires DelimiterFree(key) && f.lookup(key) == Ok(v) && Iterate(n, f.prefix + key, f).Finished?
    ensures less < n && Iterate(less, v, f).Finished?
  {
    ReferenceTurn(0, key, f);
    less := n - 1;
    ReferenceTurn(less, key, f);
  }

  lemma AtMost(n: nat, s: string, f: Facts)
    requires Iterate(n, s, f).Finished?
    ensures Turns(s, f) <= n
  {
  }

  lemma {:induction false} EndsByRank(key: string, rank: string -> nat, f: Facts)
    requires InertFacts(f) && Ranks(rank, f) && DelimiterFree(key)
    ensures Ends(f.prefix + key, f)
    decreases rank(key)
  {
    if f.lookup(key).Err? {
      ReferenceTurn(0, key, f);
    } else {
      var v := f.lookup(key).value;
      forall i: nat, key' | ReachedAt(v, i, key', f)
        ensures Ends(f.prefix + key', f)
      {
        assert Reaches(key, key', f);
        KeysAreKeys(v, i, f.prefix);
        EndsByRank(key', rank, f);
      }
      EndsIfReachedEnd(v, f);
      var n: nat :| Iterate(n, v, f).Finished?;
      ReferenceTurn(n, key, f);
    }
  }

  /** With inert values, which may hold references, the loop ends on every string exactly
      if no chain of references goes on for ever. */
  lemma EndsIffNoEndlessChain(f: Facts)
    requires InertFacts(f)
    ensures (forall s :: Ends(s, f)) <==> exists rank :: Ranks(rank, f)
  {
    if forall s :: Ends(s, f) {
      var rank: string -> nat := key => Turns(f.prefix + key, f);
      forall key, key' | Reaches(key, key', f)
        ensures rank(key') < rank(key)
      {
        TurnsGoDown(key, key', f);
      }
      assert Ranks(rank, f);
    }
    if rank :| Ranks(rank, f) {
      forall s
        ensures Ends(s, f)
      {
        forall i: nat, key | ReachedAt(s, i, key, f)
          ensures Ends(f.prefix + key, f)
        {
          KeysAreKeys(s, i, f.prefix);
          EndsByRank(key, rank, f);
        }
        EndsIfReachedEnd(s, f);
      }
    }
  }

  /** Without inert values no chain is needed: two values that complete each other's
      reference keep the loop going, though the one that b reaches holds none. */
  lemma {:induction false} CompletedReferencesLoop(n: nat, i: nat, a: string, b: string, f: Facts)
    requires 1 <= i < |f.prefix| && DelimiterFree(a) && DelimiterFree(b)
    requires f.lookup(a) == Ok(f.prefix[i..] + b)
    requires f.lookup(b) == Ok(f.prefix[..i] + (f.prefix + a))
    ensures Iterate(n, f.prefix + b, f).Unfinished?
    decreases n
  {
    TwoTurns(i, a, b, f);
    if n == 0 {
    } else {
      OneTurn(n, f.prefix + b, f);
      if n > 1 {
        OneTurn(n - 1, f.prefix[..i] + (f.prefix + a), f);
        CompletedReferencesLoop(n - 2, i, a, b, f);
      }
    }
  }

  lemma TwoTurns(i: nat, a: string, b: string, f: Facts)
    requires 1 <= i < |f.prefix| && DelimiterFree(a) && DelimiterFree(b)
    requires f.lookup(a) == Ok(f.prefix[i..] + b)
    requires f.lookup(b) == Ok(f.prefix[..i] + (f.prefix + a))
    ensures
      var s, t := f.prefix + b, f.prefix[..i] + (f.prefix + a);
      && !Free(s, f.prefix) && Rewrite(s, f) == Ok(t)
      && !Free(t, f.prefix) && Rewrite(t, f) == Ok(s)
  {
    var p := f.prefix;
    var s, t := p + b, p[..i] + (p + a);
    assert p[..0] + (p + b) == s;
    assert p[..0] + t + "" == t;
    assert p[..i] + (p[i..] + b) + "" == s;
    OneRef(0, b, p);
    OneRef(i, a, p);
  }
}
