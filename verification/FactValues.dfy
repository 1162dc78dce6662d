/** Resolving references in nested parameters (internal/agent/factref.go): ResolveFacts,
    resolveValue and resolveSlice around resolveString. */
module FactValues {
  import opened Base
  import opened Json
  import opened FactStrings
  import FactRef

  predicate IsOk(outcome: Option<Result<string, Unresolvable>>) {
    outcome.Some? && outcome.value.Ok?
  }

  /** Every string in v can be resolved. */
  ghost predicate Resolvable(v: Value, f: Facts) {
    match v
    case Str(s) => IsOk(Outcome(s, f))
    case Arr(items) => forall i | 0 <= i < |items| :: Resolvable(items[i], f)
    case Obj(fields) => forall k | k in fields :: Resolvable(fields[k], f)
    case _ => true
  }

  /** v with every string resolved that can be. */
  ghost function Resolved(v: Value, f: Facts): Value {
    match v
    case Str(s) => if IsOk(Outcome(s, f)) then Str(Outcome(s, f).value.value) else v
    case Arr(items) => Arr(seq(|items|, i requires 0 <= i < |items| => Resolved(items[i], f)))
    case Obj(fields) => Obj(map k | k in fields :: Resolved(fields[k], f))
    case _ => v
  }

  /** Some string in v cannot be resolved, for the given reason. */
  ghost predicate FailsWith(v: Value, e: Unresolvable, f: Facts) {
    match v
    case Str(s) => Outcome(s, f) == Some(Err(e))
    case Arr(items) => exists i | 0 <= i < |items| :: FailsWith(items[i], e, f)
    case Obj(fields) => exists k | k in fields :: FailsWith(fields[k], e, f)
    case _ => false
  }

  /** The resolution of v ends, in whatever order maps are walked: the loop ends on every
      string that can be reached before a failure. */
  ghost predicate Terminates(v: Value, f: Facts) {
    match v
    case Str(s) => Ends(s, f)
    case Arr(items) =>
      forall i | 0 <= i < |items| && (forall j | 0 <= j < i :: Resolvable(items[j], f)) :: Terminates(items[i], f)
    case Obj(fields) => forall k | k in fields :: Terminates(fields[k], f)
    case _ => true
  }

  /** An outcome that the resolution of v may have. Which of several failures is
      reported depends on the order of the map iteration. */
  ghost predicate Resolves(v: Value, f: Facts, r: Result<Value, Unresolvable>) {
    match r
    case Ok(w) => Resolvable(v, f) && w == Resolved(v, f)
    case Err(e) => FailsWith(v, e, f)
  }

  // ------------------------------------------------------------- the recursion

  /** Nil parameters stay nil. */
  method ResolveFacts(params: Option<map<string, Value>>, f: Facts)
    returns (r: Result<Option<map<string, Value>>, Unresolvable>)
    requires params.Some? ==> Terminates(Obj(params.value), f)
    ensures params.None? ==> r == Ok(None)
    ensures params.Some? && r.Ok? ==> r.value.Some? && Resolves(Obj(params.value), f, Ok(Obj(r.value.value)))
    ensures params.Some? && r.Err? ==> Resolves(Obj(params.value), f, Err(r.error))
  {
    if params.None? {
      return Ok(None);
    }
    var resolved := ResolveFields(params.value, f);
    match resolved
    case Ok(m) => r := Ok(Some(m));
    case Err(e) => r := Err(e);
  }

  /** The map is walked in any order. */
  method ResolveFields(params: map<string, Value>, f: Facts) returns (r: Result<map<string, Value>, Unresolvable>)
    requires Terminates(Obj(params), f)
    ensures r.Ok? ==> Resolves(Obj(params), f, Ok(Obj(r.value)))
    ensures r.Err? ==> Resolves(Obj(params), f, Err(r.error))
    decreases Obj(params), 0
  {
    var result: map<string, Value> := map[];
    var todo := params.Keys;
    while todo != {}
      invariant todo <= params.Keys && result.Keys == params.Keys - todo
      invariant forall k | k in result :: Resolvable(params[k], f) && result[k] == Resolved(params[k], f)
    {
      var k :| k in todo;
      var resolved := ResolveValue(params[k], f);
      if resolved.Err? {
        return Err(resolved.error);
      }
      result := result[k := resolved.value];
      todo := todo - {k};
    }
    assert result == map k | k in params :: Resolved(params[k], f);
    return Ok(result);
  }

  method ResolveValue(v: Value, f: Facts) returns (r: Result<Value, Unresolvable>)
    requires Terminates(v, f)
    ensures Resolves(v, f, r)
    decreases v, 1
  {
    match v
    case Str(s) =>
      var resolved := FactRef.ResolveString(s, f);
      match resolved {
        case Ok(t) => r := Ok(Str(t));
        case Err(e) => r := Err(e);
      }
    case Obj(fields) =>
      var resolved := ResolveFields(fields, f);
      match resolved {
        case Ok(m) => r := Ok(Obj(m));
        case Err(e) => r := Err(e);
      }
    case Arr(items) =>
      var resolved := ResolveSlice(items, f);
      match resolved {
        case Ok(s) => r := Ok(Arr(s));
        case Err(e) => r := Err(e);
      }
    case _ =>
      r := Ok(v);
  }

  method ResolveSlice(items: seq<Value>, f: Facts) returns (r: Result<seq<Value>, Unresolvable>)
    requires Terminates(Arr(items), f)
    ensures r.Ok? ==> Resolves(Arr(items), f, Ok(Arr(r.value)))
    ensures r.Err? ==> Resolves(Arr(items), f, Err(r.error))
    decreases Arr(items), 0
  {
    var result := [];
    for i := 0 to |items|
      invariant |result| == i
      invariant forall j | 0 <= j < i :: Resolvable(items[j], f) && result[j] == Resolved(items[j], f)
    {
      var resolved := ResolveValue(items[i], f);
      if resolved.Err? {
        return Err(resolved.error);
      }
      result := result + [resolved.value];
    }
    assert result == seq(|items|, i requires 0 <= i < |items| => Resolved(items[i], f));
    return Ok(result);
  }

  // --------------------------------------------------- what that means by path

  /** Resolution succeeds exactly when the string at every path can be resolved. */
  lemma {:induction false} ResolvableIffLeaves(v: Value, f: Facts)
    ensures Resolvable(v, f) <==> forall path, s :: At(v, path) == Some(Str(s)) ==> IsOk(Outcome(s, f))
    decreases v
  {
    if Resolvable(v, f) {
      forall path, s | At(v, path) == Some(Str(s))
        ensures IsOk(Outcome(s, f))
      {
        LeafOfResolvable(v, path, f);
      }
    } else {
      var path, s := UnresolvableLeaf(v, f);
    }
  }

  lemma {:induction false} LeafOfResolvable(v: Value, path: Path, f: Facts)
    requires Resolvable(v, f) && At(v, path).Some?
    ensures Resolvable(At(v, path).value, f)
    decreases |path|
  {
    if path == [] {
    } else {
      match (v, path[0])
      case (Obj(fields), Field(key)) => LeafOfResolvable(fields[key], path[1..], f);
      case (Arr(items), Item(index)) => LeafOfResolvable(items[index], path[1..], f);
    }
  }

  lemma {:induction false} UnresolvableLeaf(v: Value, f: Facts) returns (path: Path, s: string)
    requires !Resolvable(v, f)
    ensures At(v, path) == Some(Str(s)) && !IsOk(Outcome(s, f))
    decreases v
  {
    match v
    case Str(t) =>
      path, s := [], t;
    case Obj(fields) =>
      var k :| k in fields && !Resolvable(fields[k], f);
      path, s := UnresolvableLeaf(fields[k], f);
      AtField(fields, k, path);
      path := [Field(k)] + path;
    case Arr(items) =>
      var i :| 0 <= i < |items| && !Resolvable(items[i], f);
      path, s := UnresolvableLeaf(items[i], f);
      AtItem(items, i, path);
      path := [Item(i)] + path;
  }

  /** A resolution that ends succeeds or has a failure to report. */
  lemma {:induction false} ResolvableOrFails(v: Value, f: Facts)
    requires Terminates(v, f)
    ensures !Resolvable(v, f) <==> Fails(v, f)
  {
    if Fails(v, f) {
      var e :| FailsWith(v, e, f);
      var path := FailureIsALeaf(v, e, f);
    }
    if !Resolvable(v, f) {
      var e := SomeFailure(v, f);
    }
  }

  ghost predicate Fails(v: Value, f: Facts) {
    exists e :: FailsWith(v, e, f)
  }

  lemma {:induction false} SomeFailure(v: Value, f: Facts) returns (e: Unresolvable)
    requires Terminates(v, f) && !Resolvable(v, f)
    ensures FailsWith(v, e, f)
    decreases v
  {
    match v
    case Str(s) =>
      e := Outcome(s, f).value.error;
    case Obj(fields) =>
      var k :| k in fields && !Resolvable(fields[k], f);
      e := SomeFailure(fields[k], f);
    case Arr(items) =>
      var i := FirstUnresolvable(items, f);
      e := SomeFailure(items[i], f);
  }

  lemma FirstUnresolvable(items: seq<Value>, f: Facts) returns (i: nat)
    requires !Resolvable(Arr(items), f)
    ensures i < |items| && !Resolvable(items[i], f) && forall j | 0 <= j < i :: Resolvable(items[j], f)
  {
    i := 0;
    while Resolvable(items[i], f)
      invariant i < |items| && forall j | 0 <= j < i :: Resolvable(items[j], f)
      decreases |items| - i
    {
      i := i + 1;
    }
  }

  /** With hygienic facts every resolution ends. */
  lemma {:induction false} HygieneTerminates(v: Value, f: Facts)
    requires Hygienic(f)
    ensures Terminates(v, f)
    decreases v
  {
    match v
    case Str(s) =>
      HygienicOutcome(s, f);
    case Obj(fields) =>
      forall k | k in fields
        ensures Terminates(fields[k], f)
      {
        HygieneTerminates(fields[k], f);
      }
    case Arr(items) =>
      forall i | 0 <= i < |items|
        ensures Terminates(items[i], f)
      {
        HygieneTerminates(items[i], f);
      }
    case _ =>
  }

  /** A reported failure is the failure of some string in the value. */
  lemma {:induction false} FailureIsALeaf(v: Value, e: Unresolvable, f: Facts) returns (path: Path)
    requires FailsWith(v, e, f)
    ensures !Resolvable(v, f)
    ensures At(v, path).Some? && At(v, path).value.Str? && Outcome(At(v, path).value.s, f) == Some(Err(e))
    decreases v
  {
    match v
    case Str(s) =>
      path := [];
    case Obj(fields) =>
      var k :| k in fields && FailsWith(fields[k], e, f);
      var rest := FailureIsALeaf(fields[k], e, f);
      AtField(fields, k, rest);
      path := [Field(k)] + rest;
    case Arr(items) =>
      var i :| 0 <= i < |items| && FailsWith(items[i], e, f);
      var rest := FailureIsALeaf(items[i], e, f);
      AtItem(items, i, rest);
      path := [Item(i)] + rest;
  }

  /** At every path the resolved value has what the original has there, resolved: the
      same keys, the same length, the resolved string, or the very same leaf. */
  lemma {:induction false} ResolvedAt(v: Value, path: Path, f: Facts)
    requires Resolvable(v, f)
    ensures match At(v, path)
            case None => At(Resolved(v, f), path).None?
            case Some(Str(s)) =>
              IsOk(Outcome(s, f)) && At(Resolved(v, f), path) == Some(Str(Outcome(s, f).value.value))
            case Some(Obj(fields)) =>
              && At(Resolved(v, f), path).Some? && At(Resolved(v, f), path).value.Obj?
              && At(Resolved(v, f), path).value.fields.Keys == fields.Keys
            case Some(Arr(items)) =>
              && At(Resolved(v, f), path).Some? && At(Resolved(v, f), path).value.Arr?
              && |At(Resolved(v, f), path).value.items| == |items|
            case Some(leaf) => At(Resolved(v, f), path) == Some(leaf)
    decreases |path|
  {
    if path == [] {
    } else {
      match (v, path[0])
      case (Obj(fields), Field(key)) =>
        if key in fields {
          ResolvedAt(fields[key], path[1..], f);
        }
      case (Arr(items), Item(index)) =>
        if index < |items| {
          ResolvedAt(items[index], path[1..], f);
        }
      case _ =>
    }
  }

  /** Resolving a resolved value changes nothing. */
  lemma {:induction false} ResolvingTwice(v: Value, f: Facts)
    requires Resolvable(v, f)
    ensures Resolvable(Resolved(v, f), f) && Resolved(Resolved(v, f), f) == Resolved(v, f)
    decreases v
  {
    match v
    case Str(s) =>
      OutcomeIsFree(s, f);
    case Obj(fields) =>
      forall k | k in fields
        ensures Resolvable(Resolved(fields[k], f), f) && Resolved(Resolved(fields[k], f), f) == Resolved(fields[k], f)
      {
        ResolvingTwice(fields[k], f);
      }
    case Arr(items) =>
      forall i | 0 <= i < |items|
        ensures Resolvable(Resolved(items[i], f), f) && Resolved(Resolved(items[i], f), f) == Resolved(items[i], f)
      {
        ResolvingTwice(items[i], f);
      }
    case _ =>
  }
}
