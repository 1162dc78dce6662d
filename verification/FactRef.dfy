/**
 Resolving @fact.X references in job parameters (internal/agent/factref.go): the
 facts a reference can name, and the rewriting loop over a string.
 */
module FactRef {
  import opened Base
  import opened Text
  import opened FactStrings
  import FactEnding

  /** facts.Prefix and facts.CustomPrefix. */
  const FACT_PREFIX: string := "@fact."
  const CUSTOM_PREFIX: string := "custom."

  datatype FactsRegistration = FactsRegistration(
    primaryInterface: string,
    architecture: string,
    kernelVersion: string,
    fqdn: string,
    containerized: bool,
    facts: map<string, string>)

  function SetOr(value: string, key: string): Result<string, FactError> {
    if value == "" then Err(NotSet(key)) else Ok(value)
  }

  predicate IsCustomKey(key: string) {
    CUSTOM_PREFIX <= key && |key| > |CUSTOM_PREFIX|
  }

  function LookupFact(key: string, registration: Option<FactsRegistration>, hostname: string)
    : Result<string, FactError>
  {
    match registration
    case None => Err(FactsNotAvailable)
    case Some(r) =>
      if key == "interface.primary" then SetOr(r.primaryInterface, key)
      else if key == "hostname" then SetOr(hostname, key)
      else if key == "arch" then SetOr(r.architecture, key)
      else if key == "os" then Err(OsNotAvailable)
      else if key == "kernel" then SetOr(r.kernelVersion, key)
      else if key == "fqdn" then SetOr(r.fqdn, key)
      else if key == "containerized" then Ok(if r.containerized then "true" else "false")
      else if IsCustomKey(key) then LookupCustom(key[|CUSTOM_PREFIX|..], r.facts)
      else Err(UnknownKey(key))
  }

  function LookupCustom(customKey: string, facts: map<string, string>): Result<string, FactError> {
    if customKey in facts then Ok(facts[customKey]) else Err(CustomNotFound(customKey))
  }

  /** The agent's facts: those cached, if any were collected yet, and its hostname. */
  function AgentFacts(registration: Option<FactsRegistration>, hostname: string): Facts {
    Facts(FACT_PREFIX, key => LookupFact(key, registration, hostname))
  }

  // ------------------------------------------------------------ what keys name

  /** A field's value, or that it is not set, exactly if it is empty. */
  predicate Names(found: Result<string, FactError>, key: string, field: string) {
    if field == "" then found == Err(NotSet(key)) else found == Ok(field)
  }

  /** Each built-in key names its own field. */
  lemma BuiltInKeysName(r: FactsRegistration, hostname: string)
    ensures
      var lookup := AgentFacts(Some(r), hostname).lookup;
      && Names(lookup("interface.primary"), "interface.primary", r.primaryInterface)
      && Names(lookup("hostname"), "hostname", hostname)
      && Names(lookup("arch"), "arch", r.architecture)
      && Names(lookup("kernel"), "kernel", r.kernelVersion)
      && Names(lookup("fqdn"), "fqdn", r.fqdn)
      && lookup("containerized") == Ok(if r.containerized then "true" else "false")
      && lookup("os") == Err(OsNotAvailable)
  {
  }

  const BUILT_IN_KEYS: set<string> :=
    {"interface.primary", "hostname", "arch", "os", "kernel", "fqdn", "containerized"}

  /** A custom key names the fact behind its prefix, and every other key nothing. */
  lemma OtherKeysName(key: string, r: FactsRegistration, hostname: string)
    requires key !in BUILT_IN_KEYS
    ensures
      var found := AgentFacts(Some(r), hostname).lookup(key);
      if exists k :: k != "" && key == "custom." + k then
        var k :| k != "" && key == "custom." + k;
        found == if k in r.facts then Ok(r.facts[k]) else Err(CustomNotFound(k))
      else found == Err(UnknownKey(key))
  {
    if k :| k != "" && key == "custom." + k {
      assert key[|CUSTOM_PREFIX|..] == k;
    }
    if IsCustomKey(key) {
      assert key == "custom." + key[|CUSTOM_PREFIX|..];
    }
  }

  lemma NoFactsYet(key: string, hostname: string)
    ensures AgentFacts(None, hostname).lookup(key) == Err(FactsNotAvailable)
  {
  }

  /** A reference by itself becomes the value its key names, if that holds no reference, or
      fails with the reference and the cause. */
  lemma ReferenceBecomes(key: string, registration: Option<FactsRegistration>, hostname: string)
    requires DelimiterFree(key)
    ensures
      var f := AgentFacts(registration, hostname);
      var found := f.lookup(key);
      && (found.Err? ==> Outcome("@fact." + key, f) == Some(Err(Unresolvable("@fact." + key, found.error))))
      && (found.Ok? && Free(found.value, FACT_PREFIX) ==> Outcome("@fact." + key, f) == Some(Ok(found.value)))
  {
    var f := AgentFacts(registration, hostname);
    var found := f.lookup(key);
    FactEnding.ReferenceIsItsValue(key, f);
    if found.Ok? && Free(found.value, FACT_PREFIX) {
      OutcomeAt(0, found.value, Ok(found.value), f);
    }
  }

  // ------------------------------------------------------------------ hygiene

  /** Every part of the prefix that text on the left could leave open ends in a dot. */
  lemma DotlessIsClean(v: string)
    requires '.' !in v
    ensures Clean(v, FACT_PREFIX)
  {
    var p: Prefix := FACT_PREFIX;
    assert p[5] == '.';
    forall i
      ensures !OccursAt(v, p, i)
    {
      if OccursAt(v, p, i) {
        LastCharOccurs(v, p, i);
      }
    }
    forall i | 1 <= i < |p|
      ensures !(p[i..] <= v)
    {
      assert p[i..][5 - i] == '.';
    }
  }

  lemma LastCharOccurs(v: string, p: string, i: int)
    requires p != "" && OccursAt(v, p, i)
    ensures p[|p| - 1] in v
  {
    assert v[i..i + |p|][|p| - 1] == v[i + |p| - 1];
  }

  /** The facts themselves are clean: the built-in values, and the custom ones whose
      key a reference can spell. */
  ghost predicate CleanFacts(r: FactsRegistration, hostname: string) {
    && Clean(r.primaryInterface, FACT_PREFIX) && Clean(hostname, FACT_PREFIX) && Clean(r.architecture, FACT_PREFIX)
    && Clean(r.kernelVersion, FACT_PREFIX) && Clean(r.fqdn, FACT_PREFIX)
    && forall k | k in r.facts && k != "" && DelimiterFree(k) :: Clean(r.facts[k], FACT_PREFIX)
  }

  /** Hygiene can be checked on the facts before any string is resolved. */
  lemma HygieneIsCheckable(r: FactsRegistration, hostname: string)
    ensures Hygienic(AgentFacts(Some(r), hostname)) <==> CleanFacts(r, hostname)
  {
    if CleanFacts(r, hostname) {
      CleanLookups(r, hostname);
    }
    if Hygienic(AgentFacts(Some(r), hostname)) {
      CleanBuiltIns(r, hostname);
      forall k | k in r.facts && k != "" && DelimiterFree(k)
        ensures Clean(r.facts[k], FACT_PREFIX)
      {
        CustomLookup(k, r, hostname);
        assert AgentFacts(Some(r), hostname).lookup(CUSTOM_PREFIX + k).Ok?;
      }
    }
  }

  lemma CleanLookups(r: FactsRegistration, hostname: string)
    requires CleanFacts(r, hostname)
    ensures Hygienic(AgentFacts(Some(r), hostname))
  {
    DotlessIsClean("true");
    DotlessIsClean("false");
    forall key | DelimiterFree(key) && LookupFact(key, Some(r), hostname).Ok?
      ensures Clean(LookupFact(key, Some(r), hostname).value, FACT_PREFIX)
    {
      if IsCustomKey(key) {
        var k := key[|CUSTOM_PREFIX|..];
        assert forall i | 0 <= i < |k| :: k[i] == key[i + |CUSTOM_PREFIX|];
        assert DelimiterFree(k);
      }
    }
  }

  lemma CleanBuiltIns(r: FactsRegistration, hostname: string)
    requires Hygienic(AgentFacts(Some(r), hostname))
    ensures Clean(r.primaryInterface, FACT_PREFIX) && Clean(hostname, FACT_PREFIX) && Clean(r.architecture, FACT_PREFIX)
    ensures Clean(r.kernelVersion, FACT_PREFIX) && Clean(r.fqdn, FACT_PREFIX)
  {
    CleanBuiltIn("interface.primary", r.primaryInterface, r, hostname);
    CleanBuiltIn("hostname", hostname, r, hostname);
    CleanBuiltIn("arch", r.architecture, r, hostname);
    CleanLaterBuiltIns(r, hostname);
  }

  lemma CleanLaterBuiltIns(r: FactsRegistration, hostname: string)
    requires Hygienic(AgentFacts(Some(r), hostname))
    ensures Clean(r.kernelVersion, FACT_PREFIX) && Clean(r.fqdn, FACT_PREFIX)
  {
    CleanBuiltIn("kernel", r.kernelVersion, r, hostname);
    CleanBuiltIn("fqdn", r.fqdn, r, hostname);
  }

  lemma CleanBuiltIn(key: string, value: string, r: FactsRegistration, hostname: string)
    requires Hygienic(AgentFacts(Some(r), hostname)) && DelimiterFree(key)
    requires LookupFact(key, Some(r), hostname) == SetOr(value, key)
    ensures Clean(value, FACT_PREFIX)
  {
    DotlessIsClean("");
    var f := AgentFacts(Some(r), hostname);
    assert f.lookup(key) == SetOr(value, key);
  }

  lemma CustomLookup(k: string, r: FactsRegistration, hostname: string)
    requires k in r.facts && k != "" && DelimiterFree(k)
    ensures DelimiterFree(CUSTOM_PREFIX + k)
    ensures AgentFacts(Some(r), hostname).lookup(CUSTOM_PREFIX + k) == Ok(r.facts[k])
  {
    var key := CUSTOM_PREFIX + k;
    assert key[|CUSTOM_PREFIX|..] == k;
    assert forall i | |CUSTOM_PREFIX| <= i < |key| :: key[i] == k[i - |CUSTOM_PREFIX|];
    assert key[0] == 'c' && key[1] == 'u';
    assert LookupFact(key, Some(r), hostname) == Ok(r.facts[k]);
  }

  /** A custom fact that holds its own reference keeps the loop going for ever. */
  lemma CustomSelfReferenceLoops(n: nat, k: string, r: FactsRegistration, hostname: string)
    requires k in r.facts && k != "" && DelimiterFree(k)
    requires r.facts[k] == FACT_PREFIX + (CUSTOM_PREFIX + k)
    ensures Iterate(n, r.facts[k], AgentFacts(Some(r), hostname)) == Unfinished(r.facts[k])
  {
    CustomLookup(k, r, hostname);
    SelfReferenceLoops(n, CUSTOM_PREFIX + k, AgentFacts(Some(r), hostname));
  }

  // ------------------------------------------------------------------ strings

  /** Rewrites the first reference and starts over, until there is none; what it
      requires is that this ends at all. */
  method ResolveString(s: string, f: Facts) returns (r: Result<string, Unresolvable>)
    requires Ends(s, f)
    ensures Outcome(s, f) == Some(r)
    ensures Hygienic(f) ==> r == Pass(s, f)
  {
    ghost var n: nat :| Iterate(n, s, f).Finished?;
    ghost var left := n;
    var result := s;
    var found := FindRef(result, f.prefix);
    while found.Some?
      invariant Iterate(left, result, f) == Iterate(n, s, f)
      invariant found == FirstRef(result, f.prefix)
      decreases left
    {
      Turn(left, result, f);
      var rewritten := RewriteFirst(result, found.value, f);
      if rewritten.Err? {
        Settled(n, s, rewritten, f);
        return rewritten;
      }
      result := rewritten.value;
      left := left - 1;
      found := FindRef(result, f.prefix);
    }
    Settled(n, s, Ok(result), f);
    return Ok(result);
  }

  /** strings.Index for the prefix. */
  method FindRef(text: string, p: Prefix) returns (found: Option<nat>)
    ensures found == FirstRef(text, p)
  {
    found := Index(text, p);
  }

  lemma Turn(left: nat, result: string, f: Facts)
    requires Iterate(left, result, f).Finished? && !Free(result, f.prefix)
    ensures left > 0
    ensures Iterate(left, result, f) ==
      match Rewrite(result, f)
      case Err(e) => Finished(Err(e))
      case Ok(t) => Iterate(left - 1, t, f)
  {
  }

  lemma Settled(n: nat, s: string, r: Result<string, Unresolvable>, f: Facts)
    requires Iterate(n, s, f) == Finished(r)
    ensures Outcome(s, f) == Some(r)
    ensures Hygienic(f) ==> r == Pass(s, f)
  {
    OutcomeAt(n, s, r, f);
    if Hygienic(f) {
      HygienicOutcome(s, f);
    }
  }

  /** The body of the loop: the text with its first reference replaced. */
  method RewriteFirst(result: string, start: nat, f: Facts) returns (r: Result<string, Unresolvable>)
    requires FirstRef(result, f.prefix) == Some(start)
    ensures r == Rewrite(result, f)
  {
    var end := EndOfReference(result, start + |f.prefix|);
    var key := result[start + |f.prefix|..end];
    assert OccursAt(result, f.prefix, start);
    assert result[start..end] == result[start..start + |f.prefix|] + key;
    match f.lookup(key)
    case Err(e) => r := Err(Unresolvable(result[start..end], e));
    case Ok(replacement) => r := Ok(result[..start] + replacement + result[end..]);
  }

  /** The next delimiter, or the end of the text. */
  method EndOfReference(text: string, open: nat) returns (end: nat)
    requires open <= |text|
    ensures end == RefEnd(text, open)
  {
    end := |text|;
    for i := open to |text|
      invariant end == |text|
      invariant forall j | open <= j < i :: !IsDelimiter(text[j])
    {
      if IsDelimiter(text[i]) {
        end := i;
        break;
      }
    }
    assert EndsAt(text, open, end);
  }
}
