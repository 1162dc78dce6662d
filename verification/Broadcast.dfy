/**
 Who is expected to answer a broadcast (internal/job/subjects.go:271-383), against who
 takes it: the agents whose consumers are live and match its subject.
 */
module Broadcast {
  import opened Base
  import opened Lifecycle
  import LifecycleSafety
  import opened Routing
  import opened Text

  datatype Target = AnyHost | AllHosts | Label(key: string, value: string) | Host(name: string)

  /** ParseTarget: a label ends at the first colon. */
  function ParseTarget(target: string): Target {
    if target == "_any" then AnyHost
    else if target == "_all" then AllHosts
    else
      var parts := Split(target, ':');
      if |parts| >= 2 then Label(parts[0], Join(parts[1..], ':')) else Host(target)
  }

  /** The two special targets are themselves; of the others one with a colon is its key, the
      colon and its value, and one without names a host. */
  lemma TargetComesBack(target: string)
    ensures
      var t := ParseTarget(target);
      && (t.AnyHost? <==> target == "_any")
      && (t.AllHosts? <==> target == "_all")
      && (t.Label? <==> ':' in target)
      && (t.Label? ==> t.key + ":" + t.value == target && ':' !in t.key)
      && (t.Host? ==> t.name == target)
  {
    FirstAndRest(target, ':');
  }

  datatype AgentInfo = AgentInfo(state: Mode, labels: Labels)

  predicate CanReceiveJobs(state: Mode) {
    match state
    case Cordoned => false
    case Draining => false
    case Pending => false
    case Ready => true
  }

  predicate HasLabel(labels: Labels, key: string, value: string) {
    key in labels && Expected(labels[key], value)
  }

  predicate IsTargeted(labels: Labels, target: Target) {
    match target
    case AllHosts => true
    case Label(key, value) => HasLabel(labels, key, value)
    case _ => false
  }

  predicate IsExpected(agent: AgentInfo, target: Target) {
    CanReceiveJobs(agent.state) && IsTargeted(agent.labels, target)
  }

  method CountExpectedAgents(agents: seq<AgentInfo>, target: string) returns (count: nat)
    ensures count == |set i | 0 <= i < |agents| && IsExpected(agents[i], ParseTarget(target))|
  {
    var t := ParseTarget(target);
    count := 0;
    ghost var found: set<int> := {};
    for i := 0 to |agents|
      invariant found == set j | 0 <= j < i && IsExpected(agents[j], t)
      invariant count == |found|
    {
      if IsExpected(agents[i], t) {
        found := found + {i};
        count := count + 1;
      }
    }
  }

  /** Nobody is expected to answer for a single host or for any one; everybody that can
      receive jobs is for all. */
  lemma WhoIsExpected(agent: AgentInfo, target: string)
    ensures
      var expected := IsExpected(agent, ParseTarget(target));
      && (expected ==> agent.state.Ready?)
      && (target == "_all" ==> (expected <==> agent.state.Ready?))
      && (target == "_any" || (target != "_all" && ':' !in target) ==> !expected)
      && (forall key, value | ':' !in key && target == key + ":" + value ::
            expected <==>
              && agent.state.Ready? && key in agent.labels
              && (agent.labels[key] == value || value + "." <= agent.labels[key]))
  {
    TargetComesBack(target);
    forall key, value | ':' !in key && target == key + ":" + value
      ensures ParseTarget(target) == Label(key, value)
    {
      OneColon(target, key, value);
    }
  }

  /** The first colon divides. */
  lemma OneColon(target: string, key: string, value: string)
    requires ':' !in key && target == key + ":" + value
    ensures ParseTarget(target) == Label(key, value)
  {
    TargetComesBack(target);
    var t := ParseTarget(target);
    assert target[|key|] == ':';
    assert t.Label?;
    assert target[|t.key|] == ':';
    assert forall i | 0 <= i < |key| :: target[i] == key[i];
    assert forall i | 0 <= i < |t.key| :: target[i] == t.key[i];
    assert |t.key| == |key|;
    assert t.key == target[..|key|] == key;
    assert t.value == target[|key| + 1..] == value;
  }

  // ---------------------------------------------------------- who hears it

  function SubjectOf(subjects: string, target: Target): string {
    match target
    case AnyHost => subjects + "._any"
    case AllHosts => subjects + "._all"
    case Label(key, value) => LabelSubject(subjects, key, value)
    case Host(name) => subjects + ".host." + Sanitize(name)
  }

  ghost predicate Matched(consumers: seq<Consumer>, subject: string) {
    exists i :: 0 <= i < |consumers| && Matches(Tokens(consumers[i].filter), Tokens(subject))
  }

  /** The agent's consumers run and one of them matches. */
  ghost predicate Takes(g: Guarded, consumers: seq<Consumer>, subject: string) {
    g.live != {} && Matched(consumers, subject)
  }

  ghost predicate Routed(consumers: seq<Consumer>, slots: seq<Slot>, plan: Plan, labels: Labels) {
    && ConsumersOf(consumers, slots, plan, labels)
    && DotFree(labels) && PlainLabels(labels) && Plain(plan.subjects)
  }

  /** Label by label: an agent with one-token keys and no wildcards is targeted exactly if a
      consumer of its matches. */
  lemma TargetedIffMatched(consumers: seq<Consumer>, slots: seq<Slot>, plan: Plan, labels: Labels, target: Target)
    requires Routed(consumers, slots, plan, labels)
    requires target.AllHosts? || (target.Label? && '.' !in target.key)
    ensures IsTargeted(labels, target) <==> Matched(consumers, SubjectOf(plan.subjects, target))
  {
    if target.AllHosts? {
      var filter := consumers[..3][1].filter;
      PlainFilter(consumers, slots, plan, labels, 1);
      PlainMatchesItself(Tokens(filter), Tokens(filter));
      assert consumers[1].filter == SubjectOf(plan.subjects, target);
    } else {
      var at := LabelJobsAreDelivered(consumers, slots, plan, labels, target.key, target.value);
      if target.key in labels {
        ExpectedIff(labels[target.key], target.value);
      }
      var subject := Tokens(LabelSubject(plan.subjects, target.key, target.value));
      if at.Some? {
        assert Matches(Tokens(consumers[at.value].filter), subject);
      }
    }
  }

  /** The three standard subjects, each heard by its one consumer. */
  lemma StandardTargetReaches(consumers: seq<Consumer>, slots: seq<Slot>, plan: Plan, labels: Labels, machine: string)
    requires Routed(consumers, slots, plan, labels)
    ensures Matched(consumers, plan.subjects + "._any") && Matched(consumers, plan.subjects + "._all")
    ensures Matched(consumers, plan.subjects + ".host." + Sanitize(machine)) <==>
      Sanitize(machine) == Sanitize(plan.machine)
  {
    forall i: nat | i < |consumers|
      ensures Matches(Tokens(consumers[i].filter), Tokens(plan.subjects + "._any")) <==> i == 0
      ensures Matches(Tokens(consumers[i].filter), Tokens(plan.subjects + "._all")) <==> i == 1
      ensures Matches(Tokens(consumers[i].filter), Tokens(plan.subjects + ".host." + Sanitize(machine))) <==>
        i == 2 && Sanitize(machine) == Sanitize(plan.machine)
    {
      StandardJobsAreDelivered(consumers, slots, plan, labels, machine, i);
    }
    assert |consumers| >= 3;
    assert Matches(Tokens(consumers[0].filter), Tokens(plan.subjects + "._any"));
    assert Matches(Tokens(consumers[1].filter), Tokens(plan.subjects + "._all"));
    assert Sanitize(machine) == Sanitize(plan.machine) ==>
      Matches(Tokens(consumers[2].filter), Tokens(plan.subjects + ".host." + Sanitize(machine)));
  }

  /** Whom a target reaches: everybody hears "_any" and "_all", and a host is heard on the
      machines of that sanitized name. */
  lemma TargetReaches(consumers: seq<Consumer>, slots: seq<Slot>, plan: Plan, labels: Labels, target: string)
    requires Routed(consumers, slots, plan, labels) && ':' !in target
    ensures Matched(consumers, SubjectOf(plan.subjects, ParseTarget(target))) <==>
      target == "_any" || target == "_all" || Sanitize(target) == Sanitize(plan.machine)
  {
    TargetComesBack(target);
    StandardTargetReaches(consumers, slots, plan, labels, target);
  }

  /** A label is heard by those whose value is the target's or continues it behind a dot. */
  lemma LabelTargetReaches(consumers: seq<Consumer>, slots: seq<Slot>, plan: Plan, labels: Labels,
                           key: string, value: string)
    requires Routed(consumers, slots, plan, labels) && ':' !in key && '.' !in key
    ensures Matched(consumers, SubjectOf(plan.subjects, ParseTarget(key + ":" + value))) <==>
      key in labels && (labels[key] == value || value + "." <= labels[key])
  {
    OneColon(key + ":" + value, key, value);
    TargetedIffMatched(consumers, slots, plan, labels, Label(key, value));
  }

  /** An agent's registered state and its consumers agree when the agent is clean, and then
      the agents expected to answer are exactly those that take the job. */
  lemma ExpectedIffTakes(g: Guarded, consumers: seq<Consumer>, slots: seq<Slot>, plan: Plan, labels: Labels,
                         target: Target)
    requires Routed(consumers, slots, plan, labels) && LifecycleSafety.Clean(g)
    requires target.AllHosts? || (target.Label? && '.' !in target.key)
    ensures IsExpected(AgentInfo(g.mode, labels), target) <==> Takes(g, consumers, SubjectOf(plan.subjects, target))
  {
    TargetedIffMatched(consumers, slots, plan, labels, target);
  }

  /** For an agent that is targeted they agree exactly if it is Ready exactly when some
      generation of its consumers is live: a Cordoned agent that Start left consuming
      takes the job without being expected. */
  lemma AgreeIffReadyIsLive(g: Guarded, consumers: seq<Consumer>, slots: seq<Slot>, plan: Plan, labels: Labels,
                            target: Target)
    requires Routed(consumers, slots, plan, labels) && IsTargeted(labels, target)
    requires target.AllHosts? || (target.Label? && '.' !in target.key)
    ensures
      (IsExpected(AgentInfo(g.mode, labels), target) <==> Takes(g, consumers, SubjectOf(plan.subjects, target)))
      <==> (g.mode.Ready? <==> g.live != {})
  {
    TargetedIffMatched(consumers, slots, plan, labels, target);
  }

  // ------------------------------------------------------- dots in the target

  /** Counting and routing agree on a label target, for all agents with plain labels,
      exactly if its key has no dot: behind a dot the key's rest is routed as if it
      belonged to the value. */
  lemma TargetIsJudgedIff(plan: Plan, key: string, value: string)
    requires Plain(plan.subjects) && Plain(key) && Plain(value)
    ensures
      (forall labels, consumers, slots | Routed(consumers, slots, plan, labels) ::
        HasLabel(labels, key, value) <==> Matched(consumers, LabelSubject(plan.subjects, key, value)))
      <==> '.' !in key
  {
    if '.' !in key {
      forall labels, consumers, slots | Routed(consumers, slots, plan, labels)
        ensures HasLabel(labels, key, value) <==> Matched(consumers, LabelSubject(plan.subjects, key, value))
      {
        TargetedIffMatched(consumers, slots, plan, labels, Label(key, value));
      }
    } else {
      var labels, consumers, slots := Misjudged(plan, key, value);
    }
  }

  /** An agent that hears a job for a dotted key and does not have that label. */
  lemma Misjudged(plan: Plan, key: string, value: string)
    returns (labels: Labels, consumers: seq<Consumer>, slots: seq<Slot>)
    requires Plain(plan.subjects) && Plain(key) && Plain(value) && '.' in key
    ensures Routed(consumers, slots, plan, labels) && !HasLabel(labels, key, value)
    ensures Matched(consumers, LabelSubject(plan.subjects, key, value))
  {
    var first, rest := Tokens(key)[0], Join(Tokens(key)[1..], '.');
    FirstAndRest(key, '.');
    var v := rest + ("." + value);
    labels := map[first := v];
    Resplit(key, first, rest, value);
    consumers, slots := OneLabel(plan, first, v);
    assert LabelSubject(plan.subjects, key, value) == LabelSubject(plan.subjects, first, v) by {
      assert key + "." + value == first + "." + v;
    }
    TargetedIffMatched(consumers, slots, plan, labels, Label(first, v));
  }

  lemma Resplit(key: string, first: string, rest: string, value: string)
    requires key == first + "." + rest && '.' !in first && Plain(key) && Plain(value)
    ensures Plain(first) && Plain(rest + ("." + value))
  {
    assert key == first + ("." + rest);
    SplitConcat(first, rest, '.');
    PlainParts(Tokens(first), Tokens(rest));
    PlainAfter(rest, value);
  }

  /** The consumers of an agent with one label. */
  lemma OneLabel(plan: Plan, key: string, value: string) returns (consumers: seq<Consumer>, slots: seq<Slot>)
    ensures ConsumersOf(consumers, slots, plan, map[key := value])
  {
    var labels: Labels := map[key := value];
    var n := |Split(value, '.')|;
    slots := seq(n, i requires 0 <= i < n => Slot(key, i));
    consumers := StandardConsumers(plan)
      + seq(n, i requires 0 <= i < n => LabelConsumer(plan, key, PrefixAt(value, i)));
    forall slot
      ensures slot in slots <==> Live(slot, labels) && slot.key in labels.Keys
    {
      if Live(slot, labels) {
        assert slots[slot.level] == slot;
      }
    }
  }
}
