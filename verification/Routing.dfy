/**
 Which jobs reach an agent (internal/agent/consumer.go:36-97, 133-194, with the subjects
 of internal/job/subjects.go): one consumer for every prefix of every label value.
 */
module Routing {
  import opened Base
  import opened Text

  datatype Consumer = Consumer(name: string, filter: string, queueGroup: string)

  /** What the consumers are built from: "jobs.query" or "jobs.modify", "query" or "modify",
      the consumer name prefix, the machine ID and the queue group. */
  datatype Plan = Plan(subjects: string, kind: string, names: string, machine: string, queueGroup: string)

  type Labels = map<string, string>

  /** SanitizeHostname: everything but letters, digits and underscores becomes '_'. */
  function Sanitize(s: string): string {
    seq(|s|, i requires 0 <= i < |s| => if Safe(s[i]) then s[i] else '_')
  }

  predicate Safe(c: char) {
    'a' <= c <= 'z' || 'A' <= c <= 'Z' || '0' <= c <= '9' || c == '_'
  }

  /** One prefix of one label value. */
  datatype Slot = Slot(key: string, level: nat)

  predicate Live(slot: Slot, labels: Labels) {
    slot.key in labels && slot.level < |Split(labels[slot.key], '.')|
  }

  /** The first level + 1 segments. */
  function PrefixAt(value: string, level: nat): string
    requires level < |Split(value, '.')|
  {
    Join(Split(value, '.')[..level + 1], '.')
  }

  function LabelSubject(subjects: string, key: string, value: string): string {
    subjects + ".label." + (key + "." + value)
  }

  /** The part of a consumer name that tells labels apart. */
  function NamePart(key: string, value: string): string {
    key + "_" + Sanitize(value)
  }

  function LabelConsumer(plan: Plan, key: string, value: string): Consumer {
    Consumer(
      plan.names + plan.kind + "_label_" + NamePart(key, value) + ("_" + Sanitize(plan.machine)),
      LabelSubject(plan.subjects, key, value), "")
  }

  function SlotConsumer(plan: Plan, labels: Labels, slot: Slot): Consumer
    requires Live(slot, labels)
  {
    LabelConsumer(plan, slot.key, PrefixAt(labels[slot.key], slot.level))
  }

  function StandardConsumers(plan: Plan): seq<Consumer> {
    var id := Sanitize(plan.machine);
    [ Consumer(plan.names + plan.kind + "_any_" + id, plan.subjects + "._any", plan.queueGroup),
      Consumer(plan.names + plan.kind + "_all_" + id, plan.subjects + "._all", ""),
      Consumer(plan.names + plan.kind + "_direct_" + id, plan.subjects + ".host." + id, "") ]
  }

  /** The live slots of these keys, each once. */
  ghost predicate Covered(slots: seq<Slot>, labels: Labels, keys: set<string>) {
    && (forall slot :: slot in slots <==> Live(slot, labels) && slot.key in keys)
    && (forall i, j | 0 <= i < j < |slots| :: slots[i] != slots[j])
  }

  /** The three standard consumers, then one for each slot. */
  ghost predicate Built(consumers: seq<Consumer>, slots: seq<Slot>, plan: Plan, labels: Labels) {
    && |consumers| == 3 + |slots| && consumers[..3] == StandardConsumers(plan)
    && forall i | 0 <= i < |slots| :: Live(slots[i], labels) && consumers[3 + i] == SlotConsumer(plan, labels, slots[i])
  }

  /** The consumers an agent asks for; the slots come in the order of the map iteration. */
  ghost predicate ConsumersOf(consumers: seq<Consumer>, slots: seq<Slot>, plan: Plan, labels: Labels) {
    Covered(slots, labels, labels.Keys) && Built(consumers, slots, plan, labels)
  }

  // ---------------------------------------------------------------- the loops

  method BuildConsumers(plan: Plan, labels: Labels) returns (consumers: seq<Consumer>)
    ensures exists slots :: ConsumersOf(consumers, slots, plan, labels)
  {
    consumers := StandardConsumers(plan);
    var todo := labels.Keys;
    assert Built(consumers, [], plan, labels) && Covered([], labels, {});
    while todo != {}
      invariant todo <= labels.Keys && Serves(consumers, plan, labels, labels.Keys - todo)
    {
      var key :| key in todo;
      consumers := AddLabel(plan, labels, labels.Keys - todo, key, consumers);
      assert labels.Keys - (todo - {key}) == labels.Keys - todo + {key};
      todo := todo - {key};
    }
    assert labels.Keys - todo == labels.Keys;
    ghost var slots :| Built(consumers, slots, plan, labels) && Covered(slots, labels, labels.Keys);
    assert ConsumersOf(consumers, slots, plan, labels);
  }

  /** The inner loop: every prefix of one label value. */
  method AddLabel(plan: Plan, labels: Labels, ghost done: set<string>, key: string, before: seq<Consumer>)
    returns (consumers: seq<Consumer>)
    requires Serves(before, plan, labels, done)
    requires key in labels && key !in done
    ensures Serves(consumers, plan, labels, done + {key})
  {
    var segments := Split(labels[key], '.');
    consumers := before;
    ghost var slotsBefore :| Built(before, slotsBefore, plan, labels) && Covered(slotsBefore, labels, done);
    ghost var slots := slotsBefore;
    for i := 0 to |segments|
      invariant Built(consumers, slots, plan, labels)
      invariant forall slot :: slot in slots <==> slot in slotsBefore || (slot.key == key && slot.level < i)
      invariant forall i, j | 0 <= i < j < |slots| :: slots[i] != slots[j]
    {
      var prefix := Join(segments[..i + 1], '.');
      consumers := consumers + [LabelConsumer(plan, key, prefix)];
      slots := slots + [Slot(key, i)];
    }
    assert Covered(slots, labels, done + {key});
  }

  /** The consumers for these labels. */
  ghost predicate Serves(consumers: seq<Consumer>, plan: Plan, labels: Labels, keys: set<string>) {
    exists slots :: Built(consumers, slots, plan, labels) && Covered(slots, labels, keys)
  }

  // ------------------------------------------------------- subjects as tokens

  function Tokens(subject: string): seq<string> {
    Split(subject, '.')
  }

  /** NATS subject matching: '*' stands for one token, a final '>' for one or more. */
  predicate Matches(filter: seq<string>, subject: seq<string>)
    decreases |filter|
  {
    if filter == [] then subject == []
    else if filter == [">"] then subject != []
    else subject != [] && (filter[0] == "*" || filter[0] == subject[0]) && Matches(filter[1..], subject[1..])
  }

  predicate PlainTokens(tokens: seq<string>) {
    forall i | 0 <= i < |tokens| :: tokens[i] != "*" && tokens[i] != ">"
  }

  predicate Plain(s: string) {
    PlainTokens(Tokens(s))
  }

  lemma {:induction false} PlainMatchesItself(filter: seq<string>, subject: seq<string>)
    requires PlainTokens(filter)
    ensures Matches(filter, subject) <==> filter == subject
    decreases |filter|
  {
    if filter == [] {
    } else {
      assert filter != [">"] by {
        assert filter[0] != ">";
      }
      if subject != [] {
        PlainMatchesItself(filter[1..], subject[1..]);
        assert filter == [filter[0]] + filter[1..] && subject == [subject[0]] + subject[1..];
      }
    }
  }

  /** Splitting where a separator stands. */
  lemma {:induction false} SplitConcat(a: string, b: string, d: char)
    ensures Split(a + ([d] + b), d) == Split(a, d) + Split(b, d)
  {
    var s := a + ([d] + b);
    if a == "" {
      assert s[0] == d && s[1..] == b;
    } else {
      SplitConcat(a[1..], b, d);
      assert s[0] == a[0] && s[1..] == a[1..] + ([d] + b);
      SplitFirst(s, d);
      SplitFirst(a, d);
      Prepended(a[0], d, Split(a[1..], d), Split(b, d));
    }
  }

  /** Putting one character in front of split text. */
  function Prepend(c: char, d: char, parts: seq<string>): seq<string>
    requires |parts| > 0
  {
    if c == d then [""] + parts else [[c] + parts[0]] + parts[1..]
  }

  lemma SplitFirst(s: string, d: char)
    requires s != ""
    ensures Split(s, d) == Prepend(s[0], d, Split(s[1..], d))
  {
  }

  lemma Prepended(c: char, d: char, parts: seq<string>, more: seq<string>)
    requires |parts| > 0
    ensures Prepend(c, d, parts + more) == Prepend(c, d, parts) + more
  {
    assert (parts + more)[1..] == parts[1..] + more;
  }

  lemma SplitInjective(a: string, b: string, d: char)
    ensures Split(a, d) == Split(b, d) <==> a == b
  {
    JoinSplit(a, d);
    JoinSplit(b, d);
  }

  // ------------------------------------------------------------ who is who

  /** By its ASCII code: a digit, a capital, a small letter or an underscore is kept. */
  lemma NameKeeps(name: string, i: nat)
    requires i < |name|
    ensures
      var code := name[i] as int;
      var kept := 48 <= code <= 57 || 65 <= code <= 90 || 97 <= code <= 122 || code == 95;
      Sanitize(name)[i] == if kept then name[i] else '_'
  {
  }

  /** The consumer for any one agent, and no other, is shared by the queue group. */
  lemma OnlyAnyIsShared(consumers: seq<Consumer>, slots: seq<Slot>, plan: Plan, labels: Labels, i: nat)
    requires ConsumersOf(consumers, slots, plan, labels) && i < |consumers|
    ensures consumers[i].queueGroup == if consumers[i].filter == plan.subjects + "._any" then plan.queueGroup else ""
  {
    if i < 3 {
      assert consumers[i] == consumers[..3][i];
      StandardFiltersDiffer(plan);
    } else {
      var s := slots[i - 3];
      StandardAreApart(plan, 0, s.key, PrefixAt(labels[s.key], s.level));
    }
  }

  lemma StandardFiltersDiffer(plan: Plan)
    ensures
      var c := StandardConsumers(plan);
      c[0].filter != c[1].filter && c[0].filter != c[2].filter && c[1].filter != c[2].filter
  {
    var c, n := StandardConsumers(plan), |plan.subjects|;
    assert c[0].filter[n + 3] == 'n' && c[1].filter[n + 3] == 'l' && c[2].filter[n + 3] == 's';
  }

  /** Each of the standard subjects has its consumer: the name says which it is. */
  lemma NamesSayWhich(consumers: seq<Consumer>, slots: seq<Slot>, plan: Plan, labels: Labels, i: nat)
    requires ConsumersOf(consumers, slots, plan, labels) && i < |consumers|
    ensures
      var c, id := consumers[i], Sanitize(plan.machine);
      && (c.filter == plan.subjects + "._any" ==> c.name == plan.names + plan.kind + "_any_" + id)
      && (c.filter == plan.subjects + "._all" ==> c.name == plan.names + plan.kind + "_all_" + id)
      && (c.filter == plan.subjects + ".host." + id ==> c.name == plan.names + plan.kind + "_direct_" + id)
  {
    StandardFiltersDiffer(plan);
    if i < 3 {
      assert consumers[i] == consumers[..3][i];
    } else {
      var s := slots[i - 3];
      StandardAreApart(plan, 0, s.key, PrefixAt(labels[s.key], s.level));
      StandardAreApart(plan, 1, s.key, PrefixAt(labels[s.key], s.level));
      StandardAreApart(plan, 2, s.key, PrefixAt(labels[s.key], s.level));
    }
  }

  // -------------------------------------------------------- exact label routing

  predicate DotFree(labels: Labels) {
    forall key | key in labels :: '.' !in key
  }

  /** The tokens of a label subject, after those of the prefix. */
  lemma LabelTokens(subjects: string, key: string, value: string)
    ensures Tokens(LabelSubject(subjects, key, value)) ==
      Tokens(subjects) + (["label"] + (Tokens(key) + Tokens(value)))
  {
    var tail := key + ("." + value);
    assert key + "." + value == tail;
    assert LabelSubject(subjects, key, value) == subjects + ("." + ("label" + ("." + tail)));
    SplitConcat(key, value, '.');
    SplitConcat("label", tail, '.');
    SplitConcat(subjects, "label" + ("." + tail), '.');
    SplitPlain("label", '.');
  }

  /** Two label subjects are the same one exactly when key and value are. */
  lemma LabelSubjectsDiffer(subjects: string, key: string, value: string, key': string, value': string)
    requires '.' !in key && '.' !in key'
    ensures LabelSubject(subjects, key, value) == LabelSubject(subjects, key', value') <==>
      key == key' && value == value'
  {
    if LabelSubject(subjects, key, value) == LabelSubject(subjects, key', value') {
      LabelTokens(subjects, key, value);
      LabelTokens(subjects, key', value');
      var t, t' := Tokens(key) + Tokens(value), Tokens(key') + Tokens(value');
      SameTail(Tokens(subjects), ["label"] + t, ["label"] + t');
      SameTail(["label"], t, t');
      SplitPlain(key, '.');
      SplitPlain(key', '.');
      assert t[0] == key && t'[0] == key';
      SameTail([key], Tokens(value), Tokens(value'));
      SplitInjective(value, value', '.');
    }
  }

  lemma SameTail<T>(a: seq<T>, b: seq<T>, c: seq<T>)
    requires a + b == a + c
    ensures b == c
  {
    assert (a + b)[|a|..] == b && (a + c)[|a|..] == c;
  }

  /** The level-th prefix of a value is the one with level + 1 segments. */
  lemma PrefixTokens(value: string, level: nat)
    requires level < |Tokens(value)|
    ensures Tokens(PrefixAt(value, level)) == Tokens(value)[..level + 1]
  {
    SplitJoin(Tokens(value)[..level + 1], '.');
  }

  /** A string is a prefix at some level exactly when its segments begin the value's. */
  lemma PrefixIff(value: string, p: string)
    ensures (exists level | 0 <= level < |Tokens(value)| :: PrefixAt(value, level) == p) <==> Tokens(p) <= Tokens(value)
  {
    if Tokens(p) <= Tokens(value) {
      var level := |Tokens(p)| - 1;
      PrefixTokens(value, level);
      SplitInjective(PrefixAt(value, level), p, '.');
    }
    forall level | 0 <= level < |Tokens(value)| && PrefixAt(value, level) == p ensures Tokens(p) <= Tokens(value) {
      PrefixTokens(value, level);
    }
  }

  /** Two keys, neither of which continues the other behind a dot. */
  predicate Apart(key: string, key': string) {
    !(key + "." <= key') && !(key' + "." <= key)
  }

  predicate KeysApart(labels: Labels) {
    forall key, key' | key in labels && key' in labels :: Apart(key, key')
  }

  lemma DotFreeKeysAreApart(labels: Labels)
    requires DotFree(labels)
    ensures KeysApart(labels)
  {
    forall key, key' | key in labels && key' in labels
      ensures Apart(key, key')
    {
      if key + "." <= key' {
        DotInside(key, key');
      }
      if key' + "." <= key {
        DotInside(key', key);
      }
    }
  }

  lemma DotInside(key: string, key': string)
    requires key + "." <= key'
    ensures '.' in key'
  {
    assert key'[|key|] == '.';
  }

  lemma SubjectTail(subjects: string, key: string, value: string, key': string, value': string)
    ensures LabelSubject(subjects, key, value) == LabelSubject(subjects, key', value') <==>
      key + "." + value == key' + "." + value'
  {
    if LabelSubject(subjects, key, value) == LabelSubject(subjects, key', value') {
      SameTail(subjects + ".label.", key + "." + value, key' + "." + value');
    }
  }

  /** Labels of two keys can have one filter exactly if one key continues the other behind
      a dot. */
  lemma FiltersMeetIff(subjects: string, key: string, key': string)
    requires key != key'
    ensures (exists p, p' :: LabelSubject(subjects, key, p) == LabelSubject(subjects, key', p')) <==> !Apart(key, key')
  {
    if key + "." <= key' {
      ContinuationMeets(subjects, key, key');
    }
    if key' + "." <= key {
      ContinuationMeets(subjects, key', key);
    }
    forall p, p' | LabelSubject(subjects, key, p) == LabelSubject(subjects, key', p')
      ensures !Apart(key, key')
    {
      SubjectTail(subjects, key, p, key', p');
      if |key| < |key'| {
        MeetingContinues(key, p, key', p');
      } else {
        MeetingContinues(key', p', key, p);
      }
    }
  }

  lemma ContinuationMeets(subjects: string, key: string, key': string)
    requires key + "." <= key'
    ensures
      var rest := key'[|key| + 1..];
      LabelSubject(subjects, key, rest + ".x") == LabelSubject(subjects, key', "x")
  {
    var rest := key'[|key| + 1..];
    assert key' == key + "." + rest;
    assert key + "." + (rest + ".x") == key' + "." + "x";
  }

  lemma MeetingContinues(key: string, p: string, key': string, p': string)
    requires key != key' && |key| <= |key'| && key + "." + p == key' + "." + p'
    ensures key + "." <= key'
  {
    var whole := key + "." + p;
    assert key == whole[..|key|] && key' == whole[..|key'|];
    assert whole[|key|] == '.';
    if |key| < |key'| {
      assert key + "." == whole[..|key| + 1];
    }
  }

  /** No two slots have the same subject, unless their keys can meet. */
  lemma SlotsDiffer(subjects: string, labels: Labels, s: Slot, t: Slot)
    requires KeysApart(labels) && Live(s, labels) && Live(t, labels)
    requires LabelSubject(subjects, s.key, PrefixAt(labels[s.key], s.level)) ==
             LabelSubject(subjects, t.key, PrefixAt(labels[t.key], t.level))
    ensures s == t
  {
    var p, q := PrefixAt(labels[s.key], s.level), PrefixAt(labels[t.key], t.level);
    if s.key != t.key {
      FiltersMeetIff(subjects, s.key, t.key);
    } else {
      SubjectTail(subjects, s.key, p, t.key, q);
      SameTail(s.key + ".", p, q);
      PrefixTokens(labels[s.key], s.level);
      PrefixTokens(labels[t.key], t.level);
      assert |Tokens(labels[s.key])[..s.level + 1]| == s.level + 1;
    }
  }

  /** The standard filters are no label subject, whatever the label. */
  lemma StandardAreApart(plan: Plan, i: nat, key: string, value: string)
    requires i < 3
    ensures StandardConsumers(plan)[i].filter != LabelSubject(plan.subjects, key, value)
  {
    var n := |plan.subjects|;
    assert LabelSubject(plan.subjects, key, value)[n + 1] == 'l';
    assert StandardConsumers(plan)[i].filter[n + 1] != 'l';
  }

  /** All the filters of one plan are different, if no key continues another. */
  lemma FiltersAreDistinct(consumers: seq<Consumer>, slots: seq<Slot>, plan: Plan, labels: Labels, i: nat, j: nat)
    requires ConsumersOf(consumers, slots, plan, labels) && KeysApart(labels)
    requires i < j < |consumers|
    ensures consumers[i].filter != consumers[j].filter
  {
    if j < 3 {
      var n := |plan.subjects|;
      assert consumers[i] == consumers[..3][i] && consumers[j] == consumers[..3][j];
      var f, f' := consumers[i].filter, consumers[j].filter;
      assert f[n + 1] != f'[n + 1] || f[n + 3] != f'[n + 3];
    } else {
      var t := slots[j - 3];
      if i < 3 {
        assert consumers[i] == consumers[..3][i];
        StandardAreApart(plan, i, t.key, PrefixAt(labels[t.key], t.level));
      } else if consumers[i].filter == consumers[j].filter {
        SlotsDiffer(plan.subjects, labels, slots[i - 3], t);
      }
    }
  }

  /** The consumer for a label job: there is one exactly when the agent has the label and
      the job's segments begin the label's, and then there is no other. */
  lemma LabelJobsFindTheirAgents(consumers: seq<Consumer>, slots: seq<Slot>, plan: Plan, labels: Labels,
                                 key: string, p: string) returns (at: Option<nat>)
    requires ConsumersOf(consumers, slots, plan, labels) && DotFree(labels) && '.' !in key
    ensures at.Some? <==> key in labels && Tokens(p) <= Tokens(labels[key])
    ensures at.Some? ==> at.value < |consumers|
    ensures forall i | 0 <= i < |consumers| ::
      consumers[i].filter == LabelSubject(plan.subjects, key, p) <==> at == Some(i)
  {
    DotFreeKeysAreApart(labels);
    at := None;
    if key in labels && Tokens(p) <= Tokens(labels[key]) {
      PrefixIff(labels[key], p);
      var level :| 0 <= level < |Tokens(labels[key])| && PrefixAt(labels[key], level) == p;
      assert Slot(key, level) in slots;
      var k :| 0 <= k < |slots| && slots[k] == Slot(key, level);
      at := Some(3 + k);
    }
    forall i | 0 <= i < |consumers|
      ensures consumers[i].filter == LabelSubject(plan.subjects, key, p) <==> at == Some(i)
    {
      FilterOfJob(consumers, slots, plan, labels, key, p, i);
      if at.Some? && i != at.value {
        if i < at.value {
          FiltersAreDistinct(consumers, slots, plan, labels, i, at.value);
        } else {
          FiltersAreDistinct(consumers, slots, plan, labels, at.value, i);
        }
      }
    }
  }

  /** Only a label with these segments has this subject. */
  lemma FilterOfJob(consumers: seq<Consumer>, slots: seq<Slot>, plan: Plan, labels: Labels,
                    key: string, p: string, i: nat)
    requires ConsumersOf(consumers, slots, plan, labels) && DotFree(labels) && '.' !in key
    requires i < |consumers|
    ensures consumers[i].filter == LabelSubject(plan.subjects, key, p) ==>
      key in labels && Tokens(p) <= Tokens(labels[key])
  {
    if i < 3 {
      assert consumers[i] == consumers[..3][i];
      StandardAreApart(plan, i, key, p);
    } else {
      var s := slots[i - 3];
      LabelSubjectsDiffer(plan.subjects, s.key, PrefixAt(labels[s.key], s.level), key, p);
      PrefixIff(labels[s.key], PrefixAt(labels[s.key], s.level));
    }
  }

  /** Otherwise it can happen: with these labels the agent has two consumers with one
      filter, and hears a job for it twice. */
  lemma DottedKeyIsHeardTwice(consumers: seq<Consumer>, slots: seq<Slot>, plan: Plan) returns (i: nat, j: nat)
    requires ConsumersOf(consumers, slots, plan, map["a" := "b.c", "a.b" := "c"])
    ensures i < j < |consumers|
    ensures consumers[i].filter == consumers[j].filter == LabelSubject(plan.subjects, "a", "b.c")
  {
    var labels: Labels := map["a" := "b.c", "a.b" := "c"];
    SplitConcat("b", "c", '.');
    SplitPlain("b", '.');
    SplitPlain("c", '.');
    assert "b" + ("." + "c") == "b.c";
    assert Tokens("b.c") == ["b", "c"] && Tokens("c") == ["c"];
    i, j := PairOf(consumers, slots, plan, labels, Slot("a", 1), Slot("a.b", 0));
    WholePrefix("b.c");
    WholePrefix("c");
    SubjectTail(plan.subjects, "a", "b.c", "a.b", "c");
    assert "a" + "." + "b.c" == "a.b" + "." + "c";
  }

  /** The last prefix of a value is the value. */
  lemma WholePrefix(value: string)
    ensures PrefixAt(value, |Tokens(value)| - 1) == value
  {
    assert Tokens(value)[..|Tokens(value)|] == Tokens(value);
    JoinSplit(value, '.');
  }

  /** The consumers of two slots, in the order in which they stand. */
  lemma PairOf(consumers: seq<Consumer>, slots: seq<Slot>, plan: Plan, labels: Labels, s: Slot, t: Slot)
    returns (i: nat, j: nat)
    requires ConsumersOf(consumers, slots, plan, labels) && Live(s, labels) && Live(t, labels) && s != t
    ensures i < j < |consumers|
    ensures
      || (consumers[i] == SlotConsumer(plan, labels, s) && consumers[j] == SlotConsumer(plan, labels, t))
      || (consumers[i] == SlotConsumer(plan, labels, t) && consumers[j] == SlotConsumer(plan, labels, s))
  {
    assert s in slots && t in slots;
    var k :| 0 <= k < |slots| && slots[k] == s;
    var l :| 0 <= l < |slots| && slots[l] == t;
    assert consumers[3 + k] == SlotConsumer(plan, labels, slots[k]);
    assert consumers[3 + l] == SlotConsumer(plan, labels, slots[l]);
    if k < l {
      i, j := 3 + k, 3 + l;
    } else {
      i, j := 3 + l, 3 + k;
    }
  }

  // ------------------------------------------------------------ with wildcards

  /** Subjects of jobs hold no wildcard, filters do when a label does: nothing checks the
      labels an agent is configured with. */
  predicate PlainLabels(labels: Labels) {
    forall key | key in labels :: Plain(key) && Plain(labels[key])
  }

  lemma PlainLabelSubject(subjects: string, key: string, value: string)
    ensures Plain(LabelSubject(subjects, key, value)) <==> Plain(subjects) && Plain(key) && Plain(value)
  {
    LabelTokens(subjects, key, value);
    PlainParts(Tokens(subjects), ["label"] + (Tokens(key) + Tokens(value)));
    PlainParts(["label"], Tokens(key) + Tokens(value));
    PlainParts(Tokens(key), Tokens(value));
  }

  lemma PlainParts(a: seq<string>, b: seq<string>)
    ensures PlainTokens(a + b) <==> PlainTokens(a) && PlainTokens(b)
  {
    assert forall i | 0 <= i < |a| :: (a + b)[i] == a[i];
    assert forall i | 0 <= i < |b| :: (a + b)[|a| + i] == b[i];
  }

  lemma PlainAfter(subjects: string, tail: string)
    requires Plain(subjects) && Plain(tail)
    ensures Plain(subjects + ("." + tail))
  {
    SplitConcat(subjects, tail, '.');
    PlainParts(Tokens(subjects), Tokens(tail));
  }

  lemma PlainWord(word: string)
    requires '.' !in word && word != "*" && word != ">"
    ensures Plain(word)
  {
    SplitPlain(word, '.');
  }

  function StandardTail(plan: Plan, i: nat): string {
    if i == 0 then "_any" else if i == 1 then "_all" else "host" + ("." + Sanitize(plan.machine))
  }

  lemma StandardFilter(plan: Plan, i: nat)
    requires i < 3
    ensures StandardConsumers(plan)[i].filter == plan.subjects + ("." + StandardTail(plan, i))
  {
  }

  lemma PlainTail(plan: Plan, i: nat)
    ensures Plain(StandardTail(plan, i))
  {
    if i == 0 {
      PlainWord("_any");
    } else if i == 1 {
      PlainWord("_all");
    } else {
      PlainWord("host");
      PlainId(plan.machine);
      PlainAfter("host", Sanitize(plan.machine));
    }
  }

  lemma PlainStandard(plan: Plan, i: nat)
    requires Plain(plan.subjects) && i < 3
    ensures Plain(StandardConsumers(plan)[i].filter)
  {
    StandardFilter(plan, i);
    PlainTail(plan, i);
    PlainAfter(plan.subjects, StandardTail(plan, i));
  }

  lemma PlainId(machine: string)
    ensures Plain(Sanitize(machine))
  {
    var id := Sanitize(machine);
    assert forall k | 0 <= k < |id| :: Safe(id[k]);
    assert !Safe("*"[0]) && !Safe(">"[0]);
    PlainWord(id);
  }

  /** With plain labels the server hands a label job to the consumer above and to no other. */
  lemma LabelJobsAreDelivered(consumers: seq<Consumer>, slots: seq<Slot>, plan: Plan, labels: Labels,
                              key: string, p: string) returns (at: Option<nat>)
    requires ConsumersOf(consumers, slots, plan, labels) && DotFree(labels) && '.' !in key
    requires Plain(plan.subjects) && PlainLabels(labels)
    ensures at.Some? <==> key in labels && Tokens(p) <= Tokens(labels[key])
    ensures at.Some? ==> at.value < |consumers|
    ensures forall i | 0 <= i < |consumers| ::
      Matches(Tokens(consumers[i].filter), Tokens(LabelSubject(plan.subjects, key, p))) <==> at == Some(i)
  {
    at := LabelJobsFindTheirAgents(consumers, slots, plan, labels, key, p);
    var subject := LabelSubject(plan.subjects, key, p);
    forall i | 0 <= i < |consumers|
      ensures Matches(Tokens(consumers[i].filter), Tokens(subject)) <==> consumers[i].filter == subject
    {
      PlainFilter(consumers, slots, plan, labels, i);
      PlainMatchesItself(Tokens(consumers[i].filter), Tokens(subject));
      SplitInjective(consumers[i].filter, subject, '.');
    }
  }

  lemma PlainFilter(consumers: seq<Consumer>, slots: seq<Slot>, plan: Plan, labels: Labels, i: nat)
    requires ConsumersOf(consumers, slots, plan, labels) && i < |consumers|
    requires Plain(plan.subjects) && PlainLabels(labels)
    ensures Plain(consumers[i].filter)
  {
    if i < 3 {
      assert consumers[i] == consumers[..3][i];
      PlainStandard(plan, i);
    } else {
      var s := slots[i - 3];
      PrefixTokens(labels[s.key], s.level);
      PlainLabelSubject(plan.subjects, s.key, PrefixAt(labels[s.key], s.level));
    }
  }

  /** The agent with this one label hears a job for key k and value p. */
  ghost predicate Hears(subjects: string, key: string, value: string, k: string, p: string) {
    exists level | 0 <= level < |Tokens(value)| ::
      Matches(Tokens(LabelSubject(subjects, key, PrefixAt(value, level))), Tokens(LabelSubject(subjects, k, p)))
  }

  /** The agent hears the jobs for its label, and no others. */
  ghost predicate Exact(subjects: string, key: string, value: string) {
    forall k, p | '.' !in k && Plain(k) && Plain(p) ::
      Hears(subjects, key, value, k, p) <==> k == key && Tokens(p) <= Tokens(value)
  }

  /** Routing by a label is exact for all jobs exactly if its key is one token and neither
      key nor value holds a wildcard. A key with '>' is no subject at all: the agent then
      hears nothing, and nothing is for it. */
  lemma ExactIff(subjects: string, key: string, value: string)
    requires Plain(subjects)
    ensures Exact(subjects, key, value) <==>
      ">" in Tokens(key) || (Plain(key) && '.' !in key && Plain(value))
  {
    if ">" in Tokens(key) {
      DeafKeyIsExact(subjects, key, value);
    } else if !Plain(key) || '.' in key {
      var k, p := KeyHearsMore(subjects, key, value);
    } else if !Plain(value) {
      var p := WildcardHearsMore(subjects, key, value);
      assert Plain(p) && Hears(subjects, key, value, key, p) && !(Tokens(p) <= Tokens(value));
    } else {
      forall k, p | '.' !in k && Plain(k) && Plain(p)
        ensures Hears(subjects, key, value, k, p) <==> k == key && Tokens(p) <= Tokens(value)
      {
        PlainHears(subjects, key, value, k, p);
      }
    }
  }

  lemma DeafKeyIsExact(subjects: string, key: string, value: string)
    requires Plain(subjects) && ">" in Tokens(key)
    ensures Exact(subjects, key, value)
  {
    forall k, p | '.' !in k && Plain(k) && Plain(p)
      ensures !Hears(subjects, key, value, k, p) && k != key
    {
      PlainLabelSubject(subjects, k, p);
      forall level | 0 <= level < |Tokens(value)|
        ensures
          var filter := LabelSubject(subjects, key, PrefixAt(value, level));
          !Matches(Tokens(filter), Tokens(LabelSubject(subjects, k, p)))
      {
        Deaf(subjects, key, PrefixAt(value, level), Tokens(LabelSubject(subjects, k, p)));
      }
    }
  }

  /** A '>' before the end of a filter is matched by no plain subject. */
  lemma Deaf(subjects: string, key: string, value: string, subject: seq<string>)
    requires ">" in Tokens(key) && PlainTokens(subject)
    ensures !Matches(Tokens(LabelSubject(subjects, key, value)), subject)
  {
    var at :| 0 <= at < |Tokens(key)| && Tokens(key)[at] == ">";
    LabelTokens(subjects, key, value);
    var filter := Tokens(LabelSubject(subjects, key, value));
    assert filter[|Tokens(subjects)| + 1 + at] == ">";
    InnerFullWildcard(filter, subject, |Tokens(subjects)| + 1 + at);
  }

  lemma {:induction false} InnerFullWildcard(filter: seq<string>, subject: seq<string>, at: nat)
    requires at < |filter| - 1 && filter[at] == ">" && PlainTokens(subject)
    ensures !Matches(filter, subject)
    decreases at
  {
    if at == 0 {
    } else if subject != [] {
      PlainParts([subject[0]], subject[1..]);
      assert subject == [subject[0]] + subject[1..];
      InnerFullWildcard(filter[1..], subject[1..], at - 1);
    }
  }

  /** One token for another that matches it: a wildcard's place is taken by "x". */
  function Filled(token: string): string {
    if token == "*" || token == ">" then "x" else token
  }

  function Fill(tokens: seq<string>): seq<string> {
    seq(|tokens|, i requires 0 <= i < |tokens| => Filled(tokens[i]))
  }

  lemma {:induction false} FillMatches(tokens: seq<string>)
    requires forall i | 0 <= i < |tokens| - 1 :: tokens[i] != ">"
    ensures Matches(tokens, Fill(tokens)) && PlainTokens(Fill(tokens))
    decreases |tokens|
  {
    if tokens == [] {
    } else {
      FillMatches(tokens[1..]);
      assert Fill(tokens)[1..] == Fill(tokens[1..]);
    }
  }

  lemma {:induction false} MatchesBehind(before: seq<string>, filter: seq<string>, subject: seq<string>)
    requires filter != [] && Matches(filter, subject)
    ensures Matches(before + filter, before + subject)
    decreases |before|
  {
    if before == [] {
      assert before + filter == filter && before + subject == subject;
    } else {
      MatchesBehind(before[1..], filter, subject);
      assert (before + filter)[1..] == before[1..] + filter && (before + subject)[1..] == before[1..] + subject;
    }
  }

  /** With a wildcard or a dot in its key the agent hears a job for another key: the filter
      of its first consumer, filled in, cut behind the first token. */
  lemma KeyHearsMore(subjects: string, key: string, value: string) returns (k: string, p: string)
    requires Plain(subjects) && ">" !in Tokens(key) && (!Plain(key) || '.' in key)
    ensures '.' !in k && Plain(k) && Plain(p) && k != key && Hears(subjects, key, value, k, p)
  {
    var filter := Tokens(key) + [Tokens(value)[0]];
    FillMatches(filter);
    var filled := Fill(filter);
    k, p := filled[0], Join(filled[1..], '.');
    assert filled == [k] + filled[1..];
    assert forall i | 0 <= i < |filter| :: '.' !in filter[i];
    assert forall i | 0 <= i < |filled| :: '.' !in filled[i];
    SplitPlain(k, '.');
    SplitJoin(filled[1..], '.');
    PlainParts([k], filled[1..]);
    if '.' !in key {
      SplitPlain(key, '.');
    }
    HeardFirst(subjects, key, value, k, p);
  }

  lemma HeardFirst(subjects: string, key: string, value: string, k: string, p: string)
    requires Matches(Tokens(key) + [Tokens(value)[0]], Tokens(k) + Tokens(p))
    ensures Hears(subjects, key, value, k, p)
  {
    var filter, job := Tokens(key) + [Tokens(value)[0]], Tokens(k) + Tokens(p);
    FirstFilter(subjects, key, value);
    LabelTokens(subjects, k, p);
    Regrouped(Tokens(subjects), "label", filter);
    Regrouped(Tokens(subjects), "label", job);
    MatchesBehind(Tokens(subjects) + ["label"], filter, job);
  }

  lemma FirstFilter(subjects: string, key: string, value: string)
    ensures Tokens(LabelSubject(subjects, key, PrefixAt(value, 0)))
         == Tokens(subjects) + (["label"] + (Tokens(key) + [Tokens(value)[0]]))
  {
    assert Tokens(value)[..1] == [Tokens(value)[0]];
    PrefixTokens(value, 0);
    LabelTokens(subjects, key, PrefixAt(value, 0));
  }

  lemma Regrouped(a: seq<string>, b: string, c: seq<string>)
    ensures a + ([b] + c) == a + [b] + c
  {
  }

  lemma PlainHears(subjects: string, key: string, value: string, k: string, p: string)
    requires Plain(subjects) && Plain(key) && Plain(value) && '.' !in key && '.' !in k
    ensures Hears(subjects, key, value, k, p) <==> k == key && Tokens(p) <= Tokens(value)
  {
    forall level | 0 <= level < |Tokens(value)|
      ensures Matches(Tokens(LabelSubject(subjects, key, PrefixAt(value, level))), Tokens(LabelSubject(subjects, k, p)))
        <==> key == k && PrefixAt(value, level) == p
    {
      var filter := LabelSubject(subjects, key, PrefixAt(value, level));
      PrefixTokens(value, level);
      PlainLabelSubject(subjects, key, PrefixAt(value, level));
      PlainMatchesItself(Tokens(filter), Tokens(LabelSubject(subjects, k, p)));
      SplitInjective(filter, LabelSubject(subjects, k, p), '.');
      LabelSubjectsDiffer(subjects, key, PrefixAt(value, level), k, p);
    }
    PrefixIff(value, p);
  }

  /** Replacing the first wildcard by anything else gives a job that is heard and should
      not be. */
  lemma WildcardHearsMore(subjects: string, key: string, value: string) returns (p: string)
    requires Plain(subjects) && Plain(key) && !Plain(value)
    ensures Plain(p) && Hears(subjects, key, value, key, p) && !(Tokens(p) <= Tokens(value))
  {
    var tokens := Tokens(value);
    var w := FirstWildcard(tokens);
    var heard := tokens[..w] + ["x"];
    p := Join(heard, '.');
    SplitJoin(heard, '.');
    PlainParts(tokens[..w], ["x"]);
    assert heard[w] == "x";
    HeardAt(subjects, key, value, w, p);
  }

  lemma HeardAt(subjects: string, key: string, value: string, w: nat, p: string)
    requires w < |Tokens(value)| && (Tokens(value)[w] == "*" || Tokens(value)[w] == ">")
    requires Tokens(p) == Tokens(value)[..w] + ["x"]
    ensures Hears(subjects, key, value, key, p)
  {
    var filter := PrefixAt(value, w);
    var wildcard := Tokens(value)[w];
    PrefixTokens(value, w);
    assert Tokens(filter) == Tokens(value)[..w] + [wildcard];
    var before := Tokens(subjects) + (["label"] + (Tokens(key) + Tokens(value)[..w]));
    EndOfLabel(subjects, key, filter, Tokens(value)[..w], wildcard);
    EndOfLabel(subjects, key, p, Tokens(value)[..w], "x");
    WildcardMatches(before, wildcard);
  }

  /** The last token of a label subject is the last one of its value. */
  lemma EndOfLabel(subjects: string, key: string, value: string, init: seq<string>, last: string)
    requires Tokens(value) == init + [last]
    ensures Tokens(LabelSubject(subjects, key, value)) ==
      Tokens(subjects) + (["label"] + (Tokens(key) + init)) + [last]
  {
    LabelTokens(subjects, key, value);
  }

  lemma {:induction false} FirstWildcard(tokens: seq<string>) returns (w: nat)
    requires !PlainTokens(tokens)
    ensures w < |tokens| && PlainTokens(tokens[..w]) && (tokens[w] == "*" || tokens[w] == ">")
  {
    if tokens[0] == "*" || tokens[0] == ">" {
      w := 0;
    } else {
      w := FirstWildcard(tokens[1..]);
      w := w + 1;
      PlainParts([tokens[0]], tokens[1..][..w - 1]);
      assert tokens[..w] == [tokens[0]] + tokens[1..][..w - 1];
    }
  }

  lemma {:induction false} WildcardMatches(before: seq<string>, wildcard: string)
    requires wildcard == "*" || wildcard == ">"
    ensures Matches(before + [wildcard], before + ["x"])
  {
    var filter, subject := before + [wildcard], before + ["x"];
    if before != [] {
      WildcardMatches(before[1..], wildcard);
      assert filter[1..] == before[1..] + [wildcard] && subject[1..] == before[1..] + ["x"];
      assert |filter| > 1;
    }
  }

  /** A job for any one agent or for all reaches exactly one consumer, and a direct one as
      well, if the agent's machine is the one it names and otherwise none. */
  lemma StandardJobsAreDelivered(consumers: seq<Consumer>, slots: seq<Slot>, plan: Plan, labels: Labels,
                                 machine: string, i: nat)
    requires ConsumersOf(consumers, slots, plan, labels) && i < |consumers|
    requires Plain(plan.subjects) && PlainLabels(labels)
    ensures Matches(Tokens(consumers[i].filter), Tokens(plan.subjects + "._any")) <==> i == 0
    ensures Matches(Tokens(consumers[i].filter), Tokens(plan.subjects + "._all")) <==> i == 1
    ensures Matches(Tokens(consumers[i].filter), Tokens(plan.subjects + ".host." + Sanitize(machine))) <==>
      i == 2 && Sanitize(machine) == Sanitize(plan.machine)
  {
    var filter := consumers[i].filter;
    var other := plan.(machine := machine);
    PlainFilter(consumers, slots, plan, labels, i);
    StandardFiltersDiffer(plan);
    StandardFiltersDiffer(other);
    MatchesItsOwn(filter, plan.subjects + "._any");
    MatchesItsOwn(filter, plan.subjects + "._all");
    MatchesItsOwn(filter, plan.subjects + ".host." + Sanitize(machine));
    if i < 3 {
      assert consumers[i] == consumers[..3][i];
      if i == 2 {
        SameEnd(plan.subjects + ".host.", Sanitize(machine), Sanitize(plan.machine));
      }
    } else {
      var s := slots[i - 3];
      StandardAreApart(other, 0, s.key, PrefixAt(labels[s.key], s.level));
      StandardAreApart(other, 1, s.key, PrefixAt(labels[s.key], s.level));
      StandardAreApart(other, 2, s.key, PrefixAt(labels[s.key], s.level));
    }
  }

  lemma MatchesItsOwn(filter: string, subject: string)
    requires Plain(filter)
    ensures Matches(Tokens(filter), Tokens(subject)) <==> filter == subject
  {
    PlainMatchesItself(Tokens(filter), Tokens(subject));
    SplitInjective(filter, subject, '.');
  }

  lemma SameEnd(a: string, b: string, c: string)
    ensures a + b == a + c <==> b == c
  {
    if a + b == a + c {
      SameTail(a, b, c);
    }
  }

  // ------------------------------------------------------------- who is expected

  /** The controller's test of a label value, by string prefix. */
  predicate Expected(agentValue: string, value: string) {
    agentValue == value || value + "." <= agentValue
  }

  /** It asks whether the segments begin the agent's. */
  lemma ExpectedIff(agentValue: string, value: string)
    ensures Expected(agentValue, value) <==> Tokens(value) <= Tokens(agentValue)
  {
    if value + "." <= agentValue {
      var rest := agentValue[|value| + 1..];
      assert agentValue == value + ("." + rest);
      SplitConcat(value, rest, '.');
    }
    if Tokens(value) <= Tokens(agentValue) {
      Continued(agentValue, value);
    }
  }

  lemma Continued(agentValue: string, value: string)
    requires Tokens(value) <= Tokens(agentValue)
    ensures Expected(agentValue, value)
  {
    var rest := Tokens(agentValue)[|Tokens(value)|..];
    if rest == [] {
      SplitInjective(agentValue, value, '.');
    } else {
      Rejoined(agentValue, value, rest);
      assert agentValue == value + "." + Join(rest, '.');
    }
  }

  lemma Rejoined(agentValue: string, value: string, rest: seq<string>)
    requires rest != [] && Tokens(agentValue) == Tokens(value) + rest
    ensures agentValue == value + ("." + Join(rest, '.'))
  {
    assert forall i | 0 <= i < |rest| :: rest[i] == Tokens(agentValue)[|Tokens(value)| + i];
    SplitJoin(rest, '.');
    SplitConcat(value, Join(rest, '.'), '.');
    SplitInjective(agentValue, value + ("." + Join(rest, '.')), '.');
  }

  // ------------------------------------------------------------- query and modify

  /** The plans for one kind of job under a namespace. */
  function KindPlan(base: string, kind: string, names: string, machine: string, queueGroup: string): Plan {
    Plan(base + "." + kind, kind, names, machine, queueGroup)
  }

  lemma PlanShows(consumers: seq<Consumer>, slots: seq<Slot>, plan: Plan, labels: Labels, i: nat)
    requires ConsumersOf(consumers, slots, plan, labels) && i < |consumers|
    ensures plan.subjects <= consumers[i].filter && plan.names + plan.kind <= consumers[i].name
  {
    if i < 3 {
      assert consumers[i] == consumers[..3][i];
    } else {
      assert consumers[i] == SlotConsumer(plan, labels, slots[i - 3]);
    }
  }

  /** Queries never reach a modify consumer, nor the other way round, and no consumer of
      the one kind takes the name of one of the other. */
  lemma KindsAreApart(base: string, names: string, machine: string, queueGroup: string, labels: Labels,
                      queries: seq<Consumer>, slots: seq<Slot>, updates: seq<Consumer>, slots': seq<Slot>,
                      i: nat, j: nat)
    requires ConsumersOf(queries, slots, KindPlan(base, "query", names, machine, queueGroup), labels)
    requires ConsumersOf(updates, slots', KindPlan(base, "modify", names, machine, queueGroup), labels)
    requires i < |queries| && j < |updates|
    ensures queries[i].filter != updates[j].filter && queries[i].name != updates[j].name
  {
    PlanShows(queries, slots, KindPlan(base, "query", names, machine, queueGroup), labels, i);
    PlanShows(updates, slots', KindPlan(base, "modify", names, machine, queueGroup), labels, j);
    assert (base + "." + "query")[|base| + 1] == 'q' && (base + "." + "modify")[|base| + 1] == 'm';
    assert (names + "query")[|names|] == 'q' && (names + "modify")[|names|] == 'm';
  }

  // ------------------------------------------------------------- durable names

  /** key' is key, an underscore and more of what a sanitized value can hold. */
  predicate Extends(key: string, key': string) {
    && |key| < |key'| && key'[..|key|] == key && key'[|key|] == '_'
    && Sanitize(key'[|key| + 1..]) == key'[|key| + 1..]
  }

  /** Consumer names are not injective: a label of one key can ask for the durable
      consumer of a label of another, with a different filter, exactly when one key
      extends the other. */
  lemma NamesMeetIff(key: string, key': string)
    requires key != key'
    ensures (exists p, p' :: NamePart(key, p) == NamePart(key', p')) <==> Extends(key, key') || Extends(key', key)
  {
    if Extends(key, key') {
      ExtensionMeets(key, key');
    }
    if Extends(key', key) {
      ExtensionMeets(key', key);
    }
    forall p, p' | NamePart(key, p) == NamePart(key', p') ensures Extends(key, key') || Extends(key', key) {
      if |key| <= |key'| {
        MeetingExtends(key, p, key', p');
      } else {
        MeetingExtends(key', p', key, p);
      }
    }
  }

  lemma ExtensionMeets(key: string, key': string)
    requires Extends(key, key')
    ensures NamePart(key, key'[|key| + 1..] + "_x") == NamePart(key', "x")
  {
    var rest := key'[|key| + 1..];
    assert Sanitize(rest + "_x") == Sanitize(rest) + "_x";
    assert key' == key + "_" + rest;
  }

  lemma MeetingExtends(key: string, p: string, key': string, p': string)
    requires key != key' && |key| <= |key'| && NamePart(key, p) == NamePart(key', p')
    ensures Extends(key, key')
  {
    var n := NamePart(key, p);
    assert key == n[..|key|] && key' == n[..|key'|];
    var rest := key'[|key| + 1..];
    assert rest == Sanitize(p)[..|rest|];
    assert forall i | 0 <= i < |rest| :: Safe(Sanitize(p)[i]);
  }

  /** Such labels on one agent: two consumers with one durable name and two filters. */
  lemma NamesCollide(consumers: seq<Consumer>, slots: seq<Slot>, plan: Plan) returns (i: nat, j: nat)
    requires ConsumersOf(consumers, slots, plan, map["group" := "web_x", "group_web" := "x"])
    ensures i < j < |consumers|
    ensures consumers[i].name == consumers[j].name && consumers[i].filter != consumers[j].filter
  {
    var labels: Labels := map["group" := "web_x", "group_web" := "x"];
    SplitPlain("web_x", '.');
    SplitPlain("x", '.');
    i, j := PairOf(consumers, slots, plan, labels, Slot("group", 0), Slot("group_web", 0));
    WholePrefix("web_x");
    WholePrefix("x");
    OneNameTwoFilters(plan);
  }

  lemma OneNameTwoFilters(plan: Plan)
    ensures
      var c, c' := LabelConsumer(plan, "group", "web_x"), LabelConsumer(plan, "group_web", "x");
      c.name == c'.name && c.filter != c'.filter
  {
    assert Sanitize("web_x") == "web_x" && Sanitize("x") == "x";
    assert NamePart("group", "web_x") == NamePart("group_web", "x");
    LabelSubjectsDiffer(plan.subjects, "group", "web_x", "group_web", "x");
  }

  /** The prefixes of one value have different names. */
  lemma LevelsHaveTheirNames(key: string, value: string, i: nat, j: nat)
    requires i < j < |Tokens(value)|
    ensures NamePart(key, PrefixAt(value, i)) != NamePart(key, PrefixAt(value, j))
  {
    PrefixesGrow(Tokens(value), i, j);
    assert |Sanitize(PrefixAt(value, i))| < |Sanitize(PrefixAt(value, j))|;
  }

  lemma {:induction false} PrefixesGrow(parts: seq<string>, i: nat, j: nat)
    requires i < j < |parts|
    ensures |Join(parts[..i + 1], '.')| < |Join(parts[..j + 1], '.')|
  {
    assert parts[..j + 1][1..] == parts[1..][..j];
    assert parts[..i + 1][1..] == parts[1..][..i];
    if i > 0 {
      PrefixesGrow(parts[1..], i - 1, j - 1);
    }
  }

  /** When no key extends another, every label consumer of the agent has its own name. */
  lemma NamesAreDistinct(consumers: seq<Consumer>, slots: seq<Slot>, plan: Plan, labels: Labels, i: nat, j: nat)
    requires ConsumersOf(consumers, slots, plan, labels) && 3 <= i < j < |consumers|
    requires forall k, k' | k in labels && k' in labels :: !Extends(k, k')
    ensures consumers[i].name != consumers[j].name
  {
    var s, t := slots[i - 3], slots[j - 3];
    var p, q := PrefixAt(labels[s.key], s.level), PrefixAt(labels[t.key], t.level);
    if consumers[i].name == consumers[j].name {
      var front, back := plan.names + plan.kind + "_label_", "_" + Sanitize(plan.machine);
      SameMiddle(front, NamePart(s.key, p), NamePart(t.key, q), back);
      if s.key != t.key {
        NamesMeetIff(s.key, t.key);
      } else if s.level < t.level {
        LevelsHaveTheirNames(s.key, labels[s.key], s.level, t.level);
      } else {
        LevelsHaveTheirNames(s.key, labels[s.key], t.level, s.level);
      }
    }
  }

  lemma SameMiddle(a: string, x: string, y: string, b: string)
    requires a + x + b == a + y + b
    ensures x == y
  {
    assert |x| == |y|;
    assert (a + x + b)[|a|..|a| + |x|] == x && (a + y + b)[|a|..|a| + |y|] == y;
  }
}
