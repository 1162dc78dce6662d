/** What the delivery machine guarantees over every run, with any interleaving of
    deliveries, crashes, lost acknowledgements, store failures, renames and key
    changes. */
module DeliverySafety {
  import opened Base
  import opened Delivery

  // ------------------------------------------------------- how often it runs

  /** In every run the operation is executed at most once more than there were
      interruptions while exposed, failed answer checks and renames. */
  lemma ExecutionBound(w: World, s0: State, ls: seq<Label>)
    requires Initial(s0) && Run(w, s0, ls).Some?
    ensures |Run(w, s0, ls).value.executed| <= 1 + Excuses(w, s0, ls)
  {
    PaidRun(w, s0, ls, 1);
  }

  lemma {:induction false} PaidRun(w: World, s: State, ls: seq<Label>, n: int)
    requires Paid(s, n) && Run(w, s, ls).Some?
    ensures Paid(Run(w, s, ls).value, n + Excuses(w, s, ls))
    decreases |ls|
  {
    if ls == [] {
    } else {
      PaidStep(w, s, ls[0], n);
      PaidRun(w, Next(w, s, ls[0]), ls[1..], if Excuse(s, ls[0]) then n + 1 else n);
    }
  }

  // ------------------------------------------------ what holds in every state

  predicate WellShaped(r: RunRecord) {
    && (r.end.AlreadyAnswered? || r.end.JobNotFound? || r.end.Rejected? ==> r.wrote == NOTHING && !r.ran)
    && (r.wrote.terminal.Some? && r.wrote.terminal.value != Failed ==> r.ran)
    && Reports(r.wrote, r.answer)
  }

  /** A terminal event reports the response of its run, or that storing it failed. */
  predicate Reports(wrote: Wrote, answer: Option<Response>) {
    wrote.terminal.Some? ==>
      if wrote.storeFailed then wrote.terminal.value == Failed
      else answer.Some? && answer.value.status == wrote.terminal.value
  }

  /** Where in the handler which events may have been written. */
  predicate Fits(h: Handler)
    requires h.At?
  {
    Reports(h.wrote, h.answer) &&
    match h.pc
    case Return(Answered) => h.wrote.terminal.Some? && h.wrote.terminal.value != Failed ==> h.ran
    case Return(end) => !end.Crashed? && h.wrote == NOTHING && !h.ran
    case ResolveFacts(_) => !h.ran && !h.wrote.started && Unreported(h)
    case WriteStarted(_, _) => !h.ran && !h.wrote.started && Unreported(h)
    case Begin(_, _) => !h.ran && Unreported(h)
    case Running(_) => h.ran && Unreported(h)
    case Store(r) => (r.status != Failed ==> h.ran) && Unreported(h)
    case WriteTerminal(r) => (r.status != Failed ==> h.ran) && Unreported(h) && h.answer == Some(r)
    case WriteStoreFailure => h.wrote.terminal.None? && h.wrote.storeFailed
    case _ => h.wrote == NOTHING && !h.ran
  }

  /** Neither a terminal event nor a failed store yet. */
  predicate Unreported(h: Handler)
    requires h.At?
  {
    h.wrote.terminal.None? && !h.wrote.storeFailed
  }

  predicate Shaped(s: State) {
    && (forall i | 0 <= i < |s.history| :: WellShaped(s.history[i]))
    && (s.handler.At? ==> Fits(s.handler))
  }

  /** The events of one run, in the order the handler writes them. */
  function Events(wrote: Wrote): seq<EventKind> {
    (if wrote.acknowledged then [Acknowledged] else [])
    + (if wrote.started then [Started] else [])
    + (if wrote.terminal.Some? then [Terminal(wrote.terminal.value)] else [])
  }

  function Kinds(log: seq<Event>): seq<EventKind> {
    if log == [] then [] else Kinds(log[..|log| - 1]) + [log[|log| - 1].kind]
  }

  function AllEvents(history: seq<RunRecord>): seq<EventKind> {
    if history == [] then [] else AllEvents(history[..|history| - 1]) + Events(history[|history| - 1].wrote)
  }

  function RunsThatRan(history: seq<RunRecord>): nat {
    if history == [] then 0
    else RunsThatRan(history[..|history| - 1]) + (if history[|history| - 1].ran then 1 else 0)
  }

  /** The log is exactly the events of the runs, in order, and the executions are
      exactly the runs that reached the operation. */
  predicate Conserved(s: State) {
    && Kinds(s.log) == AllEvents(s.history) + (if s.handler.At? then Events(s.handler.wrote) else [])
    && |s.executed| == RunsThatRan(s.history) + (if s.handler.At? && s.handler.ran then 1 else 0)
  }

  /** A terminal event has the response it speaks of behind it. */
  predicate Backed(s: State, e: Event) {
    && (e.response.Some? ==> e.response.value in s.responses)
    && (e.kind.Terminal? && e.kind.status != Failed ==>
          e.response.Some? && e.response.value.status == e.kind.status)
  }

  predicate AllBacked(s: State) {
    && (forall i | 0 <= i < |s.log| :: Backed(s, s.log[i]))
    && (s.handler.At? && s.handler.answer.Some? ==> s.handler.answer.value in s.responses)
    && (s.handler.At? && s.handler.pc.WriteTerminal? ==> s.handler.answer == Some(s.handler.pc.response))
  }

  /** The responses that finished runs made durable are still there. */
  predicate AnswersKept(s: State) {
    forall i | 0 <= i < |s.history| :: s.history[i].answer.Some? ==> s.history[i].answer.value in s.responses
  }

  /** Once the message is settled no handler of it does anything but return. */
  predicate Settled(s: State) {
    && (s.message.Acked? ==> s.handler.Absent?)
    && (s.message.Terminated? && s.handler.At? ==> s.handler.pc.Return? && s.handler.pc.end.Rejected?)
  }

  /** A payload the agent may execute: the job data itself without PKI; with PKI
      the payload of the envelope in the job data, signed under a key the agent
      held at some time. */
  ghost predicate Authentic(w: World, s: State, payload: Bytes) {
    && s.jobData.Some?
    && if s.pki.Disabled? then payload == s.jobData.value
       else
         && var e := w.decodeEnvelope(s.jobData.value);
         && e.Some? && e.value.payload == payload
         && exists k :: k in s.trusted && w.verify(k, payload, e.value.signature)
  }

  ghost predicate AllAuthentic(w: World, s: State) {
    && HeldKeys(s.pki) <= s.trusted
    && (forall i | 0 <= i < |s.executed| :: Authentic(w, s, s.executed[i]))
    && (s.handler.At? && s.handler.pc.Unwrap? ==> s.jobData == Some(s.handler.pc.raw))
    && (s.handler.At? && Carried(s.handler.pc).Some? ==> Authentic(w, s, Carried(s.handler.pc).value))
  }

  ghost predicate Sound(w: World, s: State) {
    Shaped(s) && Conserved(s) && AllBacked(s) && AnswersKept(s) && Settled(s) && AllAuthentic(w, s)
  }

  lemma FitsStep(w: World, s: State, a: Answers)
    requires s.handler.At? && !s.handler.pc.Return? && Fits(s.handler)
    ensures Fits(Apply(s, HandlerEffect(w, s, a)).handler)
  {
    if Rank(s.handler.pc) > 4 {
      EarlyStep(w, s, a);
    }
  }

  lemma ShapedStep(w: World, s: State, l: Label)
    requires Shaped(s) && CanHappen(s, l)
    ensures Shaped(Next(w, s, l))
  {
    if l.Step? && !s.handler.pc.Return? {
      FitsStep(w, s, l.answers);
    }
  }

  lemma KindsAppend(log: seq<Event>, e: Event)
    ensures Kinds(log + [e]) == Kinds(log) + [e.kind]
  {
    assert (log + [e])[..|log|] == log;
  }

  lemma HistoryAppend(history: seq<RunRecord>, r: RunRecord)
    ensures AllEvents(history + [r]) == AllEvents(history) + Events(r.wrote)
    ensures RunsThatRan(history + [r]) == RunsThatRan(history) + (if r.ran then 1 else 0)
  {
    assert (history + [r])[..|history|] == history;
  }

  /** A kind of event that the handler writes next. */
  predicate IsNext(wrote: Wrote, kind: EventKind) {
    match kind
    case Acknowledged => wrote == NOTHING
    case Started => !wrote.started && wrote.terminal.None?
    case Terminal(_) => wrote.terminal.None?
  }

  lemma MarkEvents(wrote: Wrote, kind: EventKind)
    requires IsNext(wrote, kind)
    ensures Events(Mark(wrote, kind)) == Events(wrote) + [kind]
  {
  }

  /** The effect of a step as far as conservation is concerned. */
  lemma ConservedApply(s: State, e: Effect)
    requires Conserved(s) && s.handler.At?
    requires e.event.Some? ==> IsNext(s.handler.wrote, e.event.value)
    requires e.execute.Some? ==> !s.handler.ran
    ensures Conserved(Apply(s, e))
  {
    if e.event.Some? {
      KindsAppend(s.log, Event(e.event.value, s.hostname, s.handler.answer));
      MarkEvents(s.handler.wrote, e.event.value);
      assert AllEvents(s.history) + (Events(s.handler.wrote) + [e.event.value])
          == AllEvents(s.history) + Events(s.handler.wrote) + [e.event.value];
    }
  }

  lemma NextEvent(w: World, s: State, a: Answers)
    requires s.handler.At? && !s.handler.pc.Return? && Fits(s.handler)
    ensures
      var e := HandlerEffect(w, s, a);
      && (e.event.Some? ==> IsNext(s.handler.wrote, e.event.value))
      && (e.execute.Some? ==> !s.handler.ran)
  {
  }

  lemma ConservedStep(w: World, s: State, l: Label)
    requires Shaped(s) && Conserved(s) && CanHappen(s, l)
    ensures Conserved(Next(w, s, l))
  {
    if l.Crash? {
      HistoryAppend(s.history, RunRecord(Crashed, s.handler.ran, s.handler.answer, s.handler.wrote));
    } else if l.Step? && s.handler.pc.Return? {
      HistoryAppend(s.history, RunRecord(s.handler.pc.end, s.handler.ran, s.handler.answer, s.handler.wrote));
    } else if l.Step? {
      NextEvent(w, s, l.answers);
      ConservedApply(s, HandlerEffect(w, s, l.answers));
    }
  }

  lemma BackedStep(w: World, s: State, l: Label)
    requires AllBacked(s) && CanHappen(s, l)
    ensures AllBacked(Next(w, s, l))
  {
    var s' := Next(w, s, l);
    assert s.responses <= s'.responses;
    forall i | 0 <= i < |s'.log|
      ensures Backed(s', s'.log[i])
    {
      if i < |s.log| {
        assert s'.log[i] == s.log[i] && Backed(s, s.log[i]);
      }
    }
  }

  lemma KeptStep(w: World, s: State, l: Label)
    requires AllBacked(s) && AnswersKept(s) && CanHappen(s, l)
    ensures AnswersKept(Next(w, s, l))
  {
    assert s.responses <= Next(w, s, l).responses;
  }

  lemma SettledStep(w: World, s: State, l: Label)
    requires Settled(s) && CanHappen(s, l)
    ensures Settled(Next(w, s, l))
  {
  }

  /** The payload the handler carries towards its execution. */
  function Carried(pc: Pc): Option<Bytes> {
    match pc
    case Decode(payload) => Some(payload)
    case WriteAcknowledged(job) => Some(job.payload)
    case ResolveFacts(job) => Some(job.payload)
    case WriteStarted(job, _) => Some(job.payload)
    case Begin(job, _) => Some(job.payload)
    case _ => None
  }

  /** unwrapJobEnvelope fails closed: with PKI only a payload signed under a held key passes. */
  lemma UnwrapAuthentic(w: World, s: State)
    requires s.jobData.Some? && HeldKeys(s.pki) <= s.trusted
    requires UnwrapJobEnvelope(w, s.pki, s.jobData.value).Ok?
    ensures Authentic(w, s, UnwrapJobEnvelope(w, s.pki, s.jobData.value).value)
  {
  }

  lemma CarriedStep(w: World, s: State, a: Answers)
    requires s.handler.At? && !s.handler.pc.Return?
    ensures
      var e := HandlerEffect(w, s, a);
      && (e.next.Unwrap? ==> s.jobData == Some(e.next.raw))
      && (Carried(e.next).Some? ==>
            if s.handler.pc.Unwrap?
            then UnwrapJobEnvelope(w, s.pki, s.handler.pc.raw) == Ok(Carried(e.next).value)
            else Carried(e.next) == Carried(s.handler.pc))
      && (e.execute.Some? ==> e.execute == Carried(s.handler.pc))
  {
    match s.handler.pc
    case Decode(payload) => assert ParseJob(w, payload).Ok? ==> ParseJob(w, payload).value.payload == payload;
    case Unwrap(raw) => assert Carried(HandlerEffect(w, s, a).next).Some? ==> UnwrapJobEnvelope(w, s.pki, raw).Ok?;
    case _ =>
  }

  lemma AuthenticStep(w: World, s: State, l: Label)
    requires AllAuthentic(w, s) && CanHappen(s, l)
    ensures AllAuthentic(w, Next(w, s, l))
  {
    if l.Step? {
      if !s.handler.pc.Return? {
        CarriedStep(w, s, l.answers);
      }
      if s.handler.pc.Unwrap? && UnwrapJobEnvelope(w, s.pki, s.handler.pc.raw).Ok? {
        UnwrapAuthentic(w, s);
      }
    }
    var s' := Next(w, s, l);
    assert forall p :: Authentic(w, s, p) ==> Authentic(w, s', p);
    forall i | 0 <= i < |s'.executed|
      ensures Authentic(w, s', s'.executed[i])
    {
      if i < |s.executed| {
        assert Authentic(w, s, s.executed[i]);
      }
    }
  }

  lemma SoundStep(w: World, s: State, l: Label)
    requires Sound(w, s) && CanHappen(s, l)
    ensures Sound(w, Next(w, s, l))
  {
    ShapedStep(w, s, l);
    ConservedStep(w, s, l);
    BackedStep(w, s, l);
    KeptStep(w, s, l);
    SettledStep(w, s, l);
    AuthenticStep(w, s, l);
  }

  /** Every reachable state is sound. */
  lemma {:induction false} SoundRun(w: World, s: State, ls: seq<Label>)
    requires Sound(w, s) && Run(w, s, ls).Some?
    ensures Sound(w, Run(w, s, ls).value)
    decreases |ls|
  {
    if ls == [] {
    } else {
      SoundStep(w, s, ls[0]);
      SoundRun(w, Next(w, s, ls[0]), ls[1..]);
    }
  }

  lemma Reachable(w: World, s0: State, ls: seq<Label>)
    requires Initial(s0) && Run(w, s0, ls).Some?
    ensures Sound(w, Run(w, s0, ls).value)
  {
    SoundRun(w, s0, ls);
  }

  /** In every reachable state a completed or skipped event has a durable response
      with that status behind it. Run by run, a terminal event reports the durable
      response of its own run, or it is a failed event of a run whose store failed. */
  lemma TerminalEventsAreBacked(w: World, s0: State, ls: seq<Label>)
    requires Initial(s0) && Run(w, s0, ls).Some?
    ensures
      var s := Run(w, s0, ls).value;
      && (forall i | 0 <= i < |s.log| && s.log[i].kind.Terminal? && s.log[i].kind.status != Failed ::
            && s.log[i].response.Some?
            && s.log[i].response.value in s.responses
            && s.log[i].response.value.status == s.log[i].kind.status)
      && (forall i | 0 <= i < |s.log| && s.log[i].response.Some? :: s.log[i].response.value in s.responses)
      && Tally(s.log, Unbacked) <= Count(w, s0, ls, StoreFails)
      && (forall i | 0 <= i < |s.history| && s.history[i].wrote.terminal.Some? && !s.history[i].wrote.storeFailed ::
            && s.history[i].answer.Some?
            && s.history[i].answer.value in s.responses
            && s.history[i].answer.value.status == s.history[i].wrote.terminal.value)
      && (forall i | 0 <= i < |s.history| && s.history[i].wrote.storeFailed && s.history[i].wrote.terminal.Some? ::
            s.history[i].wrote.terminal.value == Failed)
  {
    Reachable(w, s0, ls);
    var s := Run(w, s0, ls).value;
    forall i | 0 <= i < |s.log|
      ensures Backed(s, s.log[i])
    {
    }
    forall i | 0 <= i < |s.history|
      ensures WellShaped(s.history[i])
    {
    }
    UnbackedRun(w, s0, ls, 0);
  }

  // ------------------------------------------------------- counting events

  function Tally(log: seq<Event>, p: Event -> bool): nat {
    if log == [] then 0
    else Tally(log[..|log| - 1], p) + (if p(log[|log| - 1]) then 1 else 0)
  }

  lemma TallyAppend(log: seq<Event>, e: Event, p: Event -> bool)
    ensures Tally(log + [e], p) == Tally(log, p) + (if p(e) then 1 else 0)
  {
    assert (log + [e])[..|log|] == log;
  }

  /** The event a step writes. */
  function Written(w: World, s: State, l: Label): Option<Event>
    requires CanHappen(s, l)
  {
    if l.Step? && !s.handler.pc.Return? then
      var e := HandlerEffect(w, s, l.answers);
      if e.event.Some? then Some(Event(e.event.value, s.hostname, s.handler.answer)) else None
    else None
  }

  lemma LogGrows(w: World, s: State, l: Label, p: Event -> bool)
    requires CanHappen(s, l)
    ensures
      var e := Written(w, s, l);
      && Next(w, s, l).log == (if e.Some? then s.log + [e.value] else s.log)
      && Tally(Next(w, s, l).log, p) == Tally(s.log, p) + (if e.Some? && p(e.value) then 1 else 0)
  {
    var e := Written(w, s, l);
    if e.Some? {
      TallyAppend(s.log, e.value, p);
    }
  }

  /** A terminal event with no durable response behind it. */
  predicate Unbacked(e: Event) {
    e.kind.Terminal? && e.response.None?
  }

  /** Storing the response fails, and nothing is stored. */
  predicate StoreFails(s: State, l: Label) {
    s.handler.At? && s.handler.pc.Store? && l.Step? && l.answers.store.NotStored?
  }

  predicate UnbackedPaid(s: State, n: int) {
    && Tally(s.log, Unbacked) + (if Bare(s.handler) then 1 else 0) <= n
    && (s.handler.At? && s.handler.pc.WriteTerminal? ==> s.handler.answer.Some?)
  }

  /** About to report that storing the response failed, with none stored. */
  predicate Bare(h: Handler) {
    h.At? && h.pc.WriteStoreFailure? && h.answer.None?
  }

  lemma UnbackedStep(w: World, s: State, l: Label, n: int)
    requires UnbackedPaid(s, n) && CanHappen(s, l)
    ensures UnbackedPaid(Next(w, s, l), n + (if StoreFails(s, l) then 1 else 0))
  {
    LogGrows(w, s, l, Unbacked);
    if l.Step? && !s.handler.pc.Return? {
      BareStep(w, s, l.answers);
    }
  }

  lemma BareStep(w: World, s: State, a: Answers)
    requires s.handler.At? && !s.handler.pc.Return?
    ensures
      var e := HandlerEffect(w, s, a);
      var h := Apply(s, e).handler;
      && (Bare(h) ==> StoreFails(s, Step(a)))
      && (h.pc.WriteTerminal? ==> h.answer.Some?)
      && (e.event.Some? && e.event.value.Terminal? && s.handler.answer.None? ==>
            s.handler.pc.WriteTerminal? || Bare(s.handler))
  {
    if Rank(s.handler.pc) > 4 {
      EarlyStep(w, s, a);
    }
  }

  lemma {:induction false} UnbackedRun(w: World, s: State, ls: seq<Label>, n: int)
    requires UnbackedPaid(s, n) && Run(w, s, ls).Some?
    ensures UnbackedPaid(Run(w, s, ls).value, n + Count(w, s, ls, StoreFails))
    decreases |ls|
  {
    if ls == [] {
    } else {
      UnbackedStep(w, s, ls[0], n);
      UnbackedRun(w, Next(w, s, ls[0]), ls[1..], n + (if StoreFails(s, ls[0]) then 1 else 0));
    }
  }

  /** The events of every run are a subsequence of acknowledged, started, one
      terminal event, in that order, and the log is those subsequences one after the
      other; a run that was rejected, already answered or found no job wrote nothing
      and executed nothing; the executions are the runs that reached the operation. */
  lemma {:induction false} LogIsTheRuns(w: World, s0: State, ls: seq<Label>)
    requires Initial(s0) && Run(w, s0, ls).Some?
    ensures
      var s := Run(w, s0, ls).value;
      && Kinds(s.log) == AllEvents(s.history) + (if s.handler.At? then Events(s.handler.wrote) else [])
      && |s.executed| == RunsThatRan(s.history) + (if s.handler.At? && s.handler.ran then 1 else 0)
      && (forall i | 0 <= i < |s.history| && (s.history[i].end.AlreadyAnswered? || s.history[i].end.JobNotFound?
                                              || s.history[i].end.Rejected?) ::
            Events(s.history[i].wrote) == [] && !s.history[i].ran)
      && (forall i | 0 <= i < |s.history| && s.history[i].wrote.terminal.Some? && !s.history[i].ran ::
            s.history[i].wrote.terminal.value == Failed)
  {
    Reachable(w, s0, ls);
    var s := Run(w, s0, ls).value;
    forall i | 0 <= i < |s.history|
      ensures WellShaped(s.history[i])
    {
    }
  }

  /** Once the message is acknowledged or terminated, nothing about the job ever
      changes again: no execution, no response, no event. */
  lemma SettledIsFinal(w: World, s0: State, ls: seq<Label>, more: seq<Label>)
    requires Initial(s0) && Run(w, s0, ls).Some?
    requires !Run(w, s0, ls).value.message.Pending?
    requires Run(w, Run(w, s0, ls).value, more).Some?
    ensures
      var s := Run(w, s0, ls).value;
      var s' := Run(w, s, more).value;
      s'.executed == s.executed && s'.responses == s.responses && s'.log == s.log && s'.message == s.message
  {
    Reachable(w, s0, ls);
    Frozen(w, Run(w, s0, ls).value, more);
  }

  lemma {:induction false} Frozen(w: World, s: State, ls: seq<Label>)
    requires Settled(s) && !s.message.Pending? && Run(w, s, ls).Some?
    ensures
      var s' := Run(w, s, ls).value;
      s'.executed == s.executed && s'.responses == s.responses && s'.log == s.log && s'.message == s.message
    decreases |ls|
  {
    if ls == [] {
    } else {
      SettledStep(w, s, ls[0]);
      Frozen(w, Next(w, s, ls[0]), ls[1..]);
    }
  }

  /** With PKI enabled every executed payload was signed under a key the agent held;
      an agent that never held one executes nothing. Without PKI it is the job data. */
  lemma OnlyAuthenticJobsRun(w: World, s0: State, ls: seq<Label>)
    requires Initial(s0) && Run(w, s0, ls).Some?
    ensures
      var s := Run(w, s0, ls).value;
      && (forall i | 0 <= i < |s.executed| :: Authentic(w, s, s.executed[i]))
      && (s.pki.Enabled? && s.trusted == {} ==> s.executed == [])
  {
    Reachable(w, s0, ls);
    var s := Run(w, s0, ls).value;
    if s.executed != [] {
      assert Authentic(w, s, s.executed[0]);
    }
  }
}
