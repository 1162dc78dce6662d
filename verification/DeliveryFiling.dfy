/** Under which host the events of a job are filed, what they say about its response,
    and when its message comes back. */
module DeliveryFiling {
  import opened Base
  import opened Delivery
  import opened DeliverySafety
  import opened DeliveryRuns

  // ------------------------------------------------------ which events deceive

  /** A terminal event filed under another host than the response it reports on. */
  predicate Misfiled(e: Event) {
    e.kind.Terminal? && e.response.Some? && e.response.value.host != e.host
  }

  /** A terminal event that contradicts the durable response of its run. */
  predicate Contradictory(e: Event) {
    e.kind.Terminal? && e.response.Some? && e.response.value.status != e.kind.status
  }

  predicate WritesTerminal(s: State, l: Label) {
    && l.Step? && l.answers.terminalOk
    && s.handler.At? && (s.handler.pc.WriteTerminal? || s.handler.pc.WriteStoreFailure?)
  }

  /** The terminal event is written when the hostname is no longer the response's. */
  predicate Misfiles(s: State, l: Label) {
    WritesTerminal(s, l) && s.handler.answer.Some? && s.handler.answer.value.host != s.hostname
  }

  /** The failure of a store is reported that did store, and stored no failure. */
  predicate Contradicts(s: State, l: Label) {
    && WritesTerminal(s, l) && s.handler.pc.WriteStoreFailure?
    && s.handler.answer.Some? && s.handler.answer.value.status != Failed
  }

  predicate Answering(h: Handler) {
    h.At? && h.pc.WriteTerminal? ==> h.answer == Some(h.pc.response)
  }

  lemma DeceivingStep(w: World, s: State, l: Label)
    requires Answering(s.handler) && CanHappen(s, l)
    ensures Answering(Next(w, s, l).handler)
    ensures
      var e := Written(w, s, l);
      && (e.Some? && Misfiled(e.value) <==> Misfiles(s, l))
      && (e.Some? && Contradictory(e.value) <==> Contradicts(s, l))
  {
    if l.Step? && !s.handler.pc.Return? {
      if Rank(s.handler.pc) > 4 {
        EarlyStep(w, s, l.answers);
      }
    }
  }

  /** Over every run there are as many misfiled and as many contradictory events as
      steps that write one: each way to get one is named, and no other. */
  lemma {:induction false} DeceptionsAreCounted(w: World, s: State, ls: seq<Label>)
    requires Answering(s.handler) && Run(w, s, ls).Some?
    ensures Answering(Run(w, s, ls).value.handler)
    ensures Tally(Run(w, s, ls).value.log, Misfiled) == Tally(s.log, Misfiled) + Count(w, s, ls, Misfiles)
    ensures Tally(Run(w, s, ls).value.log, Contradictory) == Tally(s.log, Contradictory) + Count(w, s, ls, Contradicts)
    decreases |ls|
  {
    if ls == [] {
    } else {
      DeceivingStep(w, s, ls[0]);
      LogGrows(w, s, ls[0], Misfiled);
      LogGrows(w, s, ls[0], Contradictory);
      DeceptionsAreCounted(w, Next(w, s, ls[0]), ls[1..]);
    }
  }

  // --------------------------------------------------- where events are filed

  /** The host under which the run in progress has stored or will store its response. */
  function AnswerHost(h: Handler): Option<Host> {
    if h.Absent? then None
    else
      match h.pc
      case Running(captured) => Some(captured)
      case Store(r) => Some(r.host)
      case WriteTerminal(r) => Some(r.host)
      case WriteStoreFailure => if h.answer.Some? then Some(h.answer.value.host) else None
      case _ => None
  }

  /** A rename between the moment the response's hostname is fixed and the terminal event. */
  predicate RenamesMidAnswer(s: State, l: Label) {
    AnswerHost(s.handler).Some? && Renames(s, l)
  }

  /** The answer under way, if any, is for another host than the current one. */
  predicate Astray(s: State) {
    AnswerHost(s.handler).Some? && AnswerHost(s.handler).value != s.hostname
  }

  predicate AnswerFits(h: Handler) {
    h.At? ==>
      && (h.answer.Some? ==> AfterStore(h.pc))
      && (h.pc.WriteTerminal? ==> h.answer == Some(h.pc.response))
  }

  predicate Filed(s: State, n: int) {
    Tally(s.log, Misfiled) + (if Astray(s) then 1 else 0) <= n && AnswerFits(s.handler)
  }

  /** The handler leaves the answer's host alone until it is done with it. */
  lemma AnswerStep(w: World, s: State, a: Answers)
    requires s.handler.At? && !s.handler.pc.Return? && AnswerFits(s.handler)
    ensures AnswerFits(Apply(s, HandlerEffect(w, s, a)).handler)
  {
    if Rank(s.handler.pc) > 4 {
      EarlyStep(w, s, a);
    }
  }

  lemma AnswerHostStep(w: World, s: State, a: Answers)
    requires s.handler.At? && !s.handler.pc.Return? && AnswerFits(s.handler)
    ensures
      var e := HandlerEffect(w, s, a);
      var now := AnswerHost(Apply(s, e).handler);
      && (now.Some? ==> now == AnswerHost(s.handler) || now.value == s.hostname)
      && (e.event.Some? && e.event.value.Terminal? ==>
            now.None? && (s.handler.answer.Some? ==> AnswerHost(s.handler) == Some(s.handler.answer.value.host)))
  {
    if Rank(s.handler.pc) > 4 {
      EarlyStep(w, s, a);
    }
  }

  lemma FiledStep(w: World, s: State, l: Label, n: int)
    requires Filed(s, n) && CanHappen(s, l)
    ensures Filed(Next(w, s, l), n + (if RenamesMidAnswer(s, l) then 1 else 0))
  {
    LogGrows(w, s, l, Misfiled);
    if l.Step? && !s.handler.pc.Return? {
      AnswerStep(w, s, l.answers);
      AnswerHostStep(w, s, l.answers);
    }
  }

  /** A terminal event is filed under the host of its response, except at most once
      for every rename that struck while the answer was under way. */
  lemma EventsAreFiledWithTheirResponse(w: World, s0: State, ls: seq<Label>)
    requires Initial(s0) && Run(w, s0, ls).Some?
    ensures Tally(Run(w, s0, ls).value.log, Misfiled) <= Count(w, s0, ls, RenamesMidAnswer)
  {
    FiledRun(w, s0, ls, 0);
  }

  lemma {:induction false} FiledRun(w: World, s: State, ls: seq<Label>, n: int)
    requires Filed(s, n) && Run(w, s, ls).Some?
    ensures Filed(Run(w, s, ls).value, n + Count(w, s, ls, RenamesMidAnswer))
    decreases |ls|
  {
    if ls == [] {
    } else {
      FiledStep(w, s, ls[0], n);
      FiledRun(w, Next(w, s, ls[0]), ls[1..], n + (if RenamesMidAnswer(s, ls[0]) then 1 else 0));
    }
  }

  /** As long as no rename strikes while an answer is under way, every completed or
      skipped event has a response under the very host it is filed under. */
  lemma EventsLeadToTheirResponse(w: World, s0: State, ls: seq<Label>)
    requires Initial(s0) && Run(w, s0, ls).Some? && Count(w, s0, ls, RenamesMidAnswer) == 0
    ensures
      var s := Run(w, s0, ls).value;
      forall i | 0 <= i < |s.log| && s.log[i].kind.Terminal? && s.log[i].kind.status != Failed ::
        Response(s.log[i].host, s.log[i].kind.status) in s.responses && HasResponse(s.responses, s.log[i].host)
  {
    var s := Run(w, s0, ls).value;
    EventsAreFiledWithTheirResponse(w, s0, ls);
    TerminalEventsAreBacked(w, s0, ls);
    forall i | 0 <= i < |s.log| && s.log[i].kind.Terminal? && s.log[i].kind.status != Failed
      ensures Response(s.log[i].host, s.log[i].kind.status) in s.responses && HasResponse(s.responses, s.log[i].host)
    {
      NoneTallied(s.log, Misfiled, i);
      assert s.log[i].response.value == Response(s.log[i].host, s.log[i].kind.status);
    }
  }

  lemma {:induction false} NoneTallied(log: seq<Event>, p: Event -> bool, i: nat)
    requires i < |log| && Tally(log, p) == 0
    ensures !p(log[i])
    decreases |log|
  {
    if i == |log| - 1 {
    } else {
      NoneTallied(log[..|log| - 1], p, i);
    }
  }

  /** For an answer that is stored and reported: its event is misfiled exactly if the
      hostname is another than the answer's when the handler is left to itself. A
      rename away and back does no harm. */
  lemma MisfiledIffAstray(w: World, s: State, a: Answers)
    requires s.handler.At? && AnswerFits(s.handler) && a.terminalOk && a.store.Stored?
    requires s.handler.pc.Running? || s.handler.pc.Store? || s.handler.pc.WriteTerminal?
    ensures Tally(Driven(w, s, a, 0).log, Misfiled) == Tally(s.log, Misfiled) + (if Astray(s) then 1 else 0)
    decreases Rank(s.handler.pc)
  {
    if s.handler.pc.WriteTerminal? {
      MisfiledAtTheEnd(w, s, a);
    } else {
      var s' := HandlerStep(w, s, a);
      TowardsTheEnd(w, s, a);
      DriveTo(w, s, a, 0);
      MisfiledIffAstray(w, s', a);
    }
  }

  lemma MisfiledAtTheEnd(w: World, s: State, a: Answers)
    requires s.handler.At? && AnswerFits(s.handler) && a.terminalOk && s.handler.pc.WriteTerminal?
    ensures Tally(Driven(w, s, a, 0).log, Misfiled) == Tally(s.log, Misfiled) + (if Astray(s) then 1 else 0)
  {
    ReportStep(w, s, a);
    LastStep(w, s, a, HandlerStep(w, s, a));
    TallyAppend(s.log, Event(Terminal(s.handler.pc.response.status), s.hostname, s.handler.answer), Misfiled);
  }

  /** The answer's host is settled when the operation runs. */
  lemma TowardsTheEnd(w: World, s: State, a: Answers)
    requires s.handler.At? && AnswerFits(s.handler) && a.store.Stored?
    requires s.handler.pc.Running? || s.handler.pc.Store?
    ensures
      var s' := HandlerStep(w, s, a);
      && s'.log == s.log && (Astray(s') <==> Astray(s))
      && s'.handler.At? && AnswerFits(s'.handler)
      && (s'.handler.pc.Store? || s'.handler.pc.WriteTerminal?)
      && Rank(s'.handler.pc) < Rank(s.handler.pc)
  {
    if s.handler.pc.Store? {
      StoreStep(w, s, a);
    } else {
      assert HandlerEffect(w, s, a) == Go(Store(Response(s.handler.pc.captured, StatusOf(a.op))));
    }
  }

  // ---------------------------------------------------- messages that come back

  /** What a step does to the message: only a rejection can end it, if the server takes
      the termination. */
  lemma RejectionStep(w: World, s: State, a: Answers)
    requires s.handler.At? && !s.handler.pc.Return?
    ensures
      var e := HandlerEffect(w, s, a);
      e.terminate <==> a.termOk && e.next.Return? && e.next.end.Rejected?
  {
    if Rank(s.handler.pc) > 4 {
      EarlyStep(w, s, a);
    }
  }

  lemma {:induction false} DrivenMessage(w: World, s: State, a: Answers)
    requires s.handler.At? && !s.handler.pc.Return?
    ensures
      var s' := Driven(w, s, a, 0);
      && s'.handler.pc.Return?
      && s'.message == if s'.handler.pc.end.Rejected? && a.termOk then Terminated else s.message
    decreases Rank(s.handler.pc)
  {
    var e := HandlerEffect(w, s, a);
    var s' := Apply(s, e);
    RejectionStep(w, s, a);
    Downwards(w, s, a);
    assert HandlerStep(w, s, a) == s';
    if e.next.Return? {
      LastStep(w, s, a, s');
    } else {
      DriveTo(w, s, a, 0);
      DrivenMessage(w, s', a);
    }
  }

  lemma {:induction false} DrivenExecutes(w: World, s: State, a: Answers)
    requires s.handler.At?
    ensures |Driven(w, s, a, 0).executed| <= |s.executed| + (if Rank(s.handler.pc) > 3 then 1 else 0)
    decreases Rank(s.handler.pc)
  {
    if s.handler.pc.Return? {
    } else {
      var s' := Apply(s, HandlerEffect(w, s, a));
      Downwards(w, s, a);
      assert HandlerStep(w, s, a) == s';
      DriveTo(w, s, a, 0);
      DrivenExecutes(w, s', a);
    }
  }

  // ------------------------------------------------------ one delivery, in whole

  /** The state after one delivery that nothing interrupts. */
  function Delivered(w: World, s: State, a: Answers): State {
    HandlerStep(w, Driven(w, Receive(s), a, 0), a)
  }

  /** What such a delivery may cost. */
  function DeliveryExcuses(w: World, s: State, a: Answers): nat {
    (if a.checkOk then 0 else 1) + (if !a.ackArrives && Exposed(Driven(w, Receive(s), a, 0)) then 1 else 0)
  }

  lemma DeliveryIsRun(w: World, s: State, a: Answers) returns (ls: seq<Label>)
    requires CanHappen(s, Deliver)
    ensures Run(w, s, ls) == Some(Delivered(w, s, a)) && Excuses(w, s, ls) == DeliveryExcuses(w, s, a)
    ensures Excused(w, s, ls, DeliveryExcuses(w, s, a) - (if a.checkOk then 0 else 1), if a.checkOk then 0 else 1, 0)
  {
    var s1 := Receive(s);
    var e := if a.checkOk then 0 else 1;
    ExcusedOne(w, s, Deliver);
    var steps := DrivenIsRun(w, s1, a, 0);
    ExcusedAppend(w, s, [Deliver], 0, 0, 0, steps, 0, e, 0);
    var s2 := Driven(w, s1, a, 0);
    var i := if Interrupts(s2, Step(a)) then 1 else 0;
    ExcusedOne(w, s2, Step(a));
    ls := [Deliver] + steps + [Step(a)];
    ExcusedAppend(w, s, [Deliver] + steps, 0, e, 0, [Step(a)], i, 0, 0);
  }

  /** It keeps every invariant, executes the operation at most once, not at all when the
      check finds an answer, and costs what it may. */
  lemma DeliveryIsSafe(w: World, s: State, a: Answers)
    requires CanHappen(s, Deliver)
    ensures Sound(w, s) ==> Sound(w, Delivered(w, s, a))
    ensures |Delivered(w, s, a).executed| <= |s.executed| + 1
    ensures a.checkOk && HasResponse(s.responses, s.hostname) ==> Delivered(w, s, a).executed == s.executed
    ensures forall n :: Paid(s, n) ==> Paid(Delivered(w, s, a), n + DeliveryExcuses(w, s, a))
  {
    var ls := DeliveryIsRun(w, s, a);
    if Sound(w, s) {
      SoundRun(w, s, ls);
    }
    DrivenExecutes(w, Receive(s), a);
    if a.checkOk && HasResponse(s.responses, s.hostname) {
      var s1 := HandlerStep(w, Receive(s), a);
      assert s1.handler.pc == Return(AlreadyAnswered);
      LastStep(w, Receive(s), a, s1);
    }
    forall n | Paid(s, n)
      ensures Paid(Delivered(w, s, a), n + DeliveryExcuses(w, s, a))
    {
      PaidRun(w, s, ls, n);
    }
  }

  /** A delivery that nothing interrupts is followed by another exactly if it was
      rejected and the termination failed, if the job was not found, or if it was
      acknowledged in vain. */
  lemma ComesBackIff(w: World, s: State, a: Answers)
    requires CanHappen(s, Deliver)
    ensures
      var s1 := Driven(w, Receive(s), a, 0);
      && s1.handler.pc.Return?
      && (CanHappen(Delivered(w, s, a), Deliver) <==>
            match s1.handler.pc.end
            case Rejected(_) => !a.termOk
            case JobNotFound => true
            case AlreadyAnswered => !a.ackArrives
            case Answered => !a.ackArrives
            case Crashed => true)
  {
    DrivenMessage(w, Receive(s), a);
  }
}
