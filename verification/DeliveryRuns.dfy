/** A handler that is left alone, and how runs are put together. */
module DeliveryRuns {
  import opened Base
  import opened Delivery
  import opened DeliverySafety

  /** The handler, undisturbed, until its rank is at most k; 0 is its return. */
  function Driven(w: World, s: State, a: Answers, k: nat): (s': State)
    requires s.handler.At?
    ensures s'.handler.At? && Rank(s'.handler.pc) <= k
    decreases Rank(s.handler.pc)
  {
    if Rank(s.handler.pc) <= k then s else Driven(w, HandlerStep(w, s, a), a, k)
  }

  // --------------------------------------------------------- composing runs

  lemma {:induction false} RunAppend(w: World, s: State, ls: seq<Label>, more: seq<Label>)
    requires Run(w, s, ls).Some?
    ensures Run(w, s, ls + more) == Run(w, Run(w, s, ls).value, more)
    decreases |ls|
  {
    if ls == [] {
      assert ls + more == more;
    } else {
      RunAppend(w, Next(w, s, ls[0]), ls[1..], more);
      assert (ls + more)[1..] == ls[1..] + more;
    }
  }

  lemma {:induction false} CountAppend(w: World, s: State, ls: seq<Label>, more: seq<Label>, p: (State, Label) -> bool)
    requires Run(w, s, ls).Some?
    ensures Count(w, s, ls + more, p) == Count(w, s, ls, p) + Count(w, Run(w, s, ls).value, more, p)
    decreases |ls|
  {
    if ls == [] {
      assert ls + more == more;
    } else {
      CountAppend(w, Next(w, s, ls[0]), ls[1..], more, p);
      assert (ls + more)[1..] == ls[1..] + more;
    }
  }

  /** How the excuses of a run add up. */
  ghost predicate Excused(w: World, s: State, ls: seq<Label>, i: nat, e: nat, r: nat) {
    && Run(w, s, ls).Some?
    && Count(w, s, ls, Interrupts) == i && Count(w, s, ls, CheckErrs) == e && Count(w, s, ls, Renames) == r
  }

  lemma ExcusedAppend(w: World, s: State, ls: seq<Label>, i: nat, e: nat, r: nat,
                      more: seq<Label>, i': nat, e': nat, r': nat)
    requires Excused(w, s, ls, i, e, r) && Excused(w, Run(w, s, ls).value, more, i', e', r')
    ensures Excused(w, s, ls + more, i + i', e + e', r + r')
    ensures Run(w, s, ls + more) == Run(w, Run(w, s, ls).value, more)
  {
    RunAppend(w, s, ls, more);
    CountAppend(w, s, ls, more, Interrupts);
    CountAppend(w, s, ls, more, CheckErrs);
    CountAppend(w, s, ls, more, Renames);
  }

  lemma ExcusedOne(w: World, s: State, l: Label)
    requires CanHappen(s, l)
    ensures Excused(w, s, [l], if Interrupts(s, l) then 1 else 0, if CheckErrs(s, l) then 1 else 0,
                    if Renames(s, l) then 1 else 0)
    ensures Run(w, s, [l]) == Some(Next(w, s, l))
  {
    assert [l][1..] == [];
    assert Run(w, Next(w, s, l), []) == Some(Next(w, s, l));
    assert Count(w, Next(w, s, l), [], Interrupts) == 0;
    assert Count(w, Next(w, s, l), [], CheckErrs) == 0;
    assert Count(w, Next(w, s, l), [], Renames) == 0;
  }

  lemma Downwards(w: World, s: State, a: Answers)
    requires s.handler.At? && !s.handler.pc.Return?
    ensures
      var e := HandlerEffect(w, s, a);
      && Rank(e.next) < Rank(s.handler.pc)
      && (e.execute.Some? ==> Rank(s.handler.pc) == 4)
  {
    if Rank(s.handler.pc) > 4 {
      EarlyStep(w, s, a);
    }
  }

  /** An undisturbed handler is a run of the machine, excused by nothing but its answer check. */
  lemma {:induction false} DrivenIsRun(w: World, s: State, a: Answers, k: nat) returns (ls: seq<Label>)
    requires s.handler.At?
    ensures Excused(w, s, ls, 0, if Rank(s.handler.pc) > k && CheckErrs(s, Step(a)) then 1 else 0, 0)
    ensures Run(w, s, ls) == Some(Driven(w, s, a, k))
    decreases Rank(s.handler.pc)
  {
    if Rank(s.handler.pc) <= k {
      ls := [];
    } else {
      Downwards(w, s, a);
      var s' := Apply(s, HandlerEffect(w, s, a));
      assert Next(w, s, Step(a)) == HandlerStep(w, s, a) == s';
      ExcusedOne(w, s, Step(a));
      var rest := DrivenIsRun(w, s', a, k);
      ExcusedAppend(w, s, [Step(a)], 0, if CheckErrs(s, Step(a)) then 1 else 0, 0, rest, 0, 0, 0);
      ls := [Step(a)] + rest;
    }
  }

  // --------------------------------------------------------- single steps

  lemma DriveTo(w: World, s: State, a: Answers, k: nat)
    requires s.handler.At? && Rank(s.handler.pc) > k
    ensures Driven(w, s, a, k) == Driven(w, HandlerStep(w, s, a), a, k)
  {
  }

  lemma LastStep(w: World, s: State, a: Answers, s': State)
    requires s.handler.At? && Rank(s.handler.pc) > 0
    requires HandlerStep(w, s, a) == s' && s'.handler.At? && s'.handler.pc.Return?
    ensures Driven(w, s, a, 0) == s'
  {
  }

  /** The step that stores the response, written out. */
  lemma StoreStep(w: World, s: State, a: Answers)
    requires s.handler.At? && s.handler.pc.Store?
    ensures
      var r := s.handler.pc.response;
      HandlerStep(w, s, a)
      == s.(responses := if a.store.NotStored? then s.responses else s.responses + {r},
            handler := At(if a.store.Stored? then WriteTerminal(r) else WriteStoreFailure,
                          s.handler.ran,
                          if a.store.NotStored? then s.handler.answer else Some(r),
                          if a.store.Stored? then s.handler.wrote else s.handler.wrote.(storeFailed := true)))
  {
  }

  /** The step that writes the terminal event, written out. */
  lemma ReportStep(w: World, s: State, a: Answers)
    requires s.handler.At? && (s.handler.pc.WriteTerminal? || s.handler.pc.WriteStoreFailure?)
    ensures
      var kind := Terminal(if s.handler.pc.WriteTerminal? then s.handler.pc.response.status else Failed);
      HandlerStep(w, s, a)
      == s.(log := if a.terminalOk then s.log + [Event(kind, s.hostname, s.handler.answer)] else s.log,
            handler := At(Return(Answered), s.handler.ran, s.handler.answer,
                          if a.terminalOk then Mark(s.handler.wrote, kind) else s.handler.wrote))
  {
  }

  /** A handler that has done nothing yet. */
  function Fresh(pc: Pc): Handler {
    At(pc, false, None, NOTHING)
  }
}
