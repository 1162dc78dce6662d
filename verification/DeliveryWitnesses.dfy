/** Runs built by hand, which show that the bounds of DeliverySafety cannot be improved and
    that what the handler does not promise does happen. */
module DeliveryWitnesses {
  import opened Base
  import opened Delivery
  import opened DeliveryFiling
  import opened DeliveryOutcome
  import opened DeliveryRuns

  /** The job data passes every check of the handler. */
  predicate Executable(w: World, pki: Pki, raw: Bytes) {
    && w.subjectParses
    && UnwrapJobEnvelope(w, pki, raw).Ok?
    && ParseJob(w, UnwrapJobEnvelope(w, pki, raw).value).Ok?
  }

  /** Every call succeeds, except those named. */
  function Smooth(checkOk: bool, store: StoreOutcome, ackArrives: bool): Answers {
    Answers(checkOk, true, true, true, true, true, true, Succeeded, store, ackArrives)
  }

  /** The message waits for delivery and its job data is in place. */
  predicate Waiting(w: World, s: State, raw: Bytes) {
    s.message.Pending? && s.handler.Absent? && s.jobData == Some(raw) && Executable(w, s.pki, raw)
  }

  /** A delivery that runs the operation once and whose acknowledgement is lost. */
  lemma Round(w: World, s: State, raw: Bytes, checkOk: bool, stored: bool) returns (ls: seq<Label>)
    requires Waiting(w, s, raw)
    requires !checkOk || !HasResponse(s.responses, s.hostname)
    ensures Excused(w, s, ls, if stored then 0 else 1, if checkOk then 0 else 1, 0)
    ensures
      var s' := Run(w, s, ls).value;
      && Waiting(w, s', raw) && s'.hostname == s.hostname
      && |s'.executed| == |s.executed| + 1
      && s'.responses == s.responses + (if stored then {Response(s.hostname, Completed)} else {})
  {
    var a := Smooth(checkOk, if stored then Stored else NotStored, false);
    ls := DeliveryIsRun(w, s, a);
    DeliveryComesTo(w, s, a);
  }

  /** No host with a response has a longer name than the current one, so a longer
      name is a new one. */
  ghost predicate Short(s: State) {
    forall h :: HasResponse(s.responses, h) ==> |h| <= |s.hostname|
  }

  /** Every combination of excuses is used up by some run: the bound is tight. */
  lemma {:induction false} BoundIsTight(w: World, s0: State, raw: Bytes, i: nat, e: nat, r: nat)
    returns (ls: seq<Label>)
    requires Initial(s0) && Executable(w, s0.pki, raw)
    ensures Excused(w, s0, ls, i, e, r)
    ensures |Run(w, s0, ls).value.executed| == 1 + i + e + r
    ensures Waiting(w, Run(w, s0, ls).value, raw) && Short(Run(w, s0, ls).value)
    decreases r, e
  {
    if r > 0 {
      var before := BoundIsTight(w, s0, raw, i, e, r - 1);
      var s := Run(w, s0, before).value;
      var longer := s.hostname + "x";
      ExcusedOne(w, s, Rename(longer));
      ExcusedAppend(w, s0, before, i, e, r - 1, [Rename(longer)], 0, 0, 1);
      var s1 := s.(hostname := SanitizeKey(longer));
      var round := Round(w, s1, raw, true, true);
      ExcusedAppend(w, s0, before + [Rename(longer)], i, e, r, round, 0, 0, 0);
      ls := before + [Rename(longer)] + round;
    } else if e > 0 {
      var before := BoundIsTight(w, s0, raw, i, e - 1, 0);
      var s := Run(w, s0, before).value;
      var round := Round(w, s, raw, false, true);
      ExcusedAppend(w, s0, before, i, e - 1, 0, round, 0, 1, 0);
      ls := before + round;
    } else {
      var before := Interrupted(w, s0, raw, i);
      var s := Run(w, s0, before).value;
      var round := Round(w, s, raw, true, true);
      ExcusedAppend(w, s0, before, i, 0, 0, round, 0, 0, 0);
      ls := before + round;
    }
  }

  /** i executions whose response was never stored and whose acknowledgement was lost. */
  lemma {:induction false} Interrupted(w: World, s0: State, raw: Bytes, i: nat) returns (ls: seq<Label>)
    requires Initial(s0) && Executable(w, s0.pki, raw)
    ensures Excused(w, s0, ls, i, 0, 0)
    ensures
      var s := Run(w, s0, ls).value;
      Waiting(w, s, raw) && s.responses == {} && |s.executed| == i
  {
    if i == 0 {
      ls := [Publish(raw)];
      ExcusedOne(w, s0, Publish(raw));
    } else {
      var before := Interrupted(w, s0, raw, i - 1);
      var s := Run(w, s0, before).value;
      var round := Round(w, s, raw, true, false);
      ExcusedAppend(w, s0, before, i - 1, 0, 0, round, 1, 0, 0);
      ls := before + round;
    }
  }

  /** The job data arrives and the message is delivered. */
  lemma Arrives(w: World, s0: State, raw: Bytes) returns (s: State)
    requires Initial(s0) && Executable(w, s0.pki, raw)
    ensures Excused(w, s0, [Publish(raw)], 0, 0, 0) && Run(w, s0, [Publish(raw)]) == Some(s)
    ensures s == s0.(jobData := Some(raw)) && Waiting(w, s, raw)
  {
    ExcusedOne(w, s0, Publish(raw));
    s := s0.(jobData := Some(raw));
  }

  /** A first delivery up to the point where the operation is running. */
  lemma RunningFor(w: World, s0: State, raw: Bytes, a: Answers) returns (ls: seq<Label>)
    requires Initial(s0) && Executable(w, s0.pki, raw) && a == Smooth(true, Stored, true)
    ensures Excused(w, s0, ls, 0, 0, 0)
    ensures
      var s := Run(w, s0, ls).value;
      && s.handler == At(Running(s0.hostname), true, None, Wrote(true, true, None, false))
      && s.responses == {} && |s.log| == 2 && s.hostname == s0.hostname
  {
    var s1 := Arrives(w, s0, raw);
    ExcusedOne(w, s1, Deliver);
    ExcusedAppend(w, s0, [Publish(raw)], 0, 0, 0, [Deliver], 0, 0, 0);
    ComesToWork(w, s1, Admission(w, s1, a).value, a);
    var start := DrivenIsRun(w, Receive(s1), a, 3);
    ls := [Publish(raw)] + [Deliver] + start;
    ExcusedAppend(w, s0, [Publish(raw)] + [Deliver], 0, 0, 0, start, 0, 0, 0);
  }

  /** A rename while the operation runs leaves a completed event under a name that
      has no response: the documented order, response before event, fails the reader
      who looks under the event's host. */
  lemma RenameMisfilesTheEvent(w: World, s0: State, raw: Bytes, newName: string) returns (ls: seq<Label>)
    requires Initial(s0) && Executable(w, s0.pki, raw) && SanitizeKey(newName) != s0.hostname
    ensures Excused(w, s0, ls, 0, 0, 1)
    ensures
      var s := Run(w, s0, ls).value;
      && |s.log| == 3 && s.log[2].kind == Terminal(Completed) && s.log[2].host == SanitizeKey(newName)
      && s.responses == {Response(s0.hostname, Completed)} && !HasResponse(s.responses, SanitizeKey(newName))
  {
    var a := Smooth(true, Stored, true);
    var start := RunningFor(w, s0, raw, a);
    var s1 := Run(w, s0, start).value;
    ExcusedOne(w, s1, Rename(newName));
    ExcusedAppend(w, s0, start, 0, 0, 0, [Rename(newName)], 0, 0, 1);
    var s2 := s1.(hostname := SanitizeKey(newName));
    WorkSettles(w, s2, s0.hostname, a);
    var rest := DrivenIsRun(w, s2, a, 0);
    ls := start + [Rename(newName)] + rest;
    ExcusedAppend(w, s0, start + [Rename(newName)], 0, 0, 1, rest, 0, 0, 0);
  }

  /** A store that errs after storing leaves a failed event beside the completed
      response, without any crash, rename or failed check. */
  lemma FailedBesideCompleted(w: World, s0: State, raw: Bytes) returns (ls: seq<Label>)
    requires Initial(s0) && Executable(w, s0.pki, raw)
    ensures Excused(w, s0, ls, 0, 0, 0)
    ensures
      var s := Run(w, s0, ls).value;
      var response := Response(s0.hostname, Completed);
      && |s.log| == 3 && s.log[2] == Event(Terminal(Failed), s0.hostname, Some(response))
      && s.responses == {response} && Contradictory(s.log[2])
  {
    var a := Smooth(true, StoredButErrored, true);
    var s1 := Arrives(w, s0, raw);
    var rest := DeliveryIsRun(w, s1, a);
    DeliveryComesTo(w, s1, a);
    ls := [Publish(raw)] + rest;
    ExcusedAppend(w, s0, [Publish(raw)], 0, 0, 0, rest, 0, 0, 0);
  }
}
