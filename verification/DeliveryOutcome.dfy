/** One delivery in one piece: what the handler makes of every combination of stored state
    and answers, against the machine that takes it there step by step. */
module DeliveryOutcome {
  import opened Base
  import opened Delivery
  import opened DeliverySafety
  import opened DeliveryRuns
  import opened DeliveryFiling

  // ------------------------------------------------------ what opens an envelope

  /** The signature verifies under the controller's key or the one before the rotation. */
  ghost predicate SignedFor(w: World, pki: Pki, e: Envelope)
    requires pki.Enabled?
  {
    exists key :: (key == pki.controller || pki.previous == Some(key)) && w.verify(key, e.payload, e.signature)
  }

  predicate Complete(e: Envelope) {
    |e.payload| > 0 && |e.signature| > 0 && |e.fingerprint| > 0
  }

  /** Job data opens exactly if PKI is off, or it is a complete envelope, a controller key is
      held, and the signature verifies under the current key or the previous one; it then
      gives the payload. */
  lemma OpensIff(w: World, pki: Pki, data: Bytes, payload: Bytes)
    ensures UnwrapJobEnvelope(w, pki, data) == Ok(payload) <==>
      if pki.Disabled? then payload == data
      else
        var e := w.decodeEnvelope(data);
        && e.Some? && Complete(e.value) && e.value.payload == payload
        && pki.controller != "" && SignedFor(w, pki, e.value)
  {
    if pki.Enabled? && w.decodeEnvelope(data).Some? {
      GraceIsEitherKey(w, pki, w.decodeEnvelope(data).value);
    }
  }

  lemma GraceIsEitherKey(w: World, pki: Pki, e: Envelope)
    requires pki.Enabled?
    ensures VerifyWithGrace(w, pki, e.payload, e.signature) <==> SignedFor(w, pki, e)
  {
    if w.verify(pki.controller, e.payload, e.signature) {
      assert SignedFor(w, pki, e);
    }
    if pki.previous.Some? && w.verify(pki.previous.value, e.payload, e.signature) {
      assert SignedFor(w, pki, e);
    }
  }

  /** And each way to fail has its reason. */
  lemma StaysShutBecause(w: World, pki: Pki, data: Bytes)
    requires UnwrapJobEnvelope(w, pki, data).Err?
    ensures
      var e := w.decodeEnvelope(data);
      var reason := UnwrapJobEnvelope(w, pki, data).error;
      && pki.Enabled?
      && (reason == MissingEnvelope <==> e.None? || !Complete(e.value))
      && (reason == NotEnrolled <==> e.Some? && Complete(e.value) && pki.controller == "")
      && (reason == InvalidSignature <==>
            e.Some? && Complete(e.value) && pki.controller != "" && !SignedFor(w, pki, e.value))
  {
    if w.decodeEnvelope(data).Some? {
      GraceIsEitherKey(w, pki, w.decodeEnvelope(data).value);
    }
  }

  // ------------------------------------------------------------ the whole delivery

  /** The job, if the delivery gets as far as one, or how it ends before. */
  function Admission(w: World, s: State, a: Answers): Result<Job, End> {
    if a.checkOk && HasResponse(s.responses, s.hostname) then Err(AlreadyAnswered)
    else if !w.subjectParses then Err(Rejected(UnparsableSubject))
    else if !a.fetchOk || s.jobData.None? then Err(JobNotFound)
    else
      var unwrapped := UnwrapJobEnvelope(w, s.pki, s.jobData.value);
      if unwrapped.Err? then Err(Rejected(unwrapped.error))
      else
        var job := ParseJob(w, unwrapped.value);
        if job.Err? then Err(Rejected(job.error)) else Ok(job.value)
  }

  /** What the response says: failed facts are a failure, whatever the operation would do. */
  function StatusToAnswer(a: Answers): Status {
    if a.factsOk && a.op.Succeeded? then Completed
    else if a.factsOk && a.op.Unsupported? then Skipped
    else Failed
  }

  /** The events before the operation. */
  function Announced(s: State, a: Answers): seq<Event> {
    (if a.acknowledgedOk then [Event(Acknowledged, s.hostname, None)] else [])
    + (if a.startedOk then [Event(Started, s.hostname, None)] else [])
  }

  /** The response that ends up stored, whether or not the store said so. */
  function Kept(s: State, a: Answers): Option<Response> {
    if a.store.NotStored? then None else Some(Response(s.hostname, StatusToAnswer(a)))
  }

  /** The terminal event reports the response, or the failure of the store. */
  function Reported(s: State, a: Answers): seq<Event> {
    var status := if a.store.Stored? then StatusToAnswer(a) else Failed;
    if a.terminalOk then [Event(Terminal(status), s.hostname, Kept(s, a))] else []
  }

  function WroteAll(a: Answers): Wrote {
    Wrote(a.acknowledgedOk, a.startedOk,
          if !a.terminalOk then None else if a.store.Stored? then Some(StatusToAnswer(a)) else Some(Failed),
          !a.store.Stored?)
  }

  function Processed(s: State, job: Job, a: Answers): State {
    s.(executed := if a.factsOk then s.executed + [job.payload] else s.executed,
       responses := if Kept(s, a).Some? then s.responses + {Kept(s, a).value} else s.responses,
       log := s.log + Announced(s, a) + Reported(s, a),
       handler := At(Return(Answered), a.factsOk, Kept(s, a), WroteAll(a)))
  }

  function Turned(s: State, end: End, a: Answers): State {
    s.(message := if end.Rejected? && a.termOk then Terminated else s.message,
       handler := Fresh(Return(end)))
  }

  function Handled(w: World, s: State, a: Answers): State {
    match Admission(w, s, a)
    case Err(end) => Turned(s, end, a)
    case Ok(job) => Processed(s, job, a)
  }

  // -------------------------------------------------------------- step by step

  lemma Leads(w: World, s: State, a: Answers, next: State, k: nat)
    requires s.handler.At? && Rank(s.handler.pc) > k && HandlerStep(w, s, a) == next && next.handler.At?
    ensures Driven(w, s, a, k) == Driven(w, next, a, k)
  {
  }

  lemma Returns(w: World, s: State, a: Answers, end: End, next: State, k: nat)
    requires s.handler.At? && Rank(s.handler.pc) > k
    requires HandlerStep(w, s, a) == next && next.handler == Fresh(Return(end))
    ensures Driven(w, s, a, k) == next
  {
  }

  /** A state of this delivery before anything is written. */
  function Before(s: State, pc: Pc): State {
    s.(handler := Fresh(pc))
  }

  lemma Checked(w: World, s: State, a: Answers, k: nat)
    requires k <= 3
    ensures Driven(w, Before(s, CheckAnswered), a, k)
         == if a.checkOk && HasResponse(s.responses, s.hostname) then Turned(s, AlreadyAnswered, a)
            else Driven(w, Before(s, ParseSubject), a, k)
  {
    var s1 := Before(s, CheckAnswered);
    if a.checkOk && HasResponse(s.responses, s.hostname) {
      Returns(w, s1, a, AlreadyAnswered, Turned(s, AlreadyAnswered, a), k);
    } else {
      Leads(w, s1, a, Before(s, ParseSubject), k);
    }
  }

  lemma Fetched(w: World, s: State, a: Answers, k: nat)
    requires k <= 3
    ensures Driven(w, Before(s, ParseSubject), a, k)
         == if !w.subjectParses then Turned(s, Rejected(UnparsableSubject), a)
            else if !a.fetchOk || s.jobData.None? then Turned(s, JobNotFound, a)
            else Driven(w, Before(s, Unwrap(s.jobData.value)), a, k)
  {
    var s1, s2 := Before(s, ParseSubject), Before(s, Fetch);
    if !w.subjectParses {
      Returns(w, s1, a, Rejected(UnparsableSubject), Turned(s, Rejected(UnparsableSubject), a), k);
    } else {
      Leads(w, s1, a, s2, k);
      if !a.fetchOk || s.jobData.None? {
        Returns(w, s2, a, JobNotFound, Turned(s, JobNotFound, a), k);
      } else {
        Leads(w, s2, a, Before(s, Unwrap(s.jobData.value)), k);
      }
    }
  }

  lemma Opened(w: World, s: State, raw: Bytes, a: Answers, k: nat)
    requires k <= 3
    ensures Driven(w, Before(s, Unwrap(raw)), a, k)
         == var unwrapped := UnwrapJobEnvelope(w, s.pki, raw);
            if unwrapped.Err? then Turned(s, Rejected(unwrapped.error), a)
            else Driven(w, Before(s, Decode(unwrapped.value)), a, k)
  {
    var unwrapped := UnwrapJobEnvelope(w, s.pki, raw);
    var s1 := Before(s, Unwrap(raw));
    if unwrapped.Err? {
      Returns(w, s1, a, Rejected(unwrapped.error), Turned(s, Rejected(unwrapped.error), a), k);
    } else {
      Leads(w, s1, a, Before(s, Decode(unwrapped.value)), k);
    }
  }

  lemma Parsed(w: World, s: State, payload: Bytes, a: Answers, k: nat)
    requires k <= 3
    ensures Driven(w, Before(s, Decode(payload)), a, k)
         == var parsed := ParseJob(w, payload);
            if parsed.Err? then Turned(s, Rejected(parsed.error), a)
            else Driven(w, Before(s, WriteAcknowledged(parsed.value)), a, k)
  {
    var parsed := ParseJob(w, payload);
    var s1 := Before(s, Decode(payload));
    if parsed.Err? {
      Returns(w, s1, a, Rejected(parsed.error), Turned(s, Rejected(parsed.error), a), k);
    } else {
      Leads(w, s1, a, Before(s, WriteAcknowledged(parsed.value)), k);
    }
  }

  /** The checks, together. */
  lemma Admits(w: World, s: State, a: Answers, k: nat)
    requires k <= 3
    ensures Driven(w, Receive(s), a, k)
         == var admitted := Admission(w, s, a);
            if admitted.Err? then Turned(s, admitted.error, a)
            else Driven(w, Before(s, WriteAcknowledged(admitted.value)), a, k)
  {
    assert Receive(s) == Before(s, CheckAnswered);
    Checked(w, s, a, k);
    Fetched(w, s, a, k);
    if s.jobData.Some? {
      var unwrapped := UnwrapJobEnvelope(w, s.pki, s.jobData.value);
      Opened(w, s, s.jobData.value, a, k);
      if unwrapped.Ok? {
        Parsed(w, s, unwrapped.value, a, k);
      }
    }
  }

  /** After the announcements, at the operation. */
  function Ready(s: State, job: Job, a: Answers): State {
    s.(log := s.log + Announced(s, a),
       handler := At(Begin(job, !a.factsOk), false, None, Wrote(a.acknowledgedOk, a.startedOk, None, false)))
  }

  lemma GetsReady(w: World, s: State, job: Job, a: Answers, k: nat)
    requires k <= 3
    ensures Driven(w, Before(s, WriteAcknowledged(job)), a, k) == Driven(w, Ready(s, job, a), a, k)
  {
    var log1 := if a.acknowledgedOk then s.log + [Event(Acknowledged, s.hostname, None)] else s.log;
    var wrote1 := Wrote(a.acknowledgedOk, false, None, false);
    var s0 := Before(s, WriteAcknowledged(job));
    var s1 := s.(log := log1, handler := At(ResolveFacts(job), false, None, wrote1));
    Leads(w, s0, a, s1, k);
    var s2 := s1.(handler := At(WriteStarted(job, !a.factsOk), false, None, wrote1));
    Leads(w, s1, a, s2, k);
    var log2 := if a.startedOk then log1 + [Event(Started, s.hostname, None)] else log1;
    assert log2 == s.log + Announced(s, a);
    Leads(w, s2, a, Ready(s, job, a), k);
  }

  /** The operation runs. */
  function AtWork(s: State, job: Job, a: Answers): State {
    s.(log := s.log + Announced(s, a),
       executed := s.executed + [job.payload],
       handler := At(Running(s.hostname), true, None, Wrote(a.acknowledgedOk, a.startedOk, None, false)))
  }

  lemma GetsToWork(w: World, s: State, job: Job, a: Answers, k: nat)
    requires k <= 3 && a.factsOk
    ensures Driven(w, Ready(s, job, a), a, k) == Driven(w, AtWork(s, job, a), a, k)
  {
    Leads(w, Ready(s, job, a), a, AtWork(s, job, a), k);
  }

  lemma Rests(w: World, s: State, a: Answers, k: nat)
    requires s.handler.At? && Rank(s.handler.pc) <= k
    ensures Driven(w, s, a, k) == s
  {
  }

  lemma JobComesToWork(w: World, s: State, job: Job, a: Answers)
    requires a.factsOk
    ensures Driven(w, Before(s, WriteAcknowledged(job)), a, 3) == AtWork(s, job, a)
  {
    GetsReady(w, s, job, a, 3);
    GetsToWork(w, s, job, a, 3);
    Rests(w, AtWork(s, job, a), a, 3);
  }

  /** As far as the running operation. */
  lemma ComesToWork(w: World, s: State, job: Job, a: Answers)
    requires Admission(w, s, a) == Ok(job) && a.factsOk
    ensures Driven(w, Receive(s), a, 3) == AtWork(s, job, a)
  {
    JobComesToWork(w, s, job, a);
    Admits(w, s, a, 3);
  }

  /** A response is stored and reported; the host it is for need not be the current one. */
  function Settled(s: State, response: Response, a: Answers): State
    requires s.handler.At?
  {
    var kept := if a.store.NotStored? then None else Some(response);
    var status := if a.store.Stored? then response.status else Failed;
    s.(responses := if kept.Some? then s.responses + {response} else s.responses,
       log := if a.terminalOk then s.log + [Event(Terminal(status), s.hostname, kept)] else s.log,
       handler := At(Return(Answered), s.handler.ran, kept,
                     s.handler.wrote.(terminal := if a.terminalOk then Some(status) else None,
                                      storeFailed := !a.store.Stored?)))
  }

  lemma Settles(w: World, s: State, response: Response, a: Answers)
    requires s.handler.At? && s.handler.pc == Store(response) && s.handler.answer.None? && Unreported(s.handler)
    ensures Driven(w, s, a, 0) == Settled(s, response, a)
  {
    StoreStep(w, s, a);
    var s1 := HandlerStep(w, s, a);
    Leads(w, s, a, s1, 0);
    ReportStep(w, s1, a);
    LastStep(w, s1, a, HandlerStep(w, s1, a));
  }

  /** Once it runs, the operation is answered under the hostname taken before. */
  lemma WorkSettles(w: World, s: State, captured: Host, a: Answers)
    requires s.handler.At? && s.handler.pc == Running(captured) && s.handler.answer.None? && Unreported(s.handler)
    ensures Driven(w, s, a, 0) == Settled(s, Response(captured, StatusOf(a.op)), a)
  {
    var response := Response(captured, StatusOf(a.op));
    var s1 := s.(handler := s.handler.(pc := Store(response)));
    Leads(w, s, a, s1, 0);
    Settles(w, s1, response, a);
  }

  lemma Finishes(w: World, s: State, job: Job, a: Answers)
    ensures Driven(w, Ready(s, job, a), a, 0) == Processed(s, job, a)
  {
    if a.factsOk {
      GetsToWork(w, s, job, a, 0);
      WorkSettles(w, AtWork(s, job, a), s.hostname, a);
    } else {
      var response := Response(s.hostname, Failed);
      var s1 := Ready(s, job, a).(handler := Ready(s, job, a).handler.(pc := Store(response)));
      Leads(w, Ready(s, job, a), a, s1, 0);
      Settles(w, s1, response, a);
    }
    assert s.log + Announced(s, a) + [] == s.log + Announced(s, a);
  }

  /** The handler, step by step, comes to this, in every case. */
  lemma DeliveryComesTo(w: World, s: State, a: Answers)
    requires CanHappen(s, Deliver)
    ensures Driven(w, Receive(s), a, 0) == Handled(w, s, a)
  {
    var admitted := Admission(w, s, a);
    Admits(w, s, a, 0);
    if admitted.Ok? {
      GetsReady(w, s, admitted.value, a, 0);
      Finishes(w, s, admitted.value, a);
    }
  }

  // ------------------------------------------------------ when the operation runs

  /** The job data is there, opens, and holds a job. */
  ghost predicate HoldsJob(w: World, s: State, job: Job) {
    && s.jobData.Some?
    && (if s.pki.Disabled? then s.jobData.value == job.payload
        else
          var e := w.decodeEnvelope(s.jobData.value);
          && e.Some? && Complete(e.value) && e.value.payload == job.payload
          && s.pki.controller != "" && SignedFor(w, s.pki, e.value))
    && ParseJob(w, job.payload) == Ok(job)
  }

  lemma AdmittedIff(w: World, s: State, a: Answers, job: Job)
    ensures Admission(w, s, a) == Ok(job) <==>
      && !(a.checkOk && HasResponse(s.responses, s.hostname))
      && w.subjectParses && a.fetchOk && HoldsJob(w, s, job)
  {
    if s.jobData.Some? {
      OpensIff(w, s.pki, s.jobData.value, job.payload);
      var unwrapped := UnwrapJobEnvelope(w, s.pki, s.jobData.value);
      if unwrapped.Ok? && ParseJob(w, unwrapped.value).Ok? {
        assert ParseJob(w, unwrapped.value).value.payload == unwrapped.value;
      }
    }
  }

  /** A delivery runs the operation, once and with the verified payload, exactly if the check
      found no answer or erred, the subject parses, the data is there, opens and holds a
      job, and the facts resolve. */
  lemma ExecutesIff(w: World, s: State, a: Answers)
    requires CanHappen(s, Deliver)
    ensures forall job ::
      (&& !(a.checkOk && HasResponse(s.responses, s.hostname))
       && w.subjectParses && a.fetchOk && HoldsJob(w, s, job) && a.factsOk)
      ==> Delivered(w, s, a).executed == s.executed + [job.payload]
    ensures Delivered(w, s, a).executed != s.executed ==> exists job ::
      && !(a.checkOk && HasResponse(s.responses, s.hostname))
      && w.subjectParses && a.fetchOk && HoldsJob(w, s, job) && a.factsOk
  {
    DeliveryComesTo(w, s, a);
    forall job | Admission(w, s, a) == Ok(job) || HoldsJob(w, s, job)
      ensures Admission(w, s, a) == Ok(job) <==>
        && !(a.checkOk && HasResponse(s.responses, s.hostname))
        && w.subjectParses && a.fetchOk && HoldsJob(w, s, job)
    {
      AdmittedIff(w, s, a, job);
    }
    if Delivered(w, s, a).executed != s.executed {
      var job := Admission(w, s, a).value;
      assert HoldsJob(w, s, job);
    }
  }

  /** Failed facts keep the operation from running: nothing is executed, and what is stored
      and reported is a failure. */
  lemma FailedFactsRunNothing(w: World, s: State, a: Answers)
    requires CanHappen(s, Deliver) && !a.factsOk
    ensures Delivered(w, s, a).executed == s.executed
    ensures forall r | r in Delivered(w, s, a).responses - s.responses :: r == Response(s.hostname, Failed)
    ensures forall i | |s.log| <= i < |Delivered(w, s, a).log| && Delivered(w, s, a).log[i].kind.Terminal? ::
      Delivered(w, s, a).log[i].kind.status == Failed
  {
    DeliveryComesTo(w, s, a);
  }

  /** With facts that resolve, the stored status is that of the operation. */
  lemma AnswersWithTheOutcome(w: World, s: State, a: Answers)
    requires CanHappen(s, Deliver) && a.factsOk && a.store.Stored? && Admission(w, s, a).Ok?
    ensures Delivered(w, s, a).responses
         == s.responses + {Response(s.hostname, match a.op
                                                case Succeeded => Completed
                                                case Unsupported => Skipped
                                                case Errored => Failed)}
  {
    DeliveryComesTo(w, s, a);
  }
}
