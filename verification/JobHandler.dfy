/** handleJobMessage as the agent runs it: one uninterrupted pass over the agent's and
    the server's state, proved to be the undisturbed run of the delivery machine. */
module JobHandler {
  import opened Base
  import opened Delivery
  import opened DeliveryFiling
  import opened DeliverySafety
  import opened DeliveryRuns

  class Agent {
    const world: World

    // what the server keeps
    var message: MessageStatus
    var jobData: Option<Bytes>
    var responses: set<Response>
    var log: seq<Event>

    // what the agent keeps; answer is the response that this run has stored
    var hostname: string
    var pki: Pki
    var answer: Option<Response>

    // history: this run, and all of them
    ghost var ran: bool
    ghost var wrote: Wrote
    ghost var executed: seq<Bytes>
    ghost var history: seq<RunRecord>
    ghost var trusted: set<Key>

    ghost function View(handler: Handler): State
      reads this
    {
      State(message, jobData, responses, log, SanitizeKey(hostname), pki, handler, executed, history, trusted)
    }

    /** The state with the handler at pc. */
    ghost function ViewAt(pc: Pc): State
      reads this
    {
      View(At(pc, ran, answer, wrote))
    }

    /** A new message for an agent that is starting up. */
    constructor (world: World, hostname: string, pki: Pki)
      ensures Initial(View(Absent)) && this.hostname == hostname && this.pki == pki && this.world == world
    {
      this.world := world;
      message, jobData, responses, log := Pending, None, {}, [];
      this.hostname, this.pki := hostname, pki;
      ran, answer, wrote := false, None, NOTHING;
      executed, history, trusted := [], [], HeldKeys(pki);
    }

    /** Runs the handler on one delivery and acknowledges if it returned nil. What holds
        over every run of the machine thereby holds over every sequence of deliveries. */
    method Consume(a: Answers)
      requires message.Pending?
      modifies this
      ensures View(Absent) == Delivered(world, old(View(Absent)), a)
      ensures Sound(world, old(View(Absent))) ==> Sound(world, View(Absent))
      ensures |executed| <= |old(executed)| + 1
      ensures a.checkOk && HasResponse(old(responses), SanitizeKey(old(hostname))) ==> executed == old(executed)
      ensures forall n :: Paid(old(View(Absent)), n) ==>
        Paid(View(Absent), n + DeliveryExcuses(world, old(View(Absent)), a))
    {
      DeliveryIsSafe(world, View(Absent), a);
      ran, answer, wrote := false, None, NOTHING;
      var end := HandleJobMessage(a);
      if ReturnsNil(end) && a.ackArrives {
        message := Acked;
      }
      history := history + [RunRecord(end, ran, answer, wrote)];
    }

    /** Returns nil for the ends that ReturnsNil names and an error for the others. */
    method HandleJobMessage(a: Answers) returns (end: End)
      modifies this
      ensures !end.Crashed?
      ensures ViewAt(Return(end)) == Driven(world, old(ViewAt(CheckAnswered)), a, 0)
    {
      var admitted := Admit(a);
      match admitted
      case Err(e) =>
        end := e;
      case Ok(job) =>
        var response := Process(job, a);
        Respond(response, a);
        end := Answered;
    }

    /** The checks before anything is written (lines 222-357 of handler.go). */
    method Admit(a: Answers) returns (r: Result<Job, End>)
      modifies this`message
      ensures r.Err? ==> !r.error.Crashed?
      ensures Driven(world, old(ViewAt(CheckAnswered)), a, 0)
           == match r
              case Ok(job) => Driven(world, ViewAt(WriteAcknowledged(job)), a, 0)
              case Err(end) => ViewAt(Return(end))
    {
      var answered := CheckForResponse(a);
      if answered {
        return Err(AlreadyAnswered);
      }
      ghost var s := ViewAt(ParseSubject);
      if !world.subjectParses {
        r := TerminateMessage(a, UnparsableSubject);
        LastStep(world, s, a, ViewAt(Return(Rejected(UnparsableSubject))));
        return;
      }
      Leads(ParseSubject, Fetch, a);
      if !a.fetchOk || jobData.None? {
        Leads(Fetch, Return(JobNotFound), a);
        return Err(JobNotFound);
      }
      var raw := jobData.value;
      Leads(Fetch, Unwrap(raw), a);
      r := AdmitData(raw, a);
    }

    /** A failed check proceeds with the execution. */
    method CheckForResponse(a: Answers) returns (answered: bool)
      ensures answered <==> a.checkOk && HasResponse(responses, SanitizeKey(hostname))
      ensures Driven(world, ViewAt(CheckAnswered), a, 0)
           == Driven(world, ViewAt(if answered then Return(AlreadyAnswered) else ParseSubject), a, 0)
    {
      answered := false;
      if a.checkOk {
        answered := HasJobResponse();
      }
      Leads(CheckAnswered, if answered then Return(AlreadyAnswered) else ParseSubject, a);
    }

    /** The envelope and the job in it. */
    method AdmitData(raw: Bytes, a: Answers) returns (r: Result<Job, End>)
      modifies this`message
      ensures r.Err? ==> !r.error.Crashed?
      ensures Driven(world, old(ViewAt(Unwrap(raw))), a, 0)
           == match r
              case Ok(job) => Driven(world, ViewAt(WriteAcknowledged(job)), a, 0)
              case Err(end) => ViewAt(Return(end))
    {
      ghost var s := ViewAt(Unwrap(raw));
      var unwrapped := UnwrapJobEnvelope(world, pki, raw);
      if unwrapped.Err? {
        r := TerminateMessage(a, unwrapped.error);
        LastStep(world, s, a, ViewAt(Return(Rejected(unwrapped.error))));
        return;
      }
      var payload := unwrapped.value;
      Leads(Unwrap(raw), Decode(payload), a);
      s := ViewAt(Decode(payload));
      var parsed := ParseJob(world, payload);
      if parsed.Err? {
        r := TerminateMessage(a, parsed.error);
        LastStep(world, s, a, ViewAt(Return(Rejected(parsed.error))));
        return;
      }
      Leads(Decode(payload), WriteAcknowledged(parsed.value), a);
      return Ok(parsed.value);
    }

    /** A step that only moves on. */
    lemma Leads(pc: Pc, next: Pc, a: Answers)
      requires Rank(pc) > 0 && HandlerStep(world, ViewAt(pc), a) == ViewAt(next)
      ensures Driven(world, ViewAt(pc), a, 0) == Driven(world, ViewAt(next), a, 0)
    {
    }

    /** Whether the KV holds a response under this agent's current hostname. */
    method HasJobResponse() returns (answered: bool)
      ensures answered <==> HasResponse(responses, SanitizeKey(hostname))
    {
      var host := SanitizeKey(hostname);
      answered := exists r | r in responses :: r.host == host;
      assert answered ==> exists r :: r in responses && r == Response(host, r.status);
    }

    /** Returns the error whether or not the server took the termination. */
    method TerminateMessage(a: Answers, reason: Reason) returns (r: Result<Job, End>)
      modifies this`message
      ensures r == Err(Rejected(reason))
      ensures message == if a.termOk then Terminated else old(message)
    {
      if a.termOk {
        message := Terminated;
      }
      r := Err(Rejected(reason));
    }

    /** From the acknowledged event to the operation's outcome (lines 366-478 of
        handler.go). A failed fact resolution is an outcome without an execution. */
    method Process(job: Job, a: Answers) returns (response: Response)
      modifies this`log, this`executed, this`ran, this`wrote
      ensures Driven(world, ViewAt(Store(response)), a, 0) == Driven(world, old(ViewAt(WriteAcknowledged(job))), a, 0)
    {
      ghost var s0 := ViewAt(WriteAcknowledged(job));
      WriteStatusEvent(Acknowledged, a.acknowledgedOk);
      assert HandlerStep(world, s0, a) == ViewAt(ResolveFacts(job));
      var factsFailed := !a.factsOk;
      Leads(ResolveFacts(job), WriteStarted(job, factsFailed), a);
      ghost var s1 := ViewAt(WriteStarted(job, factsFailed));
      WriteStatusEvent(Started, a.startedOk);
      assert HandlerStep(world, s1, a) == ViewAt(Begin(job, factsFailed));
      response := Execute(job, factsFailed, a);
    }

    method Execute(job: Job, factsFailed: bool, a: Answers) returns (response: Response)
      modifies this`executed, this`ran
      ensures Driven(world, ViewAt(Store(response)), a, 0) == Driven(world, old(ViewAt(Begin(job, factsFailed))), a, 0)
    {
      ghost var s := ViewAt(Begin(job, factsFailed));
      var captured := SanitizeKey(hostname);
      if factsFailed {
        response := Response(captured, Failed);
        Leads(Begin(job, factsFailed), Store(response), a);
      } else {
        executed, ran := executed + [job.payload], true;
        assert HandlerStep(world, s, a) == ViewAt(Running(captured));
        response := Response(captured, StatusOf(a.op));
        Leads(Running(captured), Store(response), a);
      }
    }

    /** The response first, then the terminal event; a response that could not be
        stored still lets the message be acknowledged (lines 497-588 of handler.go). */
    method Respond(response: Response, a: Answers)
      modifies this`responses, this`log, this`answer, this`wrote
      ensures ViewAt(Return(Answered)) == Driven(world, old(ViewAt(Store(response))), a, 0)
    {
      ghost var s := ViewAt(Store(response));
      WriteJobResponse(response, a.store);
      StoreStep(world, s, a);
      DriveTo(world, s, a, 0);
      if a.store.Stored? {
        Report(WriteTerminal(response), response.status, a);
      } else {
        Report(WriteStoreFailure, Failed, a);
      }
    }

    method Report(ghost pc: Pc, status: Status, a: Answers)
      requires (pc.WriteStoreFailure? && status == Failed) || (pc.WriteTerminal? && status == pc.response.status)
      modifies this`log, this`wrote
      ensures ViewAt(Return(Answered)) == Driven(world, old(ViewAt(pc)), a, 0)
    {
      ghost var s := ViewAt(pc);
      WriteStatusEvent(Terminal(status), a.terminalOk);
      ReportStep(world, s, a);
      DriveTo(world, s, a, 0);
    }

    /** The write may fail after the value was stored. */
    method WriteJobResponse(response: Response, outcome: StoreOutcome)
      modifies this`responses, this`answer, this`wrote
      ensures wrote == if outcome.Stored? then old(wrote) else old(wrote).(storeFailed := true)
      ensures responses == if outcome.NotStored? then old(responses) else old(responses) + {response}
      ensures answer == if outcome.NotStored? then old(answer) else Some(response)
    {
      if !outcome.NotStored? {
        responses, answer := responses + {response}, Some(response);
      }
      if !outcome.Stored? {
        wrote := wrote.(storeFailed := true);
      }
    }

    /** The heartbeat's hostname change: the machine's rename, which the keys need not show. */
    method Rename(newName: string)
      modifies this`hostname
      ensures forall h :: View(h) == Next(world, old(View(h)), Delivery.Rename(newName))
    {
      if newName != hostname {
        hostname := newName;
      }
    }

    /** Appends an event under the current hostname; a failed write is only logged. */
    method WriteStatusEvent(kind: EventKind, ok: bool)
      modifies this`log, this`wrote
      ensures log == if ok then old(log) + [Event(kind, SanitizeKey(hostname), answer)] else old(log)
      ensures wrote == if ok then Mark(old(wrote), kind) else old(wrote)
    {
      if ok {
        log, wrote := log + [Event(kind, SanitizeKey(hostname), answer)], Mark(wrote, kind);
      }
    }
  }
}
