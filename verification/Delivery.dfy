/**
 One job message on one durable consumer, as the agent's handler sees it
 (internal/agent/handler.go): a small-step machine whose steps are the points
 between which the agent may crash, lose an acknowledgement, be renamed or have
 its controller keys replaced.

 Persistent state: the message's status, the job data, the response KV, the
 append-only event log. Volatile state: the handler. History, used only to state
 properties: what was executed, the record of every finished run, and the keys
 the agent ever held.
 */
module Delivery {
  import opened Base
  import opened Text

  /** A hostname as the keys of responses and events hold it. */
  type Host = string
  type Bytes = string
  type Key = string

  // ---------------------------------------------------------------- data

  datatype Envelope = Envelope(payload: Bytes, signature: Bytes, fingerprint: string)

  datatype OperationJson = OperationJson(opType: Option<string>)
  datatype JobJson = JobJson(id: Option<string>, operation: Option<OperationJson>)
  datatype Job = Job(id: string, category: string, operation: string, payload: Bytes)

  /** What the handler computes with but does not define: JSON decoding and
      Ed25519 verification, as arbitrary functions, and whether the subject of
      this message parses. */
  datatype World = World(
    subjectParses: bool,
    decodeEnvelope: Bytes -> Option<Envelope>,
    decodeJob: Bytes -> Option<JobJson>,
    verify: (Key, Bytes, Bytes) -> bool)

  /** The pkiManager: nil, or the cached controller key ("" when there is none)
      and the key before the last rotation. */
  datatype Pki = Disabled | Enabled(controller: Key, previous: Option<Key>)

  datatype Reason =
    | UnparsableSubject | NotEnrolled | MissingEnvelope | InvalidSignature | MalformedJobData
    | MissingJobId | MissingOperation | MissingOperationType | InvalidOperationType

  datatype Status = Completed | Failed | Skipped
  datatype Response = Response(host: Host, status: Status)

  datatype EventKind = Acknowledged | Started | Terminal(status: Status)

  /** A status event, and the response its run had made durable when it was written. */
  datatype Event = Event(kind: EventKind, host: Host, response: Option<Response>)

  datatype MessageStatus = Pending | Acked | Terminated

  /** How a handler run ended. Every end but Crashed is a return of handleJobMessage. */
  datatype End = Crashed | AlreadyAnswered | JobNotFound | Rejected(reason: Reason) | Answered

  datatype Pc =
    | CheckAnswered
    | ParseSubject
    | Fetch
    | Unwrap(raw: Bytes)
    | Decode(payload: Bytes)
    | WriteAcknowledged(job: Job)
    | ResolveFacts(job: Job)
    | WriteStarted(job: Job, factsFailed: bool)
    | Begin(job: Job, factsFailed: bool)
    | Running(captured: Host)
    | Store(response: Response)
    | WriteTerminal(response: Response)
    | WriteStoreFailure
    | Return(end: End)

  /** Which of its three events a run has written, and whether storing its response failed. */
  datatype Wrote = Wrote(acknowledged: bool, started: bool, terminal: Option<Status>, storeFailed: bool)

  /** A handler run in progress: where it is, whether it has started the operation,
      the response it has made durable, and the events it has written. */
  datatype Handler = Absent | At(pc: Pc, ran: bool, answer: Option<Response>, wrote: Wrote)

  const NOTHING := Wrote(false, false, None, false)

  datatype RunRecord = RunRecord(end: End, ran: bool, answer: Option<Response>, wrote: Wrote)

  datatype State = State(
    message: MessageStatus,
    jobData: Option<Bytes>,
    responses: set<Response>,
    log: seq<Event>,
    hostname: Host,
    pki: Pki,
    handler: Handler,
    executed: seq<Bytes>,
    history: seq<RunRecord>,
    trusted: set<Key>)

  datatype OpOutcome = Succeeded | Unsupported | Errored
  /** A KV write can fail after the value was stored. */
  datatype StoreOutcome = Stored | NotStored | StoredButErrored

  /** What the environment answers to the calls of one run. */
  datatype Answers = Answers(
    checkOk: bool,
    fetchOk: bool,
    termOk: bool,
    factsOk: bool,
    acknowledgedOk: bool,
    startedOk: bool,
    terminalOk: bool,
    op: OpOutcome,
    store: StoreOutcome,
    ackArrives: bool)

  datatype Label =
    | Deliver
    | Step(answers: Answers)
    | Crash
    | Rename(newName: string)
    | Publish(data: Bytes)
    | SetKeys(controller: Key, previous: Option<Key>)

  // ------------------------------------------------- pure parts of the handler

  /** unwrapJobEnvelope. The key of an agent that was never accepted is empty. */
  function UnwrapJobEnvelope(w: World, pki: Pki, data: Bytes): Result<Bytes, Reason> {
    if pki.Disabled? then Ok(data)
    else
      match w.decodeEnvelope(data)
      case None => Err(MissingEnvelope)
      case Some(e) =>
        if e.payload == "" || e.signature == "" || e.fingerprint == "" then Err(MissingEnvelope)
        else if pki.controller == "" then Err(NotEnrolled)
        else if VerifyWithGrace(w, pki, e.payload, e.signature) then Ok(e.payload)
        else Err(InvalidSignature)
  }

  predicate VerifyWithGrace(w: World, pki: Pki, payload: Bytes, signature: Bytes)
    requires pki.Enabled?
  {
    || w.verify(pki.controller, payload, signature)
    || (pki.previous.Some? && w.verify(pki.previous.value, payload, signature))
  }

  function ParseJob(w: World, payload: Bytes): (r: Result<Job, Reason>)
    ensures r.Ok? ==> r.value.payload == payload
  {
    match w.decodeJob(payload)
    case None => Err(MalformedJobData)
    case Some(j) =>
      if j.id.None? then Err(MissingJobId)
      else if j.operation.None? then Err(MissingOperation)
      else if j.operation.value.opType.None? then Err(MissingOperationType)
      else
        var parts := Split(j.operation.value.opType.value, '.');
        if |parts| < 2 then Err(InvalidOperationType)
        else Ok(Job(j.id.value, parts[0], Join(parts[1..], '.'), payload))
  }

  /** sanitizeKeyForNATS: what keys make of a hostname. */
  function SanitizeKey(name: string): (key: Host)
    ensures |key| == |name|
  {
    seq(|name|, i requires 0 <= i < |name| => if KeyChar(name[i]) then name[i] else '_')
  }

  predicate KeyChar(c: char) {
    'a' <= c <= 'z' || 'A' <= c <= 'Z' || '0' <= c <= '9' || c == '_' || c == '-'
  }

  /** An operation type with a dot splits into category and operation and comes back
      when they are joined; one without has no operation. */
  lemma OperationTypeComesBack(operationType: string)
    ensures
      var parts := Split(operationType, '.');
      && (|parts| >= 2 <==> '.' in operationType)
      && (|parts| >= 2 ==> parts[0] + "." + Join(parts[1..], '.') == operationType && '.' !in parts[0])
  {
    FirstAndRest(operationType, '.');
  }

  /** The type of the operation a job asks for, if it has one. */
  function TypeOf(j: JobJson): Option<string> {
    if j.operation.Some? then j.operation.value.opType else None
  }

  /** A job parses exactly if it is JSON with an ID and an operation type that has a dot;
      its ID, its type, cut at the first dot, and its payload are then kept, and what
      is missing first is the reason otherwise. */
  lemma ParsedJob(w: World, payload: Bytes)
    ensures
      var j := w.decodeJob(payload);
      match ParseJob(w, payload)
      case Ok(job) =>
        && j.Some? && j.value.id == Some(job.id) && job.payload == payload
        && TypeOf(j.value) == Some(job.category + "." + job.operation) && '.' !in job.category
      case Err(reason) =>
        match reason
        case MalformedJobData => j.None?
        case MissingJobId => j.Some? && j.value.id.None?
        case MissingOperation => j.Some? && j.value.id.Some? && j.value.operation.None?
        case MissingOperationType =>
          j.Some? && j.value.id.Some? && j.value.operation.Some? && TypeOf(j.value).None?
        case InvalidOperationType =>
          j.Some? && j.value.id.Some? && TypeOf(j.value).Some? && '.' !in TypeOf(j.value).value
        case _ => false
  {
    var j := w.decodeJob(payload);
    if j.Some? && TypeOf(j.value).Some? {
      OperationTypeComesBack(TypeOf(j.value).value);
    }
  }

  /** By its ASCII code: a digit, a capital, a small letter, an underscore or a hyphen. */
  lemma KeyKeeps(name: string, i: nat)
    requires i < |name|
    ensures
      var code := name[i] as int;
      var kept := 48 <= code <= 57 || 65 <= code <= 90 || 97 <= code <= 122 || code == 95 || code == 45;
      SanitizeKey(name)[i] == if kept then name[i] else '_'
  {
  }

  /** HasJobResponse, scoped to one host. */
  predicate HasResponse(responses: set<Response>, host: Host) {
    exists st :: Response(host, st) in responses
  }

  function StatusOf(op: OpOutcome): Status {
    match op
    case Succeeded => Completed
    case Unsupported => Skipped
    case Errored => Failed
  }

  // ------------------------------------------------------------- the machine

  /** What one step of the handler does: where it goes next, and the one thing it
      does to the outside world on the way, if any. */
  datatype Effect = Effect(
    next: Pc,
    event: Option<EventKind>,
    response: Option<Response>,
    execute: Option<Bytes>,
    terminate: bool,
    storeFailed: bool)

  function Go(next: Pc): Effect {
    Effect(next, None, None, None, false, false)
  }

  /** writeStatusEvent: a failed write is only logged. */
  function WriteEvent(kind: EventKind, ok: bool, next: Pc): Effect {
    Go(next).(event := if ok then Some(kind) else None)
  }

  /** terminateMessage: the error is returned whether or not the termination succeeded. */
  function Reject(a: Answers, reason: Reason): Effect {
    Go(Return(Rejected(reason))).(terminate := a.termOk)
  }

  /** One step of handleJobMessage, up to its return. */
  function HandlerEffect(w: World, s: State, a: Answers): Effect
    requires s.handler.At? && !s.handler.pc.Return?
  {
    match s.handler.pc
    case CheckAnswered =>
      if a.checkOk && HasResponse(s.responses, s.hostname) then Go(Return(AlreadyAnswered))
      else Go(ParseSubject)
    case ParseSubject =>
      if w.subjectParses then Go(Fetch) else Reject(a, UnparsableSubject)
    case Fetch =>
      if a.fetchOk && s.jobData.Some? then Go(Unwrap(s.jobData.value))
      else Go(Return(JobNotFound))
    case Unwrap(raw) =>
      (match UnwrapJobEnvelope(w, s.pki, raw)
       case Ok(payload) => Go(Decode(payload))
       case Err(reason) => Reject(a, reason))
    case Decode(payload) =>
      (match ParseJob(w, payload)
       case Ok(job) => Go(WriteAcknowledged(job))
       case Err(reason) => Reject(a, reason))
    case WriteAcknowledged(job) =>
      WriteEvent(Acknowledged, a.acknowledgedOk, ResolveFacts(job))
    case ResolveFacts(job) =>
      Go(WriteStarted(job, !a.factsOk))
    case WriteStarted(job, factsFailed) =>
      WriteEvent(Started, a.startedOk, Begin(job, factsFailed))
    case Begin(job, factsFailed) =>
      if factsFailed then Go(Store(Response(s.hostname, Failed)))
      else Go(Running(s.hostname)).(execute := Some(job.payload))
    case Running(captured) =>
      Go(Store(Response(captured, StatusOf(a.op))))
    case Store(response) =>
      (match a.store
       case Stored => Go(WriteTerminal(response)).(response := Some(response))
       case StoredButErrored => Go(WriteStoreFailure).(response := Some(response), storeFailed := true)
       case NotStored => Go(WriteStoreFailure).(storeFailed := true))
    case WriteTerminal(response) =>
      WriteEvent(Terminal(response.status), a.terminalOk, Return(Answered))
    case WriteStoreFailure =>
      WriteEvent(Terminal(Failed), a.terminalOk, Return(Answered))
  }

  /** How many steps the handler can still be away from its return. */
  function Rank(pc: Pc): nat {
    match pc
    case CheckAnswered => 12
    case ParseSubject => 11
    case Fetch => 10
    case Unwrap(_) => 9
    case Decode(_) => 8
    case WriteAcknowledged(_) => 7
    case ResolveFacts(_) => 6
    case WriteStarted(_, _) => 5
    case Begin(_, _) => 4
    case Running(_) => 3
    case Store(_) => 2
    case WriteTerminal(_) => 1
    case WriteStoreFailure => 1
    case Return(_) => 0
  }

  /** What the steps before the operation's begin have in common: they move on towards it
      or end the run unanswered; they store and execute nothing, and report no outcome;
      only a rejection ends the message, if the server takes the termination. */
  predicate Early(pc: Pc, a: Answers, e: Effect) {
    && e.response.None? && e.execute.None? && !e.storeFailed
    && !(e.event.Some? && e.event.value.Terminal?)
    && (e.terminate <==> a.termOk && e.next.Return? && e.next.end.Rejected?)
    && if e.next.Return? then !e.next.end.Answered? && !e.next.end.Crashed?
       else 4 <= Rank(e.next) < Rank(pc)
  }

  lemma EarlyStep(w: World, s: State, a: Answers)
    requires s.handler.At? && Rank(s.handler.pc) > 4
    ensures Early(s.handler.pc, a, HandlerEffect(w, s, a))
  {
    match s.handler.pc
    case Unwrap(raw) => EarlyUnwrap(w, s, raw, a);
    case Decode(payload) => EarlyDecode(w, s, payload, a);
    case _ =>
      if Rank(s.handler.pc) > 9 {
        EarlyCheck(w, s, a);
      } else {
        EarlyEvent(w, s, a);
      }
  }

  lemma EarlyCheck(w: World, s: State, a: Answers)
    requires s.handler.At? && Rank(s.handler.pc) > 9
    ensures Early(s.handler.pc, a, HandlerEffect(w, s, a))
  {
  }

  lemma EarlyEvent(w: World, s: State, a: Answers)
    requires s.handler.At? && 4 < Rank(s.handler.pc) < 8
    ensures Early(s.handler.pc, a, HandlerEffect(w, s, a))
  {
  }

  lemma EarlyUnwrap(w: World, s: State, raw: Bytes, a: Answers)
    requires s.handler.At? && s.handler.pc == Unwrap(raw)
    ensures Early(s.handler.pc, a, HandlerEffect(w, s, a))
  {
    var unwrapped := UnwrapJobEnvelope(w, s.pki, raw);
    assert HandlerEffect(w, s, a)
        == if unwrapped.Ok? then Go(Decode(unwrapped.value)) else Reject(a, unwrapped.error);
  }

  lemma EarlyDecode(w: World, s: State, payload: Bytes, a: Answers)
    requires s.handler.At? && s.handler.pc == Decode(payload)
    ensures Early(s.handler.pc, a, HandlerEffect(w, s, a))
  {
    var parsed := ParseJob(w, payload);
    assert HandlerEffect(w, s, a)
        == if parsed.Ok? then Go(WriteAcknowledged(parsed.value)) else Reject(a, parsed.error);
  }

  /** Events carry the hostname at the time of the write. */
  function Apply(s: State, e: Effect): State
    requires s.handler.At?
  {
    s.(message := if e.terminate then Terminated else s.message,
       responses := if e.response.Some? then s.responses + {e.response.value} else s.responses,
       log := if e.event.Some? then s.log + [Event(e.event.value, s.hostname, s.handler.answer)] else s.log,
       executed := if e.execute.Some? then s.executed + [e.execute.value] else s.executed,
       handler := At(e.next,
                     s.handler.ran || e.execute.Some?,
                     if e.response.Some? then e.response else s.handler.answer,
                     Record(s.handler.wrote, e)))
  }

  function Record(wrote: Wrote, e: Effect): Wrote {
    if e.event.Some? then Mark(wrote, e.event.value)
    else if e.storeFailed then wrote.(storeFailed := true)
    else wrote
  }

  function Mark(wrote: Wrote, kind: EventKind): Wrote {
    match kind
    case Acknowledged => wrote.(acknowledged := true)
    case Started => wrote.(started := true)
    case Terminal(status) => wrote.(terminal := Some(status))
  }

  /** The ends at which handleJobMessage returns nil rather than an error. */
  predicate ReturnsNil(end: End) {
    end.AlreadyAnswered? || end.Answered?
  }

  /** A run ends: nil acknowledges the message, an error leaves it for redelivery. */
  function Finish(s: State, end: End, ackArrives: bool): State
    requires s.handler.At?
  {
    s.(message := if ReturnsNil(end) && ackArrives then Acked else s.message,
       handler := Absent,
       history := s.history + [RunRecord(end, s.handler.ran, s.handler.answer, s.handler.wrote)])
  }

  function HandlerStep(w: World, s: State, a: Answers): State
    requires s.handler.At?
  {
    if s.handler.pc.Return? then Finish(s, s.handler.pc.end, a.ackArrives)
    else Apply(s, HandlerEffect(w, s, a))
  }

  /** The server hands out a pending message only when no handler holds it. */
  function Receive(s: State): State {
    s.(handler := At(CheckAnswered, false, None, NOTHING))
  }

  predicate CanHappen(s: State, l: Label) {
    match l
    case Deliver => s.message.Pending? && s.handler.Absent?
    case Step(_) => s.handler.At?
    case Crash => s.handler.At?
    case Rename(_) => true
    case Publish(_) => s.jobData.None?
    case SetKeys(_, _) => s.pki.Enabled?
  }

  function Next(w: World, s: State, l: Label): State
    requires CanHappen(s, l)
  {
    match l
    case Deliver => Receive(s)
    case Step(a) => HandlerStep(w, s, a)
    case Crash => Finish(s, Crashed, false)
    case Rename(newName) => s.(hostname := SanitizeKey(newName))
    case Publish(data) => s.(jobData := Some(data))
    case SetKeys(controller, previous) =>
      s.(pki := Enabled(controller, previous),
         trusted := s.trusted + HeldKeys(Enabled(controller, previous)))
  }

  function HeldKeys(pki: Pki): set<Key> {
    match pki
    case Disabled => {}
    case Enabled(controller, previous) =>
      (if controller == "" then {} else {controller})
      + (if previous.Some? then {previous.value} else {})
  }

  /** The state after the labels, or None when one of them was not enabled. */
  function Run(w: World, s: State, ls: seq<Label>): Option<State>
    decreases |ls|
  {
    if ls == [] then Some(s)
    else if CanHappen(s, ls[0]) then Run(w, Next(w, s, ls[0]), ls[1..])
    else None
  }

  predicate Initial(s: State) {
    && s.message.Pending? && s.jobData.None? && s.responses == {} && s.log == []
    && s.handler.Absent? && s.executed == [] && s.history == [] && s.trusted == HeldKeys(s.pki)
  }

  // ----------------------------------------------- what excuses a repetition

  /** The handler has started the operation and no response of this run is durable. */
  predicate Exposed(s: State) {
    s.handler.At? && s.handler.ran && s.handler.answer.None?
  }

  /** A crash, or the loss of an acknowledgement, while exposed. */
  predicate Interrupts(s: State, l: Label) {
    && Exposed(s)
    && (l.Crash? || (l.Step? && s.handler.pc.Return? && !l.answers.ackArrives))
  }

  predicate CheckErrs(s: State, l: Label) {
    s.handler.At? && s.handler.pc.CheckAnswered? && l.Step? && !l.answers.checkOk
  }

  /** A rename that the keys show. */
  predicate Renames(s: State, l: Label) {
    l.Rename? && SanitizeKey(l.newName) != s.hostname
  }

  /** How often p holds along a run. */
  function Count(w: World, s: State, ls: seq<Label>, p: (State, Label) -> bool): nat
    decreases |ls|
  {
    if ls == [] || !CanHappen(s, ls[0]) then 0
    else (if p(s, ls[0]) then 1 else 0) + Count(w, Next(w, s, ls[0]), ls[1..], p)
  }

  function Excuses(w: World, s: State, ls: seq<Label>): nat {
    Count(w, s, ls, Interrupts) + Count(w, s, ls, CheckErrs) + Count(w, s, ls, Renames)
  }

  /** An execution that no excuse has paid for yet is ruled out by the answer check. */
  predicate Guarded(s: State, n: int) {
    |s.executed| < n || (|s.executed| <= n && HasResponse(s.responses, s.hostname))
  }

  /** The invariant behind the bound: n executions are paid for so far. */
  predicate Paid(s: State, n: int) {
    && |s.executed| <= n
    && (s.handler.Absent? && s.message.Pending? ==> Guarded(s, n))
    && (s.handler.At? ==>
      && (s.handler.pc.CheckAnswered? || (s.handler.pc.Return? && s.handler.pc.end.AlreadyAnswered?) ==> Guarded(s, n))
      && (s.handler.answer.Some? ==> AfterStore(s.handler.pc))
      && (!s.handler.ran && !s.handler.pc.CheckAnswered? && !(s.handler.pc.Return? && s.handler.pc.end.AlreadyAnswered?)
          ==> |s.executed| < n)
      && (s.handler.ran ==> AfterBegin(s.handler.pc))
      && (s.handler.ran && s.handler.answer.Some? ==> Guarded(s, n))
      && (s.handler.pc.Running? && s.handler.pc.captured != s.hostname ==> |s.executed| < n)
      && (s.handler.pc.Store? && s.handler.pc.response.host != s.hostname ==> |s.executed| < n))
  }

  predicate AfterBegin(pc: Pc) {
    pc.Running? || pc.Store? || pc.WriteTerminal? || pc.WriteStoreFailure? || (pc.Return? && pc.end.Answered?)
  }

  predicate AfterStore(pc: Pc) {
    pc.WriteTerminal? || pc.WriteStoreFailure? || (pc.Return? && pc.end.Answered?)
  }

  predicate Excuse(s: State, l: Label) {
    Interrupts(s, l) || CheckErrs(s, l) || Renames(s, l)
  }

  lemma PaidStep(w: World, s: State, l: Label, n: int)
    requires Paid(s, n) && CanHappen(s, l)
    ensures Paid(Next(w, s, l), if Excuse(s, l) then n + 1 else n)
  {
    var s' := Next(w, s, l);
    if l.Step? && s.handler.pc.Store? && !l.answers.store.NotStored? {
      var r := s.handler.pc.response;
      assert Response(r.host, r.status) in s'.responses;
    }
    assert forall h :: HasResponse(s.responses, h) ==> HasResponse(s'.responses, h);
  }
}
