/**
 The life of one agent (internal/agent/server.go, drain.go, enrollment.go,
 consumer.go): Start, the heartbeat and the enrollment callback as three actors
 whose sections under lifecycleMu are single steps. A consumer generation is what
 one call of startConsumersLocked creates; consumerCancel can reach only the last.

 A drain that waits for a generation nobody can cancel any more keeps the lock: the
 state is then stuck, and no section under the lock can run.
 */
module Lifecycle {
  import opened Base

  type Key = string

  datatype Mode = Ready | Draining | Cordoned | Pending

  /** controller.pub in the key directory. */
  datatype KeyFile = Absent | Garbage | Present(key: Key)

  /** Where Start is. */
  datatype StartPc =
    | Down | Identity | LoadingKeys | Publishing | Listening | EnteringPending
    | Preflighting | FirstBeating | Deciding | Consuming | Started | GaveUp

  /** Where the enrollment callback is; one subscription delivers one message at a time. */
  datatype AcceptPc = NoMessage | KeyCached(key: Key) | KeySaved

  datatype Config = Config(pki: bool, registry: bool)

  /** What lifecycleMu guards: the state, the consumer handle, the generations whose
      consumers have not ended, and whether a drain is waiting with the lock held. */
  datatype Guarded = Guarded(mode: Mode, handle: Option<nat>, live: set<nat>, next: nat, stuck: bool)

  datatype Actors = Actors(start: StartPc, retryDue: bool, accept: AcceptPc, listening: bool, ctxLive: bool)

  /** The cached key, the key file, and how often an acceptance was or could not be saved. */
  datatype Keys = Keys(cached: Option<Key>, file: KeyFile, saved: nat, saveFailed: bool)

  /** History: requests published, acceptances saved at the last boot and whether the key
      file could be read then, and whether a drain or an acceptance went ahead of
      Start's own consumers. */
  datatype Past = Past(published: nat, savedAtBoot: nat, readAtBoot: bool, drainedEarly: bool, acceptedEarly: bool)

  datatype State = State(g: Guarded, a: Actors, k: Keys, past: Past)

  datatype Label =
    // Start
    | StartUp
    | Identify(ok: bool)
    | LoadKeys(ok: bool, readable: bool)
    | PublishRequest
    | Listen(ok: bool)
    | EnterPending
    | Preflight(ok: bool)
    | FirstBeat(flag: bool)
    | Decide
    | StartConsumers
    // the heartbeat
    | Beat(flag: bool)
    | Retry
    // the enrollment callback
    | Accept(key: Key)
    | SaveKey(ok: bool)
    | BecomeReady
    // the process
    | Shutdown
    | Crash

  // -------------------------------------------------- sections under the lock

  /** startConsumersLocked: a new generation, and the only handle to it. Under a
      cancelled agent context its consumers end at once. */
  function StartGeneration(g: Guarded, ctxLive: bool): Guarded {
    g.(handle := Some(g.next), next := g.next + 1, live := if ctxLive then g.live + {g.next} else g.live)
  }

  function Reached(g: Guarded): set<nat> {
    if g.handle.Some? then {g.handle.value} else {}
  }

  /** The generations that consumerCancel does not reach. */
  function Orphans(g: Guarded): set<nat> {
    g.live - Reached(g)
  }

  /** stopConsumersLocked: cancel, then wait for every generation. */
  function StopGenerations(g: Guarded): Guarded {
    g.(live := Orphans(g), stuck := Orphans(g) != {})
  }

  /** handleDrainDetection under the lock. */
  function DrainSection(g: Guarded, flag: bool, ctxLive: bool): Guarded {
    if flag && g.mode.Ready? then
      var g' := StopGenerations(g);
      if g'.stuck then g' else g'.(mode := Cordoned)
    else if !flag && (g.mode.Draining? || g.mode.Cordoned?) then
      StartGeneration(g, ctxLive).(mode := Ready)
    else g
  }

  /** The end of handleEnrollmentResponse. */
  function ReadySection(g: Guarded, ctxLive: bool): Guarded {
    StartGeneration(g.(mode := Ready), ctxLive)
  }

  /** The agent context ends: every generation does, and with them a waiting drain. */
  function CancelContext(g: Guarded): Guarded {
    g.(live := {}, stuck := false, mode := if g.stuck then Cordoned else g.mode)
  }

  // -------------------------------------------------------------- the machine

  /** No process runs. */
  predicate AtRest(s: State) {
    && s.g.mode.Ready? && s.g.handle.None? && s.g.live == {} && !s.g.stuck
    && s.a == Actors(Down, false, NoMessage, false, false)
    && s.k.cached.None? && !s.k.saveFailed && !s.past.drainedEarly && !s.past.acceptedEarly
  }

  predicate Initial(s: State) {
    AtRest(s) && s.k.saved == 0 && !s.k.file.Present?
  }

  predicate NeedsLock(l: Label) {
    match l
    case EnterPending => true
    case FirstBeat(_) => true
    case Decide => true
    case StartConsumers => true
    case Beat(_) => true
    case Retry => true
    case BecomeReady => true
    case _ => false
  }

  /** The heartbeat's goroutine is running. */
  predicate Beating(c: Config, a: Actors) {
    c.registry && a.ctxLive && (a.start.Deciding? || a.start.Consuming? || a.start.Started?)
  }

  predicate CanHappen(c: Config, s: State, l: Label) {
    && (NeedsLock(l) ==> !s.g.stuck)
    && match l
       case StartUp => s.a.start.Down?
       case Identify(_) => s.a.start.Identity?
       case LoadKeys(_, _) => s.a.start.LoadingKeys?
       case PublishRequest => s.a.start.Publishing?
       case Listen(_) => s.a.start.Listening?
       case EnterPending => s.a.start.EnteringPending?
       case Preflight(_) => s.a.start.Preflighting?
       case FirstBeat(_) => s.a.start.FirstBeating?
       case Decide => s.a.start.Deciding?
       case StartConsumers => s.a.start.Consuming?
       case Beat(_) => Beating(c, s.a) && !s.a.retryDue
       case Retry => Beating(c, s.a) && s.a.retryDue
       case Accept(_) => s.a.listening && s.a.accept.NoMessage?
       case SaveKey(_) => s.a.accept.KeyCached?
       case BecomeReady => s.a.accept.KeySaved?
       case Shutdown => s.a.ctxLive
       case Crash => !s.a.start.Down?
  }

  function Next(c: Config, s: State, l: Label): State
    requires CanHappen(c, s, l)
  {
    match l
    case StartUp => OnStartUp(s)
    case Identify(ok) => OnIdentify(c, s, ok)
    case LoadKeys(ok, readable) => OnLoadKeys(s, ok, readable)
    case PublishRequest => OnPublish(s)
    case Listen(ok) => OnListen(s, ok)
    case EnterPending => OnEnterPending(s)
    case Preflight(ok) => OnPreflight(s, ok)
    case FirstBeat(flag) => OnFirstBeat(c, s, flag)
    case Decide => OnDecide(s)
    case StartConsumers => OnStartConsumers(s)
    case Beat(flag) => OnBeat(s, flag)
    case Retry => OnRetry(s)
    case Accept(key) => OnAccept(s, key)
    case SaveKey(ok) => OnSaveKey(s, ok)
    case BecomeReady => OnBecomeReady(s)
    case Shutdown => s.(g := CancelContext(s.g), a := s.a.(ctxLive := false))
    case Crash => AfterCrash(s)
  }

  // ------------------------------------------------------------ Start's steps

  function OnStartUp(s: State): State {
    s.(g := s.g.(mode := Ready), a := s.a.(start := Identity, ctxLive := true))
  }

  function OnIdentify(c: Config, s: State, ok: bool): State {
    if !ok then GiveUp(s) else s.(a := s.a.(start := if c.pki then LoadingKeys else Preflighting))
  }

  /** Any error of reading controller.pub counts as not enrolled; only a file that is
      read and does not parse makes Start give up. */
  function OnLoadKeys(s: State, ok: bool, readable: bool): State {
    var past := s.past.(savedAtBoot := s.k.saved, readAtBoot := readable);
    if !ok || (readable && s.k.file.Garbage?) then GiveUp(s)
    else if readable && s.k.file.Present? then
      State(s.g, s.a.(start := Preflighting), s.k.(cached := Some(s.k.file.key)), past)
    else State(s.g, s.a.(start := Publishing), s.k, past)
  }

  function OnPublish(s: State): State {
    s.(a := s.a.(start := Listening), past := s.past.(published := s.past.published + 1))
  }

  function OnListen(s: State, ok: bool): State {
    s.(a := s.a.(start := EnteringPending, listening := ok))
  }

  function OnEnterPending(s: State): State {
    s.(a := s.a.(start := Preflighting), g := s.g.(mode := Pending))
  }

  function OnPreflight(s: State, ok: bool): State {
    if !ok then GiveUp(s) else s.(a := s.a.(start := FirstBeating))
  }

  function OnFirstBeat(c: Config, s: State, flag: bool): State {
    (if c.registry then Drained(s, flag) else s).(a := s.a.(start := Deciding))
  }

  function OnDecide(s: State): State {
    s.(a := s.a.(start := if s.g.mode.Pending? then Started else Consuming))
  }

  function OnStartConsumers(s: State): State {
    s.(g := StartGeneration(s.g, s.a.ctxLive), a := s.a.(start := Started))
  }

  // ------------------------------------- the heartbeat's and the callback's steps

  function OnBeat(s: State, flag: bool): State {
    Drained(s, flag).(a := s.a.(retryDue := true))
  }

  function OnRetry(s: State): State {
    s.(a := s.a.(retryDue := false),
       past := s.past.(published := s.past.published + (if s.g.mode.Pending? then 1 else 0)))
  }

  function OnAccept(s: State, key: Key): State {
    s.(a := s.a.(accept := KeyCached(key)), k := s.k.(cached := Some(key)))
  }

  function OnSaveKey(s: State, ok: bool): State
    requires s.a.accept.KeyCached?
  {
    if ok then s.(a := s.a.(accept := KeySaved), k := s.k.(file := Present(s.a.accept.key), saved := s.k.saved + 1))
    else s.(a := s.a.(accept := NoMessage), k := s.k.(saveFailed := true))
  }

  function OnBecomeReady(s: State): State {
    State(ReadySection(s.g, s.a.ctxLive), s.a.(accept := NoMessage), s.k,
          s.past.(acceptedEarly := s.past.acceptedEarly || !s.a.start.Started?))
  }

  /** Start gives up: it cancels the agent context. */
  function GiveUp(s: State): State {
    s.(g := CancelContext(s.g), a := s.a.(start := GaveUp, ctxLive := false))
  }

  function Drained(s: State, flag: bool): State {
    s.(g := DrainSection(s.g, flag, s.a.ctxLive),
       past := s.past.(drainedEarly := s.past.drainedEarly || (flag && s.g.mode.Ready? && !s.a.start.Started?)))
  }

  /** Only the key file survives. */
  function AfterCrash(s: State): State {
    State(Guarded(Ready, None, {}, s.g.next, false),
          Actors(Down, false, NoMessage, false, false),
          Keys(None, s.k.file, s.k.saved, false),
          Past(s.past.published, s.past.savedAtBoot, s.past.readAtBoot, false, false))
  }

  function Run(c: Config, s: State, ls: seq<Label>): Option<State>
    decreases |ls|
  {
    if ls == [] then Some(s)
    else if CanHappen(c, s, ls[0]) then Run(c, Next(c, s, ls[0]), ls[1..])
    else None
  }

  function Count(c: Config, s: State, ls: seq<Label>, p: (State, Label) -> bool): nat
    decreases |ls|
  {
    if ls == [] || !CanHappen(c, s, ls[0]) then 0
    else (if p(s, ls[0]) then 1 else 0) + Count(c, Next(c, s, ls[0]), ls[1..], p)
  }

  /** The step ends the agent context, or the whole process. */
  predicate Cancels(s: State, l: Label) {
    match l
    case Shutdown => true
    case Crash => true
    case Identify(ok) => !ok
    case Preflight(ok) => !ok
    case LoadKeys(ok, readable) => !ok || (readable && s.k.file.Garbage?)
    case _ => false
  }

  /** The step starts a generation while the one the handle reaches is live. */
  predicate MeetsLive(s: State, l: Label) {
    && s.g.handle.Some? && s.g.handle.value in s.g.live
    && match l
       case StartConsumers => true
       case BecomeReady => true
       case Beat(flag) => !flag && (s.g.mode.Draining? || s.g.mode.Cordoned?)
       case FirstBeat(flag) => !flag && (s.g.mode.Draining? || s.g.mode.Cordoned?)
       case _ => false
  }
}
