/** What the agent's life guarantees over every interleaving of Start, heartbeats,
    acceptances, shutdowns and crashes. */
module LifecycleSafety {
  import opened Base
  import opened Lifecycle

  /** Ready with exactly the one generation the handle reaches, Pending or Cordoned with none. */
  predicate Clean(g: Guarded) {
    && !g.stuck
    && match g.mode
       case Ready => g.handle.Some? && g.live == {g.handle.value}
       case Draining => false
       case Cordoned => g.live == {}
       case Pending => g.live == {}
  }

  predicate PastEnrollment(pc: StartPc) {
    pc.Preflighting? || pc.FirstBeating? || pc.Deciding? || pc.Consuming? || pc.Started?
  }

  predicate Starting(pc: StartPc) {
    !pc.Down? && !pc.Started? && !pc.GaveUp?
  }

  /** Facts about the generations and the modes. */
  predicate Basic(s: State) {
    && !s.g.mode.Draining?
    && (forall n | n in s.g.live :: n < s.g.next)
    && (s.g.handle.Some? ==> s.g.handle.value < s.g.next)
    && (s.g.stuck ==> s.g.mode.Ready? && s.g.live != {} && Orphans(s.g) == s.g.live)
    && (!s.a.ctxLive ==> s.g.live == {})
    && (s.a.start.Down? ==> AtRest(s))
    && (!s.a.listening ==> s.a.accept.NoMessage?)
    && (s.a.start.Identity? || s.a.start.LoadingKeys? || s.a.start.Publishing? || s.a.start.Listening? ==>
          !s.a.listening)
  }

  /** What early drains and acceptances leave behind while Start is on its way. */
  predicate StartInv(s: State) {
    s.a.ctxLive && Starting(s.a.start) ==>
      && (!s.past.drainedEarly && !s.past.acceptedEarly ==>
            && s.g.live == {} && s.g.handle.None? && !s.g.stuck && (s.g.mode.Ready? || s.g.mode.Pending?)
            && (s.a.start.Consuming? ==> s.g.mode.Ready?))
      && (s.past.drainedEarly || s.past.acceptedEarly ==>
            (s.g.mode.Ready? || s.g.mode.Pending? ==> s.g.live != {}))
      && (!s.a.start.Deciding? && !s.a.start.Consuming? ==> !s.past.drainedEarly && !s.g.mode.Cordoned?)
      && (s.a.start.Consuming? ==> !s.g.mode.Pending?)
  }

  /** The key file exists exactly when some acceptance was saved, and an agent that is
      past enrollment and not Pending has its key in memory and on disk. */
  predicate KeyInv(c: Config, s: State) {
    && (s.k.file.Present? <==> s.k.saved > 0)
    && (s.a.accept.KeySaved? ==> s.k.cached.Some? && s.k.file.Present?)
    && (s.a.accept.KeyCached? ==> s.k.cached == Some(s.a.accept.key))
    && (c.pki && PastEnrollment(s.a.start) && !s.g.mode.Pending? ==> s.k.cached.Some? && s.k.file.Present?)
    && (s.past.acceptedEarly ==> s.k.cached.Some? && s.k.file.Present?)
    && (s.k.file.Present? && s.k.cached.Some? && !s.k.saveFailed && !s.a.accept.KeyCached? ==>
          s.k.cached.value == s.k.file.key)
  }

  /** Without an early acceptance Start leaves an agent Pending exactly when it read no
      saved key when it booted. */
  predicate BootInv(c: Config, s: State) {
    c.pki && s.a.ctxLive && !s.past.acceptedEarly ==>
      && (s.a.start.Identity? || s.a.start.LoadingKeys? ==> s.g.mode.Ready?)
      && (s.a.start.Publishing? || s.a.start.Listening? || s.a.start.EnteringPending? ==>
            NothingRead(s.past) && s.g.mode.Ready?)
      && (s.a.start.Preflighting? || s.a.start.FirstBeating? || (s.a.start.Deciding? && !s.past.drainedEarly) ==>
            (s.g.mode.Pending? <==> NothingRead(s.past)))
  }

  /** At the last boot no acceptance had been saved, or what was saved could not be read. */
  predicate NothingRead(past: Past) {
    past.savedAtBoot == 0 || !past.readAtBoot
  }

  predicate Inv(c: Config, s: State) {
    Basic(s) && StartInv(s) && KeyInv(c, s) && BootInv(c, s)
  }

  // ------------------------------------------------- one step, actor by actor

  datatype Actor = OfStart | OfBeat | OfCallback | OfProcess

  function ActorOf(l: Label): Actor {
    match l
    case Beat(_) => OfBeat
    case Retry => OfBeat
    case Accept(_) => OfCallback
    case SaveKey(_) => OfCallback
    case BecomeReady => OfCallback
    case Shutdown => OfProcess
    case Crash => OfProcess
    case _ => OfStart
  }

  lemma BasicStart(c: Config, s: State, l: Label)
    requires Basic(s) && CanHappen(c, s, l) && ActorOf(l) == OfStart
    ensures Basic(Next(c, s, l))
  {
  }

  lemma BasicBeat(c: Config, s: State, l: Label)
    requires Basic(s) && CanHappen(c, s, l) && ActorOf(l) == OfBeat
    ensures Basic(Next(c, s, l))
  {
  }

  lemma BasicCallback(c: Config, s: State, l: Label)
    requires Basic(s) && CanHappen(c, s, l) && ActorOf(l) == OfCallback
    ensures Basic(Next(c, s, l))
  {
  }

  lemma BasicProcess(c: Config, s: State, l: Label)
    requires Basic(s) && CanHappen(c, s, l) && ActorOf(l) == OfProcess
    ensures Basic(Next(c, s, l))
  {
  }

  lemma BasicStep(c: Config, s: State, l: Label)
    requires Basic(s) && CanHappen(c, s, l)
    ensures Basic(Next(c, s, l))
  {
    match ActorOf(l)
    case OfStart => BasicStart(c, s, l);
    case OfBeat => BasicBeat(c, s, l);
    case OfCallback => BasicCallback(c, s, l);
    case OfProcess => BasicProcess(c, s, l);
  }

  lemma StartStep(c: Config, s: State, l: Label)
    requires Basic(s) && StartInv(s) && CanHappen(c, s, l)
    ensures StartInv(Next(c, s, l))
  {
  }

  lemma KeyStart(c: Config, s: State, l: Label)
    requires Basic(s) && KeyInv(c, s) && CanHappen(c, s, l) && ActorOf(l) == OfStart
    ensures KeyInv(c, Next(c, s, l))
  {
  }

  lemma KeyBeat(c: Config, s: State, l: Label)
    requires Basic(s) && KeyInv(c, s) && CanHappen(c, s, l) && ActorOf(l) == OfBeat
    ensures KeyInv(c, Next(c, s, l))
  {
  }

  lemma KeyCallback(c: Config, s: State, l: Label)
    requires Basic(s) && KeyInv(c, s) && CanHappen(c, s, l) && ActorOf(l) == OfCallback
    ensures KeyInv(c, Next(c, s, l))
  {
  }

  lemma KeyProcess(c: Config, s: State, l: Label)
    requires Basic(s) && KeyInv(c, s) && CanHappen(c, s, l) && ActorOf(l) == OfProcess
    ensures KeyInv(c, Next(c, s, l))
  {
  }

  lemma KeyStep(c: Config, s: State, l: Label)
    requires Basic(s) && KeyInv(c, s) && CanHappen(c, s, l)
    ensures KeyInv(c, Next(c, s, l))
  {
    match ActorOf(l)
    case OfStart => KeyStart(c, s, l);
    case OfBeat => KeyBeat(c, s, l);
    case OfCallback => KeyCallback(c, s, l);
    case OfProcess => KeyProcess(c, s, l);
  }

  lemma BootStep(c: Config, s: State, l: Label)
    requires Inv(c, s) && CanHappen(c, s, l)
    ensures BootInv(c, Next(c, s, l))
  {
  }

  lemma InvStep(c: Config, s: State, l: Label)
    requires Inv(c, s) && CanHappen(c, s, l)
    ensures Inv(c, Next(c, s, l))
  {
    BasicStep(c, s, l);
    StartStep(c, s, l);
    KeyStep(c, s, l);
    BootStep(c, s, l);
  }

  lemma {:induction false} InvRun(c: Config, s: State, ls: seq<Label>)
    requires Inv(c, s) && Run(c, s, ls).Some?
    ensures Inv(c, Run(c, s, ls).value)
    decreases |ls|
  {
    if ls == [] {
    } else {
      InvStep(c, s, ls[0]);
      InvRun(c, Next(c, s, ls[0]), ls[1..]);
    }
  }

  ghost predicate Reachable(c: Config, s: State) {
    exists s0, ls :: Initial(s0) && Run(c, s0, ls) == Some(s)
  }

  lemma ReachableInv(c: Config, s: State)
    requires Reachable(c, s)
    ensures Inv(c, s)
  {
    var s0, ls :| Initial(s0) && Run(c, s0, ls) == Some(s);
    InvRun(c, s0, ls);
  }

  // ----------------------------------------------------------- how Start ends

  /** Start ends clean exactly when, before it was through with its consumers, no
      drain check had drained the agent and no acceptance had made it Ready. */
  lemma StartEndsClean(c: Config, s: State, l: Label)
    requires Reachable(c, s) && CanHappen(c, s, l) && s.a.ctxLive
    requires !s.a.start.Started? && Next(c, s, l).a.start.Started?
    ensures Clean(Next(c, s, l).g) <==> !s.past.drainedEarly && !s.past.acceptedEarly
  {
    ReachableInv(c, s);
    var s' := Next(c, s, l);
    if l.StartConsumers? && (s.past.drainedEarly || s.past.acceptedEarly) {
      assert s.g.next in s'.g.live;
      if s.g.mode.Ready? {
        var n :| n in s.g.live;
        assert n in s'.g.live && n != s.g.next;
      }
    }
  }

  // --------------------------------------------------- generation accounting

  /** Every live generation is the one the handle reaches or an orphan. */
  lemma LiveGenerations(g: Guarded)
    ensures |g.live| == |Orphans(g)| + (if g.handle.Some? && g.handle.value in g.live then 1 else 0)
  {
    if g.handle.Some? && g.handle.value in g.live {
      assert g.live == Orphans(g) + {g.handle.value};
    } else {
      assert g.live == Orphans(g);
    }
  }

  predicate ReachedLives(g: Guarded) {
    g.handle.Some? && g.handle.value in g.live
  }

  lemma StartOrphans(g: Guarded)
    requires forall n | n in g.live :: n < g.next
    ensures Orphans(StartGeneration(g, true)) == if ReachedLives(g) then Orphans(g) + {g.handle.value} else Orphans(g)
  {
  }

  lemma StopOrphans(g: Guarded)
    ensures Orphans(StopGenerations(g)) == Orphans(g)
  {
  }

  /** One step turns the reached generation into an orphan exactly when it starts
      another one over it; no step but the end of the context removes an orphan. */
  lemma OrphanStep(c: Config, s: State, l: Label)
    requires Inv(c, s) && CanHappen(c, s, l) && s.a.ctxLive && !Cancels(s, l)
    ensures Next(c, s, l).a.ctxLive
    ensures Orphans(Next(c, s, l).g) == if MeetsLive(s, l) then Orphans(s.g) + {s.g.handle.value} else Orphans(s.g)
  {
    StartOrphans(s.g);
    StartOrphans(s.g.(mode := Ready));
    StopOrphans(s.g);
  }

  /** While the agent context lives, orphans only accumulate: one for every start
      that met a live generation. */
  lemma {:induction false} OrphansAccumulate(c: Config, s: State, ls: seq<Label>)
    requires Inv(c, s) && Run(c, s, ls).Some? && s.a.ctxLive && Count(c, s, ls, Cancels) == 0
    ensures Run(c, s, ls).value.a.ctxLive
    ensures Orphans(s.g) <= Orphans(Run(c, s, ls).value.g)
    ensures |Orphans(Run(c, s, ls).value.g)| == |Orphans(s.g)| + Count(c, s, ls, MeetsLive)
    decreases |ls|
  {
    if ls == [] {
    } else {
      OrphanStep(c, s, ls[0]);
      assert MeetsLive(s, ls[0]) ==> s.g.handle.value !in Orphans(s.g);
      InvStep(c, s, ls[0]);
      OrphansAccumulate(c, Next(c, s, ls[0]), ls[1..]);
    }
  }

  /** A drain that finds the agent Ready ends, Cordoned and with nothing live, exactly
      when there is no orphan; otherwise it waits with the lock held. */
  lemma DrainEndsIffNoOrphan(c: Config, s: State)
    requires Inv(c, s) && CanHappen(c, s, Beat(true)) && s.g.mode.Ready?
    ensures
      var g := Next(c, s, Beat(true)).g;
      if Orphans(s.g) == {} then g.mode.Cordoned? && g.live == {} && !g.stuck
      else g.stuck && g.mode.Ready? && g.live == Orphans(s.g)
  {
  }

  /** Over runs: from a state without orphans, a drain of the Ready agent ends exactly if no
      start has met a live generation since. */
  lemma DrainEndsIffNothingMet(c: Config, s0: State, ls: seq<Label>)
    requires Inv(c, s0) && s0.a.ctxLive && Orphans(s0.g) == {}
    requires Run(c, s0, ls).Some? && Count(c, s0, ls, Cancels) == 0
    requires CanHappen(c, Run(c, s0, ls).value, Beat(true)) && Run(c, s0, ls).value.g.mode.Ready?
    ensures
      var g := Next(c, Run(c, s0, ls).value, Beat(true)).g;
      && (!g.stuck <==> Count(c, s0, ls, MeetsLive) == 0)
      && (!g.stuck <==> g.mode.Cordoned? && g.live == {})
  {
    OrphansAccumulate(c, s0, ls);
    InvRun(c, s0, ls);
    DrainEndsIffNoOrphan(c, Run(c, s0, ls).value);
  }

  /** A waiting drain waits until the agent context ends: no section under the lock runs. */
  lemma {:induction false} StuckForGood(c: Config, s: State, ls: seq<Label>)
    requires Inv(c, s) && s.g.stuck && s.a.ctxLive && PastEnrollment(s.a.start)
    requires Run(c, s, ls).Some? && Count(c, s, ls, Cancels) == 0
    ensures Run(c, s, ls).value.g == s.g
    ensures forall i | 0 <= i < |ls| :: !NeedsLock(ls[i])
    decreases |ls|
  {
    if ls == [] {
    } else {
      var s' := Next(c, s, ls[0]);
      InvStep(c, s, ls[0]);
      StuckForGood(c, s', ls[1..]);
    }
  }

  // --------------------------------------------------- once Start has returned

  /** An acceptance handled while the agent is Ready already. */
  predicate AcceptsWhileReady(s: State, l: Label) {
    l.BecomeReady? && s.g.mode.Ready?
  }

  lemma CleanStep(c: Config, s: State, l: Label)
    requires Inv(c, s) && CanHappen(c, s, l) && s.a.start.Started? && s.a.ctxLive && !Cancels(s, l) && Clean(s.g)
    ensures Next(c, s, l).a.start.Started?
    ensures MeetsLive(s, l) <==> AcceptsWhileReady(s, l)
    ensures Clean(Next(c, s, l).g) <==> !AcceptsWhileReady(s, l)
    ensures Clean(Next(c, s, l).g) || Orphans(Next(c, s, l).g) != {}
  {
    var s' := Next(c, s, l);
    if AcceptsWhileReady(s, l) {
      assert s.g.handle.value in Orphans(s'.g);
    }
  }

  /** After a clean start the agent stays clean, through any drains, undrains and
      acceptances, for exactly as long as no acceptance is handled while it is Ready. */
  lemma {:induction false} StaysCleanIff(c: Config, s: State, ls: seq<Label>)
    requires Inv(c, s) && s.a.start.Started? && s.a.ctxLive && Clean(s.g)
    requires Run(c, s, ls).Some? && Count(c, s, ls, Cancels) == 0
    ensures Clean(Run(c, s, ls).value.g) <==> Count(c, s, ls, AcceptsWhileReady) == 0
    decreases |ls|
  {
    if ls == [] {
    } else {
      var s' := Next(c, s, ls[0]);
      InvStep(c, s, ls[0]);
      OrphanStep(c, s, ls[0]);
      CleanStep(c, s, ls[0]);
      if Clean(s'.g) {
        StaysCleanIff(c, s', ls[1..]);
      } else {
        OrphansAccumulate(c, s', ls[1..]);
        var g := Run(c, s', ls[1..]).value.g;
        assert Orphans(g) != {} ==> !Clean(g);
      }
    }
  }

  /** What the last heartbeat saw. */
  function LastFlag(ls: seq<Label>, before: bool): bool {
    if ls == [] then before
    else LastFlag(ls[1..], if ls[0].Beat? then ls[0].flag else before)
  }

  /** A clean agent that is enrolled follows the drain flag: after any run it is Ready, with
      its one generation, exactly if the last heartbeat saw no flag, and otherwise Cordoned
      with none; without a heartbeat it stays what it was. */
  lemma {:induction false} FollowsTheFlag(c: Config, s: State, ls: seq<Label>)
    requires Inv(c, s) && s.a.start.Started? && s.a.ctxLive && Clean(s.g) && !s.g.mode.Pending?
    requires Run(c, s, ls).Some? && Count(c, s, ls, Cancels) == 0 && Count(c, s, ls, Becomes) == 0
    ensures
      var g := Run(c, s, ls).value.g;
      if LastFlag(ls, s.g.mode.Cordoned?) then g.mode.Cordoned? && g.live == {}
      else g.mode.Ready? && g.handle.Some? && g.live == {g.handle.value}
    decreases |ls|
  {
    if ls == [] {
    } else {
      var s' := Next(c, s, ls[0]);
      InvStep(c, s, ls[0]);
      CleanStep(c, s, ls[0]);
      FlagStep(c, s, ls[0]);
      FollowsTheFlag(c, s', ls[1..]);
    }
  }

  lemma FlagStep(c: Config, s: State, l: Label)
    requires Inv(c, s) && CanHappen(c, s, l) && s.a.start.Started? && s.a.ctxLive && Clean(s.g)
    requires !s.g.mode.Pending? && !Cancels(s, l) && !Becomes(s, l)
    ensures Next(c, s, l).a.ctxLive && !Next(c, s, l).g.mode.Pending?
    ensures Next(c, s, l).g.mode.Cordoned? <==> if l.Beat? then l.flag else s.g.mode.Cordoned?
  {
    assert s.g.mode.Ready? ==> Orphans(s.g) == {};
  }

  /** The context's end releases a drain that waits: nothing is live then, and the agent is
      Cordoned. */
  lemma ShutdownReleases(c: Config, s: State)
    requires Inv(c, s) && s.g.stuck && CanHappen(c, s, Shutdown)
    ensures
      var s' := Next(c, s, Shutdown);
      !s'.g.stuck && s'.g.live == {} && s'.g.mode.Cordoned? && !s'.a.ctxLive
  {
  }

  // -------------------------------------------------------------- enrollment

  /** Past enrollment an agent with PKI that is not Pending, hence every Ready one,
      has a controller key in memory and on disk, the same one unless a later
      acceptance is being saved or could not be. */
  lemma ReadyHasKey(c: Config, s: State)
    requires Reachable(c, s) && c.pki && PastEnrollment(s.a.start) && !s.g.mode.Pending?
    ensures s.k.cached.Some? && s.k.file.Present?
    ensures !s.k.saveFailed && !s.a.accept.KeyCached? ==> s.k.cached.value == s.k.file.key
  {
    ReachableInv(c, s);
  }

  /** Until an acceptance of this process is handled, an agent with PKI is Pending
      after its enrollment exactly when no acceptance was ever saved before it booted or
      the file it was saved in could not be read. */
  lemma PendingIffNeverSaved(c: Config, s: State)
    requires Reachable(c, s) && c.pki && s.a.ctxLive && !s.past.acceptedEarly
    requires s.a.start.Preflighting? || s.a.start.FirstBeating? || (s.a.start.Deciding? && !s.past.drainedEarly)
    ensures s.g.mode.Pending? <==> s.past.savedAtBoot == 0 || !s.past.readAtBoot
  {
    ReachableInv(c, s);
  }

  /** A crash at any point loses everything but the key file, and the file is there
      exactly when some acceptance was saved. */
  lemma CrashKeepsTheKey(c: Config, s: State)
    requires Reachable(c, s) && CanHappen(c, s, Crash)
    ensures Next(c, s, Crash).a.start.Down? && AtRest(Next(c, s, Crash))
    ensures Next(c, s, Crash).k.file.Present? <==> s.k.saved > 0
    ensures Next(c, s, Crash).k.file == s.k.file
  {
    ReachableInv(c, s);
  }

  predicate Retries(s: State, l: Label) {
    l.Retry?
  }

  predicate Becomes(s: State, l: Label) {
    l.BecomeReady?
  }

  /** Requests go out from Start when it finds no key, and from a Pending agent's heartbeats. */
  predicate Asks(s: State, l: Label) {
    l.PublishRequest? || (l.Retry? && s.g.mode.Pending?)
  }

  /** And at no other time: an agent that is enrolled does not ask. */
  lemma {:induction false} AsksAreCounted(c: Config, s: State, ls: seq<Label>)
    requires Run(c, s, ls).Some?
    ensures Run(c, s, ls).value.past.published == s.past.published + Count(c, s, ls, Asks)
    decreases |ls|
  {
    if ls == [] {
    } else {
      AsksAreCounted(c, Next(c, s, ls[0]), ls[1..]);
    }
  }

  predicate Beats(s: State, l: Label) {
    l.Beat?
  }

  /** An agent that is never accepted stays Pending and asks once for every heartbeat;
      only that of the heartbeat in progress may be still to come. */
  lemma {:induction false} PendingKeepsAsking(c: Config, s: State, ls: seq<Label>)
    requires s.a.start.Started? && s.a.ctxLive && s.g.mode.Pending? && !s.g.stuck
    requires Run(c, s, ls).Some? && Count(c, s, ls, Cancels) == 0 && Count(c, s, ls, Becomes) == 0
    ensures Run(c, s, ls).value.g == s.g
    ensures Run(c, s, ls).value.past.published == s.past.published + Count(c, s, ls, Retries)
    ensures Count(c, s, ls, Retries) + (if Run(c, s, ls).value.a.retryDue then 1 else 0)
         == Count(c, s, ls, Beats) + (if s.a.retryDue then 1 else 0)
    decreases |ls|
  {
    if ls == [] {
    } else {
      PendingKeepsAsking(c, Next(c, s, ls[0]), ls[1..]);
    }
  }

  /** The agent itself never reports Draining, although its drain check allows for it. */
  lemma NeverDraining(c: Config, s: State)
    requires Reachable(c, s)
    ensures !s.g.mode.Draining?
  {
    ReachableInv(c, s);
  }
}
