/** Runs of the lifecycle machine in which the actors move one after the other, and the
    runs that show how an agent comes to grief. */
module LifecycleRuns {
  import opened Base
  import opened Lifecycle
  import opened LifecycleSafety

  /** An enrollment response; Unparsable when it is not JSON. */
  datatype EnrollmentResponse = Unparsable | Rejected(reason: string) | Accepted(controllerKey: Key)

  /** What the environment answers to one call of Start. */
  datatype StartAnswers = StartAnswers(identityOk: bool, loadOk: bool, readOk: bool, listenOk: bool,
                                       preflightOk: bool, drainFlag: bool)

  /** One undisturbed heartbeat: the drain check, then the retry unless the check
      is stuck in its drain. */
  function TickAlone(s: State, flag: bool): State {
    var s1 := OnBeat(s, flag);
    if s1.g.stuck then s1 else OnRetry(s1)
  }

  /** One undisturbed enrollment callback. */
  function AcceptAlone(s: State, response: EnrollmentResponse, writeOk: bool): State {
    match response
    case Accepted(key) =>
      var s1 := OnSaveKey(OnAccept(s, key), writeOk);
      if writeOk then OnBecomeReady(s1) else s1
    case _ => s
  }

  /** One undisturbed call of handlePKIEnrollment. */
  function EnrollAlone(s: State, e: StartAnswers): State {
    var s1 := OnLoadKeys(s, e.loadOk, e.readOk);
    if s1.a.start.Publishing? then OnEnterPending(OnListen(OnPublish(s1), e.listenOk)) else s1
  }

  /** One undisturbed call of Start, from its first step to its return. */
  function StartAlone(c: Config, s: State, e: StartAnswers): State {
    var s1 := OnIdentify(c, OnStartUp(s), e.identityOk);
    var s2 := if s1.a.start.LoadingKeys? then EnrollAlone(s1, e) else s1;
    if s2.a.start.Preflighting? then ServeAlone(c, s2, e) else s2
  }

  /** From the preflight checks on. */
  function ServeAlone(c: Config, s: State, e: StartAnswers): State {
    var s1 := OnPreflight(s, e.preflightOk);
    if s1.a.start.FirstBeating? then ConsumeAlone(OnFirstBeat(c, s1, e.drainFlag)) else s1
  }

  function ConsumeAlone(s: State): State {
    var s1 := OnDecide(s);
    if s1.a.start.Consuming? then OnStartConsumers(s1) else s1
  }

  /** Each is a run of the machine in which no other actor moves. */
  ghost predicate IsRun(c: Config, s: State, s': State) {
    exists ls :: Run(c, s, ls) == Some(s')
  }

  lemma {:induction false} RunSnoc(c: Config, s: State, ls: seq<Label>, l: Label)
    requires Run(c, s, ls).Some? && CanHappen(c, Run(c, s, ls).value, l)
    ensures Run(c, s, ls + [l]) == Some(Next(c, Run(c, s, ls).value, l))
    decreases |ls|
  {
    if ls == [] {
      assert Run(c, Next(c, s, l), []) == Some(Next(c, s, l));
      assert ([] + [l])[1..] == [];
    } else {
      RunSnoc(c, Next(c, s, ls[0]), ls[1..], l);
      assert (ls + [l])[1..] == ls[1..] + [l];
    }
  }

  lemma Extend(c: Config, s0: State, s: State, l: Label)
    requires IsRun(c, s0, s) && CanHappen(c, s, l)
    ensures IsRun(c, s0, Next(c, s, l))
  {
    var ls :| Run(c, s0, ls) == Some(s);
    RunSnoc(c, s0, ls, l);
  }

  lemma NoStep(c: Config, s: State)
    ensures IsRun(c, s, s)
  {
    assert Run(c, s, []) == Some(s);
  }

  lemma TickIsRun(c: Config, s: State, flag: bool)
    requires Beating(c, s.a) && !s.a.retryDue && !s.g.stuck
    ensures IsRun(c, s, TickAlone(s, flag))
  {
    NoStep(c, s);
    Extend(c, s, s, Beat(flag));
    var s1 := OnBeat(s, flag);
    if !s1.g.stuck {
      Extend(c, s, s1, Retry);
    }
  }

  lemma AcceptIsRun(c: Config, s: State, response: EnrollmentResponse, writeOk: bool)
    requires s.a.listening && s.a.accept.NoMessage? && !s.g.stuck
    ensures IsRun(c, s, AcceptAlone(s, response, writeOk))
  {
    NoStep(c, s);
    if response.Accepted? {
      var s1 := OnAccept(s, response.controllerKey);
      Extend(c, s, s, Accept(response.controllerKey));
      Extend(c, s, s1, SaveKey(writeOk));
      if writeOk {
        Extend(c, s, OnSaveKey(s1, true), BecomeReady);
      }
    }
  }

  lemma StartIsRun(c: Config, s: State, e: StartAnswers)
    requires AtRest(s)
    ensures IsRun(c, s, StartAlone(c, s, e))
  {
    NoStep(c, s);
    Extend(c, s, s, StartUp);
    var s0 := OnStartUp(s);
    Extend(c, s, s0, Identify(e.identityOk));
    var s1 := OnIdentify(c, s0, e.identityOk);
    if s1.a.start.LoadingKeys? {
      Extend(c, s, s1, LoadKeys(e.loadOk, e.readOk));
      var s2 := OnLoadKeys(s1, e.loadOk, e.readOk);
      if s2.a.start.Publishing? {
        Extend(c, s, s2, PublishRequest);
        var s3 := OnPublish(s2);
        Extend(c, s, s3, Listen(e.listenOk));
        Extend(c, s, OnListen(s3, e.listenOk), EnterPending);
      }
      if EnrollAlone(s1, e).a.start.Preflighting? {
        ServeIsRun(c, s, EnrollAlone(s1, e), e);
      }
    } else if s1.a.start.Preflighting? {
      ServeIsRun(c, s, s1, e);
    }
  }

  lemma ServeIsRun(c: Config, s0: State, s: State, e: StartAnswers)
    requires IsRun(c, s0, s) && s.a.start.Preflighting? && !s.g.stuck && s.g.live == {}
    ensures IsRun(c, s0, ServeAlone(c, s, e))
  {
    Extend(c, s0, s, Preflight(e.preflightOk));
    var s1 := OnPreflight(s, e.preflightOk);
    if e.preflightOk {
      Extend(c, s0, s1, FirstBeat(e.drainFlag));
      var s2 := OnFirstBeat(c, s1, e.drainFlag);
      Extend(c, s0, s2, Decide);
      var s3 := OnDecide(s2);
      if s3.a.start.Consuming? {
        Extend(c, s0, s3, StartConsumers);
      }
    }
  }

  /** What an undisturbed Start comes to: it ends clean unless the drain flag was
      already set; Pending when PKI is on and no saved key was read, and then it hears an
      acceptance exactly if it could subscribe; otherwise its consumers are running, and a
      saved key is in use. */
  lemma StartAloneEnds(c: Config, s: State, e: StartAnswers)
    requires AtRest(s) && e.identityOk && e.preflightOk && (c.pki ==> e.loadOk && !(e.readOk && s.k.file.Garbage?))
    ensures
      var s' := StartAlone(c, s, e);
      var pending := c.pki && !(e.readOk && s.k.file.Present?);
      && s'.a.start.Started?
      && (s'.g.mode.Pending? <==> pending)
      && (pending ==> s'.g.live == {} && s'.past.published == s.past.published + 1)
      && (!pending ==> s'.g.live == {s.g.next} && s'.g.handle == Some(s.g.next))
      && (!pending ==> (s'.g.mode.Ready? <==> !(c.registry && e.drainFlag)))
      && s'.k.cached == (if c.pki && !pending then Some(s.k.file.key) else None) && s'.k.file == s.k.file
      && (s'.a.listening <==> pending && e.listenOk)
  {
  }

  /** Start gives up exactly if the identity, the agent's own keys, a key file that does not
      parse, or the preflight checks stop it, and leaves nothing running; otherwise it
      comes to its end. */
  lemma GivesUpIff(c: Config, s: State, e: StartAnswers)
    requires AtRest(s)
    ensures
      var s' := StartAlone(c, s, e);
      var fails := !e.identityOk || !e.preflightOk || (c.pki && (!e.loadOk || (e.readOk && s.k.file.Garbage?)));
      && (fails ==> s'.a.start.GaveUp? && !s'.a.ctxLive && s'.g.live == {} && s'.k.file == s.k.file)
      && (!fails ==> s'.a.start.Started? && s'.a.ctxLive)
  {
  }

  /** What an enrollment response comes to: one that is not an acceptance changes nothing; an
      acceptance that cannot be saved changes the key in memory and nothing else that
      matters; one that is saved leaves the agent Ready, with that key in memory and on
      disk and one more generation. */
  lemma AcceptanceComesTo(s: State, response: EnrollmentResponse, writeOk: bool)
    requires s.a.ctxLive && s.a.accept.NoMessage?
    ensures
      var s' := AcceptAlone(s, response, writeOk);
      && (!response.Accepted? ==> s' == s)
      && (response.Accepted? ==> s'.k.cached == Some(response.controllerKey) && s'.a == s.a)
      && (response.Accepted? && !writeOk ==> s'.g == s.g && s'.k.file == s.k.file && s'.past == s.past)
      && (response.Accepted? && writeOk ==>
            && s'.g.mode.Ready? && s'.k.file == Present(response.controllerKey)
            && s'.g.live == s.g.live + {s.g.next} && s'.g.handle == Some(s.g.next))
  {
  }

  /** Whatever runs of the machine keep, the calls that are runs keep too. */
  lemma RunKeepsInv(c: Config, s: State, s': State)
    requires IsRun(c, s, s')
    ensures Inv(c, s) ==> Inv(c, s')
  {
    if Inv(c, s) {
      var ls :| Run(c, s, ls) == Some(s');
      InvRun(c, s, ls);
    }
  }

  lemma TickKeepsInv(c: Config, s: State, flag: bool)
    requires Beating(c, s.a) && !s.a.retryDue && !s.g.stuck
    ensures Inv(c, s) ==> Inv(c, TickAlone(s, flag))
  {
    TickIsRun(c, s, flag);
    RunKeepsInv(c, s, TickAlone(s, flag));
  }

  lemma AcceptKeepsInv(c: Config, s: State, response: EnrollmentResponse, writeOk: bool)
    requires s.a.listening && s.a.accept.NoMessage? && !s.g.stuck
    ensures Inv(c, s) ==> Inv(c, AcceptAlone(s, response, writeOk))
  {
    AcceptIsRun(c, s, response, writeOk);
    RunKeepsInv(c, s, AcceptAlone(s, response, writeOk));
  }

  lemma StartKeepsInv(c: Config, s: State, e: StartAnswers)
    requires AtRest(s)
    ensures Inv(c, s) ==> Inv(c, StartAlone(c, s, e))
  {
    StartIsRun(c, s, e);
    RunKeepsInv(c, s, StartAlone(c, s, e));
  }

  // ------------------------------------------------- how an agent comes to grief

  /** The first drain check cordons the agent and Start starts its consumers all the same. */
  lemma FirstDrainIsOverrun(s: State) returns (s': State)
    requires Initial(s)
    ensures IsRun(Config(false, true), s, s')
    ensures s'.a.start.Started? && s'.g.mode.Cordoned? && |s'.g.live| == 1
  {
    var c, e := Config(false, true), StartAnswers(true, true, true, true, true, true);
    s' := StartAlone(c, s, e);
    StartIsRun(c, s, e);
    StartAloneEnds(c, s, e);
  }

  /** An acceptance handled before Start is through with its consumers: Start finds the
      agent Ready and starts a second generation over the first. */
  lemma EarlyAcceptanceOrphans(s: State, key: Key) returns (s': State)
    requires Initial(s) && s.k.file.Absent?
    ensures IsRun(Config(true, true), s, s')
    ensures s'.a.start.Started? && s'.g.mode.Ready? && Orphans(s'.g) != {} && !Clean(s'.g)
  {
    var c, e := Config(true, true), StartAnswers(true, true, true, true, true, false);
    NoStep(c, s);
    Extend(c, s, s, StartUp);
    var s1 := OnStartUp(s);
    Extend(c, s, s1, Identify(true));
    var s2 := OnIdentify(c, s1, true);
    var s3 := AsksAlone(c, s, s2);
    s' := OvertakenByAcceptance(c, s, s3, key);
  }

  lemma AsksAlone(c: Config, s0: State, s: State) returns (s': State)
    requires IsRun(c, s0, s) && s.a.start.LoadingKeys? && s.k.file.Absent? && s.g.live == {} && !s.g.stuck
    requires s.a.ctxLive && s.a.accept.NoMessage?
    ensures IsRun(c, s0, s')
    ensures s'.a == Actors(Preflighting, s.a.retryDue, NoMessage, true, true) && s'.g == s.g.(mode := Pending)
  {
    Extend(c, s0, s, LoadKeys(true, true));
    var s1 := OnLoadKeys(s, true, true);
    Extend(c, s0, s1, PublishRequest);
    var s2 := OnPublish(s1);
    Extend(c, s0, s2, Listen(true));
    var s3 := OnListen(s2, true);
    Extend(c, s0, s3, EnterPending);
    s' := OnEnterPending(s3);
  }

  lemma OvertakenByAcceptance(c: Config, s0: State, s: State, key: Key) returns (s': State)
    requires IsRun(c, s0, s) && s.a.start.Preflighting? && s.a.listening && s.a.accept.NoMessage? && s.a.ctxLive
    requires s.g.mode.Pending? && !s.g.stuck && s.g.live == {}
    ensures IsRun(c, s0, s')
    ensures s'.a.start.Started? && s'.g.mode.Ready? && Orphans(s'.g) != {} && !Clean(s'.g)
  {
    var accepted := AcceptAlone(s, Accepted(key), true);
    AcceptIsRun(c, s, Accepted(key), true);
    Chain(c, s0, s, accepted);
    assert accepted.g.live == {s.g.next} && accepted.g.mode.Ready?;
    Extend(c, s0, accepted, Preflight(true));
    var s1 := OnPreflight(accepted, true);
    Extend(c, s0, s1, FirstBeat(false));
    var s2 := OnFirstBeat(c, s1, false);
    Extend(c, s0, s2, Decide);
    var s3 := OnDecide(s2);
    Extend(c, s0, s3, StartConsumers);
    s' := OnStartConsumers(s3);
    assert s.g.next in Orphans(s'.g);
  }

  lemma Chain(c: Config, s0: State, s1: State, s2: State)
    requires IsRun(c, s0, s1) && IsRun(c, s1, s2)
    ensures IsRun(c, s0, s2)
  {
    var ls :| Run(c, s0, ls) == Some(s1);
    var more :| Run(c, s1, more) == Some(s2);
    RunJoin(c, s0, ls, more);
  }

  lemma {:induction false} RunJoin(c: Config, s: State, ls: seq<Label>, more: seq<Label>)
    requires Run(c, s, ls).Some?
    ensures Run(c, s, ls + more) == Run(c, Run(c, s, ls).value, more)
    decreases |ls|
  {
    if ls == [] {
      assert ls + more == more;
    } else {
      RunJoin(c, Next(c, s, ls[0]), ls[1..], more);
      assert (ls + more)[1..] == ls[1..] + more;
    }
  }

  /** The same acceptance twice, and the next drain waits for a generation that nobody can
      cancel, with the lock held. */
  lemma SecondAcceptanceBlocksDrains(s: State, key: Key) returns (s': State)
    requires Initial(s) && s.k.file.Absent?
    ensures IsRun(Config(true, true), s, s')
    ensures s'.g.stuck && s'.a.ctxLive && s'.a.start.Started?
  {
    var c, e := Config(true, true), StartAnswers(true, true, true, true, true, false);
    var s1 := StartAlone(c, s, e);
    StartIsRun(c, s, e);
    StartAloneEnds(c, s, e);
    var s2 := AcceptAlone(s1, Accepted(key), true);
    AcceptIsRun(c, s1, Accepted(key), true);
    Chain(c, s, s1, s2);
    var s3 := AcceptAlone(s2, Accepted(key), true);
    AcceptIsRun(c, s2, Accepted(key), true);
    Chain(c, s, s2, s3);
    assert s1.g.next in Orphans(s3.g);
    Extend(c, s, s3, Beat(true));
    s' := OnBeat(s3, true);
  }
}
