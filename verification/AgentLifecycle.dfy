/** The agent's lifecycle methods, run without interference, as they update its fields;
    each is proved to be the section or the run of the machine it stands for. */
module AgentLifecycle {
  import opened Base
  import opened Lifecycle
  import opened LifecycleRuns
  import opened LifecycleSafety

  class Agent {
    const config: Config

    // guarded by lifecycleMu; consumerWg stands for the wait group by the generations
    // it still counts, lockHeld for a section that never returned
    var state: Mode
    var consumerCancel: Option<nat>
    var consumerWg: set<nat>
    var generations: nat
    var lockHeld: bool

    var ctxLive: bool
    var listening: bool
    var controllerKey: Option<Key>
    var keyFile: KeyFile

    // where the actors are, and the history of Lifecycle
    ghost var start: StartPc
    ghost var retryDue: bool
    ghost var saved: nat
    ghost var saveFailed: bool
    ghost var past: Past

    ghost function G(): Guarded
      reads this
    {
      Guarded(state, consumerCancel, consumerWg, generations, lockHeld)
    }

    /** The state with the enrollment callback at pc. */
    ghost function ViewWith(pc: AcceptPc): State
      reads this
    {
      State(G(), Actors(start, retryDue, pc, listening, ctxLive), Keys(controllerKey, keyFile, saved, saveFailed), past)
    }

    ghost function View(): State
      reads this
    {
      ViewWith(NoMessage)
    }

    constructor (config: Config, keyFile: KeyFile)
      requires !keyFile.Present?
      ensures Initial(View()) && this.config == config && this.keyFile == keyFile
    {
      this.config := config;
      state, consumerCancel, consumerWg, generations, lockHeld := Ready, None, {}, 0, false;
      ctxLive, listening, controllerKey := false, false, None;
      this.keyFile := keyFile;
      start, retryDue, saved, saveFailed, past := Down, false, 0, false, Past(0, 0, false, false, false);
    }

    method SetState(mode: Mode)
      modifies this`state
      ensures G() == old(G()).(mode := mode)
    {
      state := mode;
    }

    /** Overwrites the only handle to the previous generation. */
    method StartConsumersLocked()
      modifies this`consumerCancel, this`generations, this`consumerWg
      ensures G() == StartGeneration(old(G()), ctxLive)
    {
      consumerCancel := Some(generations);
      if ctxLive {
        consumerWg := consumerWg + {generations};
      }
      generations := generations + 1;
    }

    /** Cancels, then waits; returned is false for a call that waits for ever. */
    method StopConsumersLocked() returns (returned: bool)
      modifies this`consumerWg, this`lockHeld
      ensures G() == StopGenerations(old(G()))
      ensures returned <==> consumerWg == {}
    {
      if consumerCancel.Some? {
        consumerWg := consumerWg - {consumerCancel.value};
      }
      returned := consumerWg == {};
      lockHeld := !returned;
    }

    /** The drain check of one heartbeat. */
    method HandleDrainDetection(drainRequested: bool)
      requires !lockHeld
      modifies this`state, this`consumerCancel, this`consumerWg, this`generations, this`lockHeld
      ensures G() == DrainSection(old(G()), drainRequested, ctxLive)
    {
      if drainRequested && state.Ready? {
        var returned := StopConsumersLocked();
        if returned {
          state := Cordoned;
        }
      } else if !drainRequested && (state.Draining? || state.Cordoned?) {
        StartConsumersLocked();
        state := Ready;
      }
    }

    /** One tick of the heartbeat, hostname and conditions aside. */
    method HeartbeatTick(drainRequested: bool)
      requires !lockHeld && Beating(config, View().a) && !retryDue
      modifies this
      ensures View() == TickAlone(old(View()), drainRequested)
      ensures Inv(config, old(View())) ==> Inv(config, View())
    {
      TickKeepsInv(config, View(), drainRequested);
      CheckDrain(drainRequested);
      if !lockHeld {
        RetryEnrollmentIfPending();
      }
    }

    /** The drain check of a tick. */
    method CheckDrain(drainRequested: bool)
      requires !lockHeld
      modifies this`state, this`consumerCancel, this`consumerWg, this`generations, this`lockHeld,
        this`past, this`retryDue
      ensures View() == OnBeat(old(View()), drainRequested)
    {
      past := past.(drainedEarly := past.drainedEarly || (drainRequested && state.Ready? && !start.Started?));
      HandleDrainDetection(drainRequested);
      retryDue := true;
    }

    /** Publishes again while Pending. */
    method RetryEnrollmentIfPending()
      modifies this`past, this`retryDue
      ensures View() == OnRetry(old(View()))
      ensures past == old(past).(published := old(past).published + if state.Pending? then 1 else 0)
    {
      if state.Pending? {
        PublishEnrollmentRequest();
      }
      retryDue := false;
    }

    method PublishEnrollmentRequest()
      modifies this`past
      ensures past == old(past).(published := old(past).published + 1)
    {
      past := past.(published := past.published + 1);
    }

    /** The key goes into memory and onto the disk before the state changes. */
    method HandleEnrollmentResponse(response: EnrollmentResponse, writeOk: bool)
      requires !lockHeld && listening
      modifies this
      ensures View() == AcceptAlone(old(View()), response, writeOk)
      ensures Inv(config, old(View())) ==> Inv(config, View())
    {
      AcceptKeepsInv(config, View(), response, writeOk);
      if response.Accepted? {
        SetControllerKey(response.controllerKey);
        SaveControllerKey(response.controllerKey, writeOk);
        if writeOk {
          BecomeReady();
        }
      }
    }

    method SetControllerKey(key: Key)
      modifies this`controllerKey
      ensures ViewWith(KeyCached(key)) == OnAccept(old(View()), key)
    {
      controllerKey := Some(key);
    }

    method SaveControllerKey(key: Key, writeOk: bool)
      modifies this`keyFile, this`saved, this`saveFailed
      ensures ViewWith(if writeOk then KeySaved else NoMessage) == OnSaveKey(old(ViewWith(KeyCached(key))), writeOk)
    {
      if writeOk {
        keyFile, saved := Present(key), saved + 1;
      } else {
        saveFailed := true;
      }
    }

    /** State and consumers change in one section. */
    method BecomeReady()
      requires !lockHeld
      modifies this`state, this`consumerCancel, this`generations, this`consumerWg, this`past
      ensures View() == OnBecomeReady(old(ViewWith(KeySaved)))
    {
      state := Ready;
      StartConsumersLocked();
      past := past.(acceptedEarly := past.acceptedEarly || !start.Started?);
    }

    /** Loads the agent's keys and the controller's; without the latter it asks for
        acceptance, listens, and only then becomes Pending. */
    method HandlePKIEnrollment(e: StartAnswers) returns (ok: bool)
      requires start.LoadingKeys? && ctxLive && !lockHeld
      modifies this
      ensures ok ==> View() == EnrollAlone(old(View()), e) && start.Preflighting?
      ensures !ok ==> GiveUp(View()) == EnrollAlone(old(View()), e)
      ensures G() == old(G()) || G() == old(G()).(mode := Pending)
    {
      if !e.loadOk {
        ok := false;
        return;
      }
      ok := true;
      if e.readOk && keyFile.Garbage? {
        ok := false;
      } else if e.readOk && keyFile.Present? {
        controllerKey := Some(keyFile.key);
        past, start := past.(savedAtBoot := saved, readAtBoot := true), Preflighting;
      } else {
        AskForAcceptance(e);
      }
    }

    method AskForAcceptance(e: StartAnswers)
      requires start.LoadingKeys? && !lockHeld && (keyFile.Absent? || !e.readOk)
      modifies this`past, this`start, this`listening, this`state
      ensures View() == OnEnterPending(OnListen(OnPublish(OnLoadKeys(old(View()), true, e.readOk)), e.listenOk))
    {
      past, start := past.(savedAtBoot := saved, readAtBoot := e.readOk), Publishing;
      assert View() == OnLoadKeys(old(View()), true, e.readOk);
      PublishAndListen(e.listenOk);
      SetState(Pending);
      start := Preflighting;
    }

    method PublishAndListen(listenOk: bool)
      requires start.Publishing?
      modifies this`past, this`start, this`listening
      ensures View() == OnListen(OnPublish(old(View())), listenOk)
    {
      PublishEnrollmentRequest();
      listening, start := listenOk, EnteringPending;
    }

    /** The agent context ends, and every generation with it. */
    method Cancel()
      requires !lockHeld
      modifies this`ctxLive, this`consumerWg
      ensures !ctxLive && G() == CancelContext(old(G()))
    {
      ctxLive, consumerWg := false, {};
    }

    /** Start, with every early return. */
    method Start(e: StartAnswers)
      requires AtRest(View())
      modifies this
      ensures View() == StartAlone(config, old(View()), e)
      ensures Inv(config, old(View())) ==> Inv(config, View())
    {
      StartKeepsInv(config, View(), e);
      ctxLive := true;
      SetState(Ready);
      if !e.identityOk {
        Cancel();
        start := GaveUp;
        return;
      }
      start := LoadingKeys;
      if config.pki {
        var ok := HandlePKIEnrollment(e);
        if !ok {
          Cancel();
          start := GaveUp;
          return;
        }
      }
      start := Preflighting;
      Serve(e);
    }

    /** From the preflight checks on: the first registration with its drain check, then
        the decision whether to consume. */
    method Serve(e: StartAnswers)
      requires start.Preflighting? && ctxLive && !lockHeld && consumerWg == {}
      modifies this
      ensures View() == ServeAlone(config, old(View()), e)
    {
      if !e.preflightOk {
        Cancel();
        start := GaveUp;
        return;
      }
      start := FirstBeating;
      Register(e.drainFlag);
      DecideToConsume();
    }

    /** The first registration. */
    method Register(drainRequested: bool)
      requires start.FirstBeating? && !lockHeld
      modifies this`state, this`consumerCancel, this`consumerWg, this`generations, this`lockHeld, this`past, this`start
      ensures View() == OnFirstBeat(config, old(View()), drainRequested)
    {
      if config.registry {
        past := past.(drainedEarly := past.drainedEarly || (drainRequested && state.Ready?));
        HandleDrainDetection(drainRequested);
      }
      start := Deciding;
    }

    /** Start's last decision, on a state it has read under the lock. */
    method DecideToConsume()
      requires start.Deciding? && !lockHeld
      modifies this
      ensures View() == ConsumeAlone(old(View()))
    {
      if !state.Pending? {
        start := Consuming;
        StartConsumersLocked();
      }
      start := Started;
    }
  }
}
