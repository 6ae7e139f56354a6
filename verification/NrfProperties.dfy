/** Safety over all runs of the registration and heartbeat protocol, under every interleaving. */
module NrfProperties {
  import opened Prelude
  import opened NrfProtocol
  import opened NrfInvariants

  lemma StepKeepsInv(s: State, a: Action)
    requires Inv(s) && Enabled(s, a)
    ensures Inv(Next(s, a))
  {
    if IsServiceAction(a) {
      ServiceStep(s, a);
    } else if IsRegisterAction(a) {
      RegisterStep(s, a);
    } else if IsHeartbeatAction(a) {
      HeartbeatStep(s, a);
    } else {
      PollerStep(s, a);
    }
  }

  lemma {:induction false} RunKeepsInv(s: State, run: seq<Action>)
    requires Inv(s) && Run(s, run).Some?
    ensures Inv(Run(s, run).value)
    decreases |run|
  {
    if run != [] {
      StepKeepsInv(s, run[0]);
      RunKeepsInv(Next(s, run[0]), run[1..]);
    }
  }

  ghost predicate Reachable(s: State) {
    exists run :: Run(INIT, run) == Some(s)
  }

  lemma ReachableInv(s: State)
    requires Reachable(s)
    ensures Inv(s)
  {
    var run :| Run(INIT, run) == Some(s);
    RunKeepsInv(INIT, run);
  }

  // ----- Heartbeat

  predicate ChainAlive(h: Heartbeat) {
    h.keepAlive.Some? && (h.keepAlive.value in h.armed || h.keepAlive.value in h.callbacks)
  }

  /** If keepAliveTimer is set, it is armed or its own callback is in flight, and that one can always take a step. */
  lemma HeartbeatNeverDies(s: State)
    requires Reachable(s) && s.hb.keepAlive.Some?
    ensures ChainAlive(s.hb)
    ensures exists a :: IsHeartbeatAction(a) && a.timer == s.hb.keepAlive.value && Enabled(s, a)
  {
    ReachableInv(s);
    var t := s.hb.keepAlive.value;
    if t in s.hb.armed {
      assert Enabled(s, Fire(t));
    } else {
      match s.hb.callbacks[t] {
        case Fired => assert Enabled(s, NilCheck(t));
        case Checked => assert Enabled(s, UpdateAnswer(t, None));
        case Reregistering => assert Enabled(s, ReregisterAnswer(t, 0));
        case Rearming(_) => assert Enabled(s, Rearm(t));
      }
    }
  }

  predicate NoStop(run: seq<Action>) {
    forall i :: 0 <= i < |run| ==> !run[i].StopTimer? && !run[i].ShutdownStopTimer?
  }

  lemma SetUntilStopped(s: State, a: Action)
    requires s.hb.keepAlive.Some? && Enabled(s, a) && !a.StopTimer? && !a.ShutdownStopTimer?
    ensures Next(s, a).hb.keepAlive.Some?
  {
  }

  /** Once started, the chain of timers and callbacks continues until a DeregisterNF stops the timer. */
  lemma {:induction false} ChainContinues(s: State, run: seq<Action>)
    requires Inv(s) && s.hb.keepAlive.Some? && NoStop(run) && Run(s, run).Some?
    ensures ChainAlive(Run(s, run).value.hb)
    decreases |run|
  {
    if run != [] {
      SetUntilStopped(s, run[0]);
      StepKeepsInv(s, run[0]);
      ChainContinues(Next(s, run[0]), run[1..]);
    }
  }

  /** A successful registration starts the chain, with the profile's timer or else 60 seconds. */
  lemma CompletionStartsChain(s: State, g: nat)
    requires Reachable(s) && Enabled(s, CompleteRegister(g))
    ensures var h := Next(s, CompleteRegister(g)).hb;
      && h.armed == {|s.hb.timers|} && h.keepAlive == Some(|s.hb.timers|)
      && h.timers[|s.hb.timers|] ==
           Timer(g, if s.reg.goroutines[g].hb > 0 then s.reg.goroutines[g].hb else DEFAULT_HEARTBEAT_TIMER)
  {
    ReachableInv(s);
  }

  /** At most one timer is armed, and it is keepAliveTimer; timers and callbacks never outnumber the registrations. */
  lemma TimersBounded(s: State)
    requires Reachable(s)
    ensures s.hb.armed <= (if s.hb.keepAlive.Some? then {s.hb.keepAlive.value} else {})
    ensures |s.hb.armed| <= 1 && |s.hb.armed| + |s.hb.callbacks| <= s.reg.completions
  {
    ReachableInv(s);
    ArmedCount(s.hb);
  }

  // ----- What ends, and why

  /** The loops end only on termination, and a registration only by success, which arms a timer, or by cancellation. */
  ghost predicate EndsWithCause(s: State) {
    && (s.reg.shutdown.Running? ==> !s.reg.service.Stopped? && !s.poller.exited)
    && forall g :: g in s.reg.spawned && g !in s.reg.goroutines ==>
         g in s.reg.cancelled || exists i :: 0 <= i < |s.hb.timers| && s.hb.timers[i].gen == g
  }

  lemma TimersStay(s: State, a: Action)
    requires Enabled(s, a)
    ensures s.hb.timers <= Next(s, a).hb.timers
    ensures a.CompleteRegister? ==>
      |Next(s, a).hb.timers| == |s.hb.timers| + 1 && Next(s, a).hb.timers[|s.hb.timers|].gen == a.gen
  {
  }

  lemma EndsWithCauseStep(s: State, a: Action)
    requires EndsWithCause(s) && Enabled(s, a)
    ensures EndsWithCause(Next(s, a))
  {
    var t := Next(s, a);
    TimersStay(s, a);
    forall g | g in t.reg.spawned && g !in t.reg.goroutines
      ensures g in t.reg.cancelled || exists i :: 0 <= i < |t.hb.timers| && t.hb.timers[i].gen == g
    {
      if a == CompleteRegister(g) {
        assert t.hb.timers[|s.hb.timers|].gen == g;
      } else if g !in s.reg.goroutines && g !in s.reg.cancelled {
        var i :| 0 <= i < |s.hb.timers| && s.hb.timers[i].gen == g;
        assert t.hb.timers[i].gen == g;
      }
    }
  }

  lemma {:induction false} RunEndsWithCause(s: State, run: seq<Action>)
    requires EndsWithCause(s) && Run(s, run).Some?
    ensures EndsWithCause(Run(s, run).value)
    decreases |run|
  {
    if run != [] {
      EndsWithCauseStep(s, run[0]);
      RunEndsWithCause(Next(s, run[0]), run[1..]);
    }
  }

  /** In every reachable state, whatever has ended had its cause. */
  lemma NothingEndsByItself(s: State)
    requires Reachable(s)
    ensures EndsWithCause(s)
  {
    var run :| Run(INIT, run) == Some(s);
    RunEndsWithCause(INIT, run);
  }

  // ----- Registration contexts

  predicate Live(r: Registration, g: nat) {
    g in r.spawned && g !in r.cancelled
  }

  /** At most one register context is uncancelled, and it belongs to the latest non-empty configuration received. */
  lemma LiveContextIsLatest(s: State, g: nat, other: nat)
    requires Reachable(s) && Live(s.reg, g)
    ensures IsGeneration(s.reg, g)
    ensures IsGeneration(s.reg, other) ==> other <= g
    ensures Live(s.reg, other) ==> other == g
  {
    ReachableInv(s);
    assert IsGeneration(s.reg, other) ==> other in s.reg.spawned;
  }

  /** At most one registerNF is past its mutex. */
  lemma OnePastTheMutex(s: State, g: nat, other: nat)
    requires Reachable(s)
    requires g in s.reg.goroutines && !s.reg.goroutines[g].AwaitingMutex?
    requires other in s.reg.goroutines && !s.reg.goroutines[other].AwaitingMutex?
    ensures g == other
  {
    ReachableInv(s);
  }

  // ----- The stream

  /** What was received, followed by what the channel holds, is what the poller sent, and nothing is sent twice in a row. */
  lemma StreamIsFaithful(s: State)
    requires Reachable(s)
    ensures s.reg.received + s.poller.channel == s.poller.sent
    ensures NoRepeat([[]] + s.reg.received)
  {
    ReachableInv(s);
    var all := Accepted(s.poller);
    var front := [[]] + s.reg.received;
    assert forall i :: 0 <= i < |front| ==> front[i] == all[i];
  }

  /** The first configuration received is not empty, and between two empty ones a registerNF was started. */
  lemma RegistrationBetweenDeregistrations(s: State, i: nat, j: nat)
    requires Reachable(s) && i < j < |s.reg.received| && s.reg.received[i] == s.reg.received[j] == []
    ensures s.reg.received[0] != []
    ensures exists k :: i < k < j && s.reg.received[k] != [] && k in s.reg.spawned
  {
    StreamIsFaithful(s);
    ReachableInv(s);
    var all := [[]] + s.reg.received;
    assert all[0] != all[1] && all[i + 1] != all[i + 2];
    assert all[i + 1] == s.reg.received[i] && all[i + 2] == s.reg.received[i + 1];
    assert IsGeneration(s.reg, i + 1);
    assert i + 1 in s.reg.spawned;
  }

  // ----- The pending send

  /** The send that the poller waits for can still complete. */
  ghost predicate CanSend(s: State) {
    exists run :: Run(s, run).Some? && Enabled(Run(s, run).value, Send)
  }

  lemma CanSendLater(s: State, a: Action)
    requires Enabled(s, a) && CanSend(Next(s, a))
    ensures CanSend(s)
  {
    var run :| Run(Next(s, a), run).Some? && Enabled(Run(Next(s, a), run).value, Send);
    assert ([a] + run)[1..] == run;
    assert Run(s, [a] + run) == Run(Next(s, a), run);
  }

  /** Blocked: the channel is full and the service that would empty it is gone. */
  predicate SenderIsStuck(s: State) {
    s.poller.pending.Some? && |s.poller.channel| >= CHANNEL_CAPACITY && s.reg.service.Stopped?
  }

  lemma {:induction false} StuckForEver(s: State, run: seq<Action>)
    requires SenderIsStuck(s) && Run(s, run).Some?
    ensures SenderIsStuck(Run(s, run).value) && Run(s, run).value.poller == s.poller
    decreases |run|
  {
    if run != [] {
      StuckStep(s, run[0]);
      StuckForEver(Next(s, run[0]), run[1..]);
    }
  }

  lemma StuckStep(s: State, a: Action)
    requires SenderIsStuck(s) && Enabled(s, a)
    ensures SenderIsStuck(Next(s, a)) && Next(s, a).poller == s.poller
  {
  }

  lemma ListeningDrains(s: State)
    requires s.poller.pending.Some? && |s.poller.channel| <= CHANNEL_CAPACITY && s.reg.service.Listening?
    ensures CanSend(s)
  {
    if s.poller.channel == [] {
      assert Run(s, []) == Some(s);
    } else {
      assert Run(Next(s, Receive), []) == Some(Next(s, Receive));
      CanSendLater(s, Receive);
    }
  }

  lemma ServiceDrains(s: State)
    requires Inv(s) && s.poller.pending.Some? && !s.reg.service.Stopped?
    ensures CanSend(s)
  {
    match s.reg.service {
      case Listening => ListeningDrains(s);
      case Deregistering =>
        ListeningDrains(Next(s, SendDeregister));
        CanSendLater(s, SendDeregister);
      case Handling =>
        if Latest(s.reg) != [] {
          ListeningDrains(Next(s, Spawn));
          CanSendLater(s, Spawn);
        } else {
          var stopped := Next(s, StopTimer);
          ListeningDrains(Next(stopped, SendDeregister));
          CanSendLater(stopped, SendDeregister);
          CanSendLater(s, StopTimer);
        }
    }
  }

  /**
   * The poller's send can complete exactly when the channel has room or the service has not stopped. Otherwise the
   * poller never returns, and a termination that waits for both loops never ends.
   */
  lemma PendingSendCompletesExactly(s: State)
    requires Reachable(s) && s.poller.pending.Some?
    ensures CanSend(s) <==> |s.poller.channel| < CHANNEL_CAPACITY || !s.reg.service.Stopped?
  {
    ReachableInv(s);
    if |s.poller.channel| < CHANNEL_CAPACITY {
      assert Run(s, []) == Some(s);
    } else if !s.reg.service.Stopped? {
      ServiceDrains(s);
    } else if CanSend(s) {
      var run :| Run(s, run).Some? && Enabled(Run(s, run).value, Send);
      StuckForEver(s, run);
    }
  }

  // ----- Stale work

  /** No goroutine, callback or armed timer carries an older configuration than the latest received. */
  ghost predicate NoStale(s: State) {
    && (forall g :: g in s.reg.goroutines ==> g + 1 == |s.reg.received|)
    && (forall t :: t in s.hb.armed || t in s.hb.callbacks ==> t < |s.hb.timers| && s.hb.timers[t].gen + 1 == |s.reg.received|)
  }

  predicate NoReceive(run: seq<Action>) {
    forall i :: 0 <= i < |run| ==> !run[i].Receive?
  }

  lemma StaleService(s: State, a: Action)
    requires Inv(s) && Enabled(s, a) && NoStale(s) && IsServiceAction(a) && !a.Receive?
    ensures NoStale(Next(s, a)) && Next(s, a).reg.received == s.reg.received
  {
  }

  lemma StaleRegister(s: State, a: Action)
    requires Inv(s) && Enabled(s, a) && NoStale(s) && IsRegisterAction(a)
    ensures NoStale(Next(s, a)) && Next(s, a).reg.received == s.reg.received
  {
    if a.CompleteRegister? {
      StaleComplete(s, a.gen);
    }
  }

  lemma StaleComplete(s: State, g: nat)
    requires Inv(s) && Enabled(s, CompleteRegister(g)) && NoStale(s)
    ensures NoStale(Next(s, CompleteRegister(g)))
  {
    StartTimerInv(s.hb, s.reg.goroutines[g].hb, g, 0);
  }

  lemma StaleHeartbeat(s: State, a: Action)
    requires Inv(s) && Enabled(s, a) && NoStale(s) && IsHeartbeatAction(a)
    ensures NoStale(Next(s, a)) && Next(s, a).reg.received == s.reg.received
  {
    if a.Rearm? {
      StartTimerInv(s.hb, s.hb.callbacks[a.timer].hb, s.hb.timers[a.timer].gen, a.timer);
    }
  }

  lemma StaleStep(s: State, a: Action)
    requires Inv(s) && Enabled(s, a) && NoStale(s) && !a.Receive?
    ensures NoStale(Next(s, a)) && Next(s, a).reg.received == s.reg.received
  {
    if IsServiceAction(a) {
      StaleService(s, a);
    } else if IsRegisterAction(a) {
      StaleRegister(s, a);
    } else if IsHeartbeatAction(a) {
      StaleHeartbeat(s, a);
    }
  }

  /** Once no stale work is left, none appears before the next receive. */
  lemma {:induction false} StaleWorkNeverReturns(s: State, run: seq<Action>)
    requires Inv(s) && NoStale(s) && NoReceive(run) && Run(s, run).Some?
    ensures NoStale(Run(s, run).value) && Run(s, run).value.reg.received == s.reg.received
    decreases |run|
  {
    if run != [] {
      StaleStep(s, run[0]);
      StepKeepsInv(s, run[0]);
      StaleWorkNeverReturns(Next(s, run[0]), run[1..]);
    }
  }

  /** Only deregistrations are added to the calls. */
  predicate OnlyDeregisters(before: seq<NrfCall>, after: seq<NrfCall>) {
    before <= after && forall i :: |before| <= i < |after| ==> after[i].Deregister?
  }

  /** After an empty configuration with no stale work left, nothing is registered or updated before the next receive. */
  lemma {:induction false} DrainedIsSilent(s: State, run: seq<Action>)
    requires Inv(s) && s.reg.received != [] && Latest(s.reg) == [] && NoStale(s) && NoReceive(run) && Run(s, run).Some?
    ensures OnlyDeregisters(s.calls, Run(s, run).value.calls)
    decreases |run|
  {
    if run != [] {
      StaleStep(s, run[0]);
      StepKeepsInv(s, run[0]);
      DrainedStep(s, run[0]);
      DrainedIsSilent(Next(s, run[0]), run[1..]);
    }
  }

  lemma DrainedStep(s: State, a: Action)
    requires Inv(s) && s.reg.received != [] && Latest(s.reg) == [] && NoStale(s) && Enabled(s, a)
    ensures OnlyDeregisters(s.calls, Next(s, a).calls)
  {
    NothingCarriesEmpty(s);
  }

  lemma NothingCarriesEmpty(s: State)
    requires Inv(s) && s.reg.received != [] && Latest(s.reg) == [] && NoStale(s)
    ensures s.reg.goroutines == map[] && s.hb.armed == {} && s.hb.callbacks == map[]
  {
    CarriersAreGenerations(s);
  }

  lemma CarriersAreGenerations(s: State)
    requires Inv(s)
    ensures forall g :: g in s.reg.goroutines ==> IsGeneration(s.reg, g)
    ensures forall t :: (t in s.hb.armed || t in s.hb.callbacks) && t < |s.hb.timers| ==> IsGeneration(s.reg, s.hb.timers[t].gen)
  {
    assert forall g :: g in s.reg.goroutines ==> g in s.reg.spawned;
  }

  // ----- When a deregistration is final

  /** The timer is stopped, no registerNF is alive, and every callback is still before its nil check. */
  ghost predicate Quiet(s: State) {
    && s.hb.keepAlive.None? && s.reg.goroutines == map[]
    && forall t :: t in s.hb.callbacks ==> s.hb.callbacks[t].Fired?
  }

  predicate NoNewConfig(run: seq<Action>) {
    forall i :: 0 <= i < |run| ==> !run[i].Receive? && !run[i].Spawn?
  }

  lemma {:induction false} QuietIsSilent(s: State, run: seq<Action>)
    requires Inv(s) && Quiet(s) && NoNewConfig(run) && Run(s, run).Some?
    ensures OnlyDeregisters(s.calls, Run(s, run).value.calls)
    decreases |run|
  {
    if run != [] {
      QuietStep(s, run[0]);
      StepKeepsInv(s, run[0]);
      QuietIsSilent(Next(s, run[0]), run[1..]);
    }
  }

  lemma QuietStep(s: State, a: Action)
    requires Inv(s) && Quiet(s) && Enabled(s, a) && !a.Receive? && !a.Spawn?
    ensures Quiet(Next(s, a)) && OnlyDeregisters(s.calls, Next(s, a).calls)
  {
  }

  /** Without a new configuration, a registration or heartbeat can still reach the NRF. */
  ghost predicate CanStillCall(s: State) {
    exists run :: NoNewConfig(run) && Run(s, run).Some? && !OnlyDeregisters(s.calls, Run(s, run).value.calls)
  }

  lemma CallsNow(s: State, a: Action)
    requires Enabled(s, a) && (a.RegisterAnswer? || a.UpdateAnswer? || a.ReregisterAnswer?)
    ensures CanStillCall(s)
  {
    assert Run(s, [a]) == Some(Next(s, a)) by {
      assert Run(Next(s, a), [a][1..]) == Some(Next(s, a));
    }
    assert !Next(s, a).calls[|s.calls|].Deregister?;
    assert NoNewConfig([a]);
  }

  lemma CallsLater(s: State, a: Action)
    requires Enabled(s, a) && !a.Receive? && !a.Spawn? && Next(s, a).calls == s.calls && CanStillCall(Next(s, a))
    ensures CanStillCall(s)
  {
    var m := Next(s, a);
    var run :| NoNewConfig(run) && Run(m, run).Some? && !OnlyDeregisters(m.calls, Run(m, run).value.calls);
    var all := [a] + run;
    assert all[1..] == run && Run(s, all) == Run(m, run);
    assert NoNewConfig(all);
  }

  lemma CallbackCalls(s: State, t: nat)
    requires Inv(s) && t in s.hb.callbacks && (s.hb.callbacks[t].Fired? ==> s.hb.keepAlive.Some?)
    ensures CanStillCall(s)
    decreases match s.hb.callbacks[t] case Rearming(_) => 2 case Fired => 1 case _ => 0
  {
    match s.hb.callbacks[t] {
      case Fired =>
        CallsNow(Next(s, NilCheck(t)), UpdateAnswer(t, None));
        CallsLater(s, NilCheck(t));
      case Checked => CallsNow(s, UpdateAnswer(t, None));
      case Reregistering => CallsNow(s, ReregisterAnswer(t, 0));
      case Rearming(_) =>
        StepKeepsInv(s, Rearm(t));
        ArmedCalls(Next(s, Rearm(t)));
        CallsLater(s, Rearm(t));
    }
  }

  lemma ArmedCalls(s: State)
    requires Inv(s) && s.hb.keepAlive.Some? && s.hb.keepAlive.value in s.hb.armed
    ensures CanStillCall(s)
    decreases 1, 0
  {
    var t := s.hb.keepAlive.value;
    var fired := Next(s, Fire(t));
    CallsNow(Next(fired, NilCheck(t)), UpdateAnswer(t, None));
    CallsLater(fired, NilCheck(t));
    CallsLater(s, Fire(t));
  }

  lemma GoroutineCalls(s: State, g: nat)
    requires Inv(s) && g in s.reg.goroutines
    ensures CanStillCall(s)
  {
    if s.reg.mutexHolder.None? {
      var taken := Next(s, TakeMutex(g));
      CallsNow(Next(taken, TakeTimerBranch(g)), RegisterAnswer(g, None));
      CallsLater(taken, TakeTimerBranch(g));
      CallsLater(s, TakeMutex(g));
    } else {
      var h := s.reg.mutexHolder.value;
      match s.reg.goroutines[h] {
        case Selecting =>
          CallsNow(Next(s, TakeTimerBranch(h)), RegisterAnswer(h, None));
          CallsLater(s, TakeTimerBranch(h));
        case Sending => CallsNow(s, RegisterAnswer(h, None));
        case Registered(_) =>
          StepKeepsInv(s, CompleteRegister(h));
          ArmedCalls(Next(s, CompleteRegister(h)));
          CallsLater(s, CompleteRegister(h));
      }
    }
  }

  /** Work can still reach the NRF exactly when the state is not quiet. */
  lemma SilentExactlyWhenQuiet(s: State)
    requires Inv(s)
    ensures CanStillCall(s) <==> !Quiet(s)
  {
    if Quiet(s) {
      if CanStillCall(s) {
        var run :| NoNewConfig(run) && Run(s, run).Some? && !OnlyDeregisters(s.calls, Run(s, run).value.calls);
        QuietIsSilent(s, run);
      }
    } else if s.reg.goroutines != map[] {
      var g :| g in s.reg.goroutines;
      GoroutineCalls(s, g);
    } else if t :| t in s.hb.callbacks && !s.hb.callbacks[t].Fired? {
      CallbackCalls(s, t);
    } else if s.hb.keepAlive.value in s.hb.armed {
      ArmedCalls(s);
    } else {
      CallbackCalls(s, s.hb.keepAlive.value);
    }
  }

  /**
   * Until a new configuration is received, the DeregisterNF of an empty configuration is final exactly when, as it
   * stops the timer, no registerNF is alive and no heartbeat is past its nil check.
   */
  lemma DeregistrationIsFinalExactly(s: State)
    requires Reachable(s) && Enabled(s, StopTimer)
    ensures CanStillCall(Next(s, StopTimer)) <==>
      s.reg.goroutines != map[] || exists t :: t in s.hb.callbacks && !s.hb.callbacks[t].Fired?
  {
    ReachableInv(s);
    StepKeepsInv(s, StopTimer);
    SilentExactlyWhenQuiet(Next(s, StopTimer));
  }

  // ----- When a registration prevails

  /** The set timer, if any, carries generation g or a later one. */
  predicate Prevails(s: State, g: nat) {
    s.hb.keepAlive.Some? && s.hb.keepAlive.value < |s.hb.timers| ==> s.hb.timers[s.hb.keepAlive.value].gen >= g
  }

  /** Without a new configuration, the heartbeat chain can still fall back to an older one. */
  ghost predicate CanFallBack(s: State, g: nat) {
    exists run :: NoNewConfig(run) && Run(s, run).Some? && !Prevails(Run(s, run).value, g)
  }

  lemma FallsBackLater(s: State, a: Action, g: nat)
    requires Enabled(s, a) && !a.Receive? && !a.Spawn? && CanFallBack(Next(s, a), g)
    ensures CanFallBack(s, g)
  {
    var m := Next(s, a);
    var run :| NoNewConfig(run) && Run(m, run).Some? && !Prevails(Run(m, run).value, g);
    var all := [a] + run;
    assert all[1..] == run && Run(s, all) == Run(m, run);
    assert NoNewConfig(all);
  }

  lemma FallenBack(s: State, g: nat)
    requires !Prevails(s, g)
    ensures CanFallBack(s, g)
  {
    assert Run(s, []) == Some(s) && NoNewConfig([]);
  }

  lemma CallbackFallsBack(s: State, t: nat, g: nat)
    requires Inv(s) && t in s.hb.callbacks && s.hb.timers[t].gen < g && s.hb.keepAlive.Some?
    ensures CanFallBack(s, g)
    decreases match s.hb.callbacks[t] case Fired => 3 case Checked => 2 case Reregistering => 1 case Rearming(_) => 0
  {
    var a := match s.hb.callbacks[t]
             case Fired => NilCheck(t)
             case Checked => UpdateAnswer(t, None)
             case Reregistering => ReregisterAnswer(t, 0)
             case Rearming(_) => Rearm(t);
    StepKeepsInv(s, a);
    if s.hb.callbacks[t].Rearming? {
      FallenBack(Next(s, a), g);
    } else {
      CallbackFallsBack(Next(s, a), t, g);
    }
    FallsBackLater(s, a, g);
  }

  lemma GoroutineFallsBack(s: State, stale: nat, g: nat)
    requires Inv(s) && stale in s.reg.goroutines && stale < g && s.reg.mutexHolder.None?
    ensures CanFallBack(s, g)
  {
    var taken := Next(s, TakeMutex(stale));
    SendingFallsBack(Next(taken, TakeTimerBranch(stale)), stale, g);
    FallsBackLater(taken, TakeTimerBranch(stale), g);
    FallsBackLater(s, TakeMutex(stale), g);
  }

  lemma SendingFallsBack(s: State, stale: nat, g: nat)
    requires PhaseOf(s.reg, stale) == Some(Sending) && stale < g
    ensures CanFallBack(s, g)
  {
    var answered := Next(s, RegisterAnswer(stale, Some(60)));
    FallenBack(Next(answered, CompleteRegister(stale)), g);
    FallsBackLater(answered, CompleteRegister(stale), g);
    FallsBackLater(s, RegisterAnswer(stale, Some(60)), g);
  }

  predicate CompletesLatest(s: State, g: nat) {
    Enabled(s, CompleteRegister(g)) && g + 1 == |s.reg.received|
  }

  predicate Undisturbed(s: State, g: nat) {
    s.reg.goroutines.Keys == {g} && s.hb.callbacks == map[]
  }

  lemma DisturbedFallsBack(s: State, g: nat)
    requires Inv(s) && CompletesLatest(s, g) && !Undisturbed(s, g)
    ensures CanFallBack(Next(s, CompleteRegister(g)), g)
  {
    var t := Next(s, CompleteRegister(g));
    StepKeepsInv(s, CompleteRegister(g));
    if c :| c in s.hb.callbacks {
      OlderThanLatest(s, s.hb.timers[c].gen, g);
      CallbackFallsBack(t, c, g);
    } else {
      var stale :| stale in s.reg.goroutines && stale != g;
      OlderThanLatest(s, stale, g);
      GoroutineFallsBack(t, stale, g);
    }
  }

  lemma UndisturbedHasNoStale(s: State, g: nat)
    requires Inv(s) && CompletesLatest(s, g) && Undisturbed(s, g)
    ensures NoStale(Next(s, CompleteRegister(g)))
  {
    StartTimerInv(s.hb, s.reg.goroutines[g].hb, g, 0);
  }

  /**
   * When the registration of the latest configuration completes, its heartbeat chain can be displaced by an older
   * configuration exactly when another registerNF is alive or a heartbeat callback is in flight.
   */
  lemma RegistrationPrevailsExactly(s: State, g: nat)
    requires Reachable(s) && CompletesLatest(s, g)
    ensures CanFallBack(Next(s, CompleteRegister(g)), g) <==> !Undisturbed(s, g)
  {
    ReachableInv(s);
    var t := Next(s, CompleteRegister(g));
    if !Undisturbed(s, g) {
      DisturbedFallsBack(s, g);
    } else if CanFallBack(t, g) {
      UndisturbedHasNoStale(s, g);
      StepKeepsInv(s, CompleteRegister(g));
      var run :| NoNewConfig(run) && Run(t, run).Some? && !Prevails(Run(t, run).value, g);
      StaleWorkNeverReturns(t, run);
      RunKeepsInv(t, run);
    }
  }

  lemma OlderThanLatest(s: State, stale: nat, g: nat)
    requires Inv(s) && g + 1 == |s.reg.received| && stale in s.reg.spawned && stale != g
    ensures stale < g
  {
  }
}
