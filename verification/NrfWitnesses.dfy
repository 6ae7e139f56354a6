/** Runs that show how far the registration protocol falls short of its intent. */
module NrfWitnesses {
  import opened Prelude
  import opened NrfProtocol
  import opened NrfProperties

  lemma ReachableNext(s: State, a: Action) returns (t: State)
    requires Reachable(s) && Enabled(s, a)
    ensures Reachable(t) && t == Next(s, a)
  {
    var run :| Run(INIT, run) == Some(s);
    RunSnoc(INIT, run, a);
    t := Next(s, a);
  }

  /** The poller sends a configuration and the service receives it. */
  lemma Deliver(s: State, config: Config) returns (t: State)
    requires Reachable(s) && s.poller.pending.None? && s.poller.channel == [] && s.poller.current != config
    requires s.reg.service.Listening? && !s.poller.exited
    ensures Reachable(t) && t.hb == s.hb && t.calls == s.calls
    ensures t.reg == Cancel(s.reg).(received := s.reg.received + [config], service := Handling)
    ensures t.poller.pending.None? && t.poller.channel == [] && t.poller.current == config && !t.poller.exited
  {
    t := ReachableNext(s, Poll(config));
    t := ReachableNext(t, Send);
    t := ReachableNext(t, Receive);
  }

  /** registerNF runs without disturbance and succeeds. */
  lemma RegisterUndisturbed(s: State) returns (t: State)
    requires Reachable(s) && s.reg.service.Handling? && s.reg.received != [] && Latest(s.reg) != []
    requires s.reg.mutexHolder.None?
    ensures var g := |s.reg.received| - 1;
      && Reachable(t) && t.poller == s.poller && t.hb == StartTimer(s.hb, 60, g)
      && t.reg == s.reg.(registerCancel := Some(g), spawned := s.reg.spawned + {g}, service := Listening,
                         goroutines := s.reg.goroutines - {g}, completions := s.reg.completions + 1)
      && t.calls == s.calls + [Register(g)]
  {
    var g := |s.reg.received| - 1;
    t := ReachableNext(s, Spawn);
    t := StartSending(t, g);
    t := Succeed(t, g);
  }

  /** registerNF takes the mutex and its timer branch. */
  lemma StartSending(s: State, g: nat) returns (t: State)
    requires Reachable(s) && PhaseOf(s.reg, g) == Some(AwaitingMutex) && s.reg.mutexHolder.None?
    ensures Reachable(t) && t == s.(reg := t.reg)
    ensures t.reg == s.reg.(goroutines := s.reg.goroutines[g := Sending], mutexHolder := Some(g))
  {
    t := ReachableNext(s, TakeMutex(g));
    t := ReachableNext(t, TakeTimerBranch(g));
  }

  /** The NRF accepts the registration and registerNF ends. */
  lemma Succeed(s: State, g: nat) returns (t: State)
    requires Reachable(s) && PhaseOf(s.reg, g) == Some(Sending)
    ensures Reachable(t) && t.poller == s.poller && t.hb == StartTimer(s.hb, 60, g) && t.calls == s.calls + [Register(g)]
    ensures t.reg == s.reg.(goroutines := s.reg.goroutines - {g}, mutexHolder := None, completions := s.reg.completions + 1)
  {
    t := ReachableNext(s, RegisterAnswer(g, Some(60)));
    t := ReachableNext(t, CompleteRegister(g));
  }

  /** The service handles an empty configuration. */
  lemma DeregisterNow(s: State) returns (t: State)
    requires Reachable(s) && Enabled(s, StopTimer)
    ensures Reachable(t) && t.poller == s.poller && t.hb == StopKeepAlive(s.hb) && t.calls == s.calls + [Deregister]
    ensures t.reg == s.reg.(service := Listening)
  {
    t := ReachableNext(s, StopTimer);
    t := ReachableNext(t, SendDeregister);
  }

  /** A heartbeat past its nil check succeeds and arms the next timer. */
  lemma UpdateAndRearm(s: State, timer: nat) returns (t: State)
    requires Reachable(s) && CallbackOf(s.hb, timer) == Some(Checked)
    ensures Reachable(t) && t.poller == s.poller && t.reg == s.reg
    ensures t.hb == StartTimer(s.hb, 60, s.hb.timers[timer].gen).(callbacks := s.hb.callbacks - {timer})
    ensures t.calls == s.calls + [Update(s.hb.timers[timer].gen)]
  {
    t := ReachableNext(s, UpdateAnswer(timer, Some(60)));
    t := ReachableNext(t, Rearm(timer));
  }

  /** The set timer fires and its callback passes the nil check. */
  lemma PassNilCheck(s: State, timer: nat) returns (t: State)
    requires Reachable(s) && timer in s.hb.armed && timer < |s.hb.timers| && s.hb.keepAlive.Some?
    ensures Reachable(t) && t == s.(hb := t.hb)
    ensures t.hb == s.hb.(armed := s.hb.armed - {timer}, callbacks := s.hb.callbacks[timer := Checked])
  {
    t := ReachableNext(s, Fire(timer));
    t := ReachableNext(t, NilCheck(timer));
  }

  /** A first registration whose heartbeat has passed its nil check. */
  lemma HeartbeatInFlight(a: Config) returns (s: State)
    requires a != []
    ensures Reachable(s) && s.poller.pending.None? && s.poller.channel == [] && s.poller.current == a && !s.poller.exited
    ensures s.reg == Registration([a], Listening, Running, Some(0), {}, {0}, map[], None, 1)
    ensures s.hb == Heartbeat([Timer(0, 60)], Some(0), {}, map[0 := Checked]) && s.calls == [Register(0)]
  {
    assert Run(INIT, []) == Some(INIT);
    s := Deliver(INIT, a);
    s := RegisterUndisturbed(s);
    assert s.hb.armed == {0};
    s := PassNilCheck(s, 0);
    assert s.reg.goroutines == map[];
  }

  /** A heartbeat past its nil check outlives the deregistration: it updates the NRF and arms a timer again. */
  lemma HeartbeatOutlivesDeregistration(a: Config) returns (s: State)
    requires a != []
    ensures Reachable(s) && s.reg.received == [a, []] && s.reg.service.Listening?
    ensures s.calls == [Register(0), Deregister, Update(0)] && s.hb.keepAlive == Some(1) && 1 in s.hb.armed
  {
    s := HeartbeatInFlight(a);
    s := Deliver(s, []);
    s := DeregisterNow(s);
    s := UpdateAndRearm(s, 0);
  }

  lemma CancelledBeforeItsMutex(a: Config) returns (s: State)
    requires a != []
    ensures Reachable(s) && s.hb == INIT.hb && s.calls == [Deregister]
    ensures s.reg == Registration([a, []], Listening, Running, Some(0), {0}, {0}, map[0 := AwaitingMutex], None, 0)
  {
    assert Run(INIT, []) == Some(INIT);
    s := Deliver(INIT, a);
    s := ReachableNext(s, Spawn);
    s := Deliver(s, []);
    s := DeregisterNow(s);
    assert s.reg.received == [a, []];
  }

  /** A cancelled registerNF can still take its timer branch and register after the deregistration. */
  lemma CancelledRegistrationStillRegisters(a: Config) returns (s: State)
    requires a != []
    ensures Reachable(s) && s.reg.received == [a, []] && 0 in s.reg.cancelled
    ensures s.calls == [Deregister, Register(0)] && s.hb.keepAlive == Some(0) && 0 in s.hb.armed
  {
    s := CancelledBeforeItsMutex(a);
    s := StartSending(s, 0);
    s := Succeed(s, 0);
  }

  /** After termination the service has stopped with a full channel, and the poller waits to send for ever. */
  lemma PollerCanWaitForEver(a: Config, b: Config) returns (s: State)
    requires a != [] && a != b
    ensures Reachable(s) && s.poller.sent == [a] && s.poller.pending == Some(b) && !CanSend(s)
  {
    assert Run(INIT, []) == Some(INIT);
    s := ReachableNext(INIT, Poll(a));
    s := ReachableNext(s, Send);
    s := ReachableNext(s, Poll(b));
    s := ReachableNext(s, Terminate);
    s := ReachableNext(s, ExitService);
    PendingSendCompletesExactly(s);
  }

  /** Termination deregisters while the service has a configuration in hand, and the registration follows it. */
  lemma RegistrationAfterTermination(a: Config) returns (s: State)
    requires a != []
    ensures Reachable(s) && s.reg.shutdown.Done? && s.calls == [Deregister, Register(0)]
    ensures s.hb.keepAlive == Some(0) && 0 in s.hb.armed
  {
    assert Run(INIT, []) == Some(INIT);
    s := Deliver(INIT, a);
    s := ReachableNext(s, Terminate);
    s := ReachableNext(s, ShutdownStopTimer);
    s := ReachableNext(s, ShutdownDeregister);
    s := RegisterUndisturbed(s);
  }

  /** A late heartbeat replaces the timer of a newer registration, so the chain carries the older configuration. */
  lemma StaleConfigurationTakesOver(a: Config, b: Config) returns (s: State)
    requires a != [] && b != [] && a != b
    ensures Reachable(s) && s.reg.received == [a, b] && Live(s.reg, 1) && s.reg.completions == 2
    ensures s.hb.keepAlive == Some(2) && s.hb.armed == {2} && |s.hb.timers| == 3 && s.hb.timers[2].gen == 0
  {
    s := HeartbeatInFlight(a);
    s := Deliver(s, b);
    s := RegisterUndisturbed(s);
    s := UpdateAndRearm(s, 0);
    assert s.reg.received == [a, b];
  }
}
