/**
 * Termination: cancelServices, DeregisterNF, then a wait for both loops. What can still reach the NRF after a
 * deregistration, and whether the wait can end.
 */
module NrfTermination {
  import opened Prelude
  import opened Models
  import opened NrfProtocol
  import opened NrfProperties

  /** Some run leads from s to t. */
  ghost predicate Leads(s: State, t: State) {
    exists run :: Run(s, run) == Some(t)
  }

  lemma {:induction false} RunConcat(s: State, run: seq<Action>, more: seq<Action>)
    requires Run(s, run).Some?
    ensures Run(s, run + more) == Run(Run(s, run).value, more)
    decreases |run|
  {
    if run == [] {
      assert run + more == more;
    } else {
      assert (run + more)[1..] == run[1..] + more;
      RunConcat(Next(s, run[0]), run[1..], more);
    }
  }

  lemma LeadsSelf(s: State)
    ensures Leads(s, s)
  {
    assert Run(s, []) == Some(s);
  }

  lemma LeadsNext(s: State, t: State, a: Action)
    requires Leads(s, t) && Enabled(t, a)
    ensures Leads(s, Next(t, a))
  {
    var run :| Run(s, run) == Some(t);
    RunSnoc(s, run, a);
  }

  lemma LeadsOn(s: State, t: State, u: State)
    requires Leads(s, t) && Leads(t, u)
    ensures Leads(s, u)
  {
    var run :| Run(s, run) == Some(t);
    var more :| Run(t, more) == Some(u);
    RunConcat(s, run, more);
  }

  // ----- Calls to the NRF

  predicate CallsAfter(n: nat, calls: seq<NrfCall>) {
    exists i :: n <= i < |calls| && !calls[i].Deregister?
  }

  /** A registration or heartbeat can still reach the NRF, whatever happens meanwhile. */
  ghost predicate CanEverCall(s: State) {
    exists t :: Leads(s, t) && CallsAfter(|s.calls|, t.calls)
  }

  lemma CallsGrow(s: State, a: Action)
    requires Enabled(s, a)
    ensures s.calls <= Next(s, a).calls
  {
  }

  lemma {:induction false} RunGrows(s: State, run: seq<Action>)
    requires Run(s, run).Some?
    ensures s.calls <= Run(s, run).value.calls
    decreases |run|
  {
    if run != [] {
      CallsGrow(s, run[0]);
      RunGrows(Next(s, run[0]), run[1..]);
    }
  }

  lemma EverLater(s: State, t: State)
    requires Leads(s, t) && CanEverCall(t)
    ensures CanEverCall(s)
  {
    var run :| Run(s, run) == Some(t);
    RunGrows(s, run);
    var u :| Leads(t, u) && CallsAfter(|t.calls|, u.calls);
    LeadsOn(s, t, u);
  }

  lemma StillIsEver(s: State)
    requires CanStillCall(s)
    ensures CanEverCall(s)
  {
    var run :| NoNewConfig(run) && Run(s, run).Some? && !OnlyDeregisters(s.calls, Run(s, run).value.calls);
    RunGrows(s, run);
    assert Leads(s, Run(s, run).value);
  }

  // ----- The loops

  /** The service gets back to its select, and starts a registration if a configuration in hand asks for one. */
  lemma ToListening(s: State) returns (t: State)
    requires Inv(s) && !s.reg.service.Stopped?
    ensures Leads(s, t) && Inv(t) && t.reg.service.Listening?
    ensures t.poller == s.poller && t.reg.shutdown == s.reg.shutdown
    ensures s.reg.service.Handling? && Latest(s.reg) != [] ==> t.reg.goroutines != map[]
  {
    LeadsSelf(s);
    match s.reg.service {
      case Listening => t := s;
      case Deregistering =>
        t := Advance(s, s, SendDeregister);
      case Handling =>
        if Latest(s.reg) != [] {
          t := Advance(s, s, Spawn);
          assert |s.reg.received| - 1 in t.reg.goroutines;
        } else {
          t := Advance(s, s, StopTimer);
          t := Advance(s, t, SendDeregister);
        }
    }
  }

  lemma Advance(s: State, t: State, a: Action) returns (u: State)
    requires Leads(s, t) && Inv(t) && Enabled(t, a)
    ensures u == Next(t, a) && Leads(s, u) && Inv(u)
  {
    u := Next(t, a);
    LeadsNext(s, t, a);
    StepKeepsInv(t, a);
  }

  lemma ReceiveOne(s: State) returns (t: State)
    requires Inv(s) && s.reg.service.Listening? && s.poller.channel != []
    ensures Leads(s, t) && Inv(t) && t.reg.service.Listening?
    ensures t.poller == s.poller.(channel := s.poller.channel[1..]) && t.reg.shutdown == s.reg.shutdown
    ensures s.poller.channel[0] != [] ==> t.reg.goroutines != map[]
  {
    LeadsSelf(s);
    var received := Advance(s, s, Receive);
    assert Latest(received.reg) == s.poller.channel[0];
    t := ToListening(received);
    LeadsOn(s, received, t);
  }

  // ----- Where new work can come from

  /** The service can still start a registration: it runs, and the poller runs or a non-empty configuration is on its way. */
  predicate CanSpawn(s: State) {
    && !s.reg.service.Stopped?
    && (!s.poller.exited || (exists i :: 0 <= i < |s.poller.channel| && s.poller.channel[i] != [])
        || (s.reg.service.Handling? && s.reg.received != [] && Latest(s.reg) != []))
  }

  lemma GoroutineEverCalls(s: State, t: State)
    requires Leads(s, t) && Inv(t) && t.reg.goroutines != map[]
    ensures CanEverCall(s)
  {
    var g :| g in t.reg.goroutines;
    GoroutineCalls(t, g);
    StillIsEver(t);
    EverLater(s, t);
  }

  /** With an idle service and an empty channel, the poller can send a new configuration that is not empty. */
  lemma PollSpawns(s: State)
    requires Inv(s) && s.reg.service.Listening? && s.poller.channel == [] && s.poller.pending.None? && !s.poller.exited
    ensures CanEverCall(s)
  {
    var config := [PlmnId("", "")] + s.poller.current;
    LeadsSelf(s);
    var t := Advance(s, s, Poll(config));
    t := Advance(s, t, Send);
    var u := ReceiveOne(t);
    LeadsOn(s, t, u);
    GoroutineEverCalls(s, u);
  }

  /** The same while an earlier configuration waits to be sent. */
  lemma PendingSpawns(s: State)
    requires Inv(s) && s.reg.service.Listening? && s.poller.channel == [] && !s.poller.exited
    ensures CanEverCall(s)
  {
    if s.poller.pending.None? {
      PollSpawns(s);
    } else {
      LeadsSelf(s);
      var t := Advance(s, s, Send);
      var u := ReceiveOne(t);
      LeadsOn(s, t, u);
      if u.reg.goroutines != map[] {
        GoroutineEverCalls(s, u);
      } else {
        PollSpawns(u);
        EverLater(s, u);
      }
    }
  }

  lemma SpawnCalls(s: State)
    requires Inv(s) && CanSpawn(s)
    ensures CanEverCall(s)
  {
    var t := ToListening(s);
    if t.reg.goroutines != map[] {
      GoroutineEverCalls(s, t);
    } else if t.poller.channel == [] {
      PendingSpawns(t);
      EverLater(s, t);
    } else {
      var u := ReceiveOne(t);
      LeadsOn(s, t, u);
      if u.reg.goroutines != map[] {
        GoroutineEverCalls(s, u);
      } else {
        PendingSpawns(u);
        EverLater(s, u);
      }
    }
  }

  /** No work is left, and none can come. */
  ghost predicate Finished(s: State) {
    Quiet(s) && !CanSpawn(s)
  }

  lemma FinishedStep(s: State, a: Action)
    requires Inv(s) && Finished(s) && Enabled(s, a)
    ensures Finished(Next(s, a)) && OnlyDeregisters(s.calls, Next(s, a).calls)
  {
    if a.Receive? {
      assert s.poller.channel[0] == [];
    } else {
      QuietStep(s, a);
    }
  }

  lemma {:induction false} FinishedIsSilent(s: State, run: seq<Action>)
    requires Inv(s) && Finished(s) && Run(s, run).Some?
    ensures OnlyDeregisters(s.calls, Run(s, run).value.calls)
    decreases |run|
  {
    if run != [] {
      FinishedStep(s, run[0]);
      StepKeepsInv(s, run[0]);
      FinishedIsSilent(Next(s, run[0]), run[1..]);
    }
  }

  /** A registration or heartbeat can ever reach the NRF again exactly when work is left or can come. */
  lemma SilentForEverExactly(s: State)
    requires Inv(s)
    ensures CanEverCall(s) <==> !Quiet(s) || CanSpawn(s)
  {
    if !Quiet(s) {
      SilentExactlyWhenQuiet(s);
      StillIsEver(s);
    } else if CanSpawn(s) {
      SpawnCalls(s);
    } else if t :| Leads(s, t) && CallsAfter(|s.calls|, t.calls) {
      var run :| Run(s, run) == Some(t);
      FinishedIsSilent(s, run);
    }
  }

  /**
   * The DeregisterNF of a termination is final exactly when, as it stops the timer, no registerNF is alive, no
   * heartbeat is past its nil check, and the service has stopped, or will find nothing but empty configurations.
   */
  lemma TerminationIsFinalExactly(s: State)
    requires Reachable(s) && Enabled(s, ShutdownStopTimer)
    ensures CanEverCall(Next(s, ShutdownStopTimer)) <==>
      || s.reg.goroutines != map[]
      || (exists t :: t in s.hb.callbacks && !s.hb.callbacks[t].Fired?)
      || CanSpawn(s)
  {
    ReachableInv(s);
    StepKeepsInv(s, ShutdownStopTimer);
    SilentForEverExactly(Next(s, ShutdownStopTimer));
  }

  // ----- The wait for both loops

  predicate Ended(s: State) {
    s.poller.exited && s.reg.service.Stopped?
  }

  ghost predicate CanEnd(s: State) {
    exists t :: Leads(s, t) && Ended(t)
  }

  lemma SendOut(s: State) returns (t: State)
    requires Inv(s) && !SenderIsStuck(s)
    ensures Leads(s, t) && Inv(t) && t.poller.pending.None? && t.reg.shutdown == s.reg.shutdown
  {
    LeadsSelf(s);
    t := s;
    if s.poller.pending.Some? {
      if |s.poller.channel| >= CHANNEL_CAPACITY {
        var u := ToListening(s);
        t := ReceiveOne(u);
        LeadsOn(s, u, t);
      }
      t := Advance(s, t, Send);
    }
  }

  lemma LeaveLoops(s: State)
    requires Inv(s) && s.poller.pending.None? && !s.reg.shutdown.Running?
    ensures CanEnd(s)
  {
    LeadsSelf(s);
    var t := s;
    if !t.poller.exited {
      t := Advance(s, t, ExitPoller);
    }
    if !t.reg.service.Stopped? {
      var u := ToListening(t);
      LeadsOn(s, t, u);
      t := Advance(s, u, ExitService);
    }
    assert Leads(s, t) && Ended(t);
  }

  /** Once services are cancelled, both loops can return exactly when the poller is not stuck in its send. */
  lemma TerminationEndsExactly(s: State)
    requires Reachable(s) && !s.reg.shutdown.Running?
    ensures CanEnd(s) <==> !SenderIsStuck(s)
  {
    ReachableInv(s);
    if !SenderIsStuck(s) {
      var t := SendOut(s);
      LeaveLoops(t);
      var u :| Leads(t, u) && Ended(u);
      LeadsOn(s, t, u);
    } else if t :| Leads(s, t) && Ended(t) {
      var run :| Run(s, run) == Some(t);
      StuckForEver(s, run);
      RunKeepsInv(s, run);
    }
  }
}
