/**
 * The procedures of NRF registration, run without interference: each has the effect of its actions in the protocol.
 * The answers of the NRF and the choices of select are parameters.
 */
module NrfRegistration {
  import opened Prelude
  import opened Models
  import opened NrfProtocol

  /** One turn of the loop in registerNF: the context is seen cancelled, or the NRF is asked. */
  datatype Choice = SeesCancelled | Asks(profile: Option<int32>)

  // ----- DeregisterNF

  datatype Caller = RegistrationService | Termination

  function Deregistration(caller: Caller): (run: seq<Action>)
    ensures |run| == 2
  {
    if caller == Termination then [ShutdownStopTimer, ShutdownDeregister] else [StopTimer, SendDeregister]
  }

  lemma DeregistrationEffect(s: State, caller: Caller)
    requires Enabled(s, Deregistration(caller)[0])
    ensures var run := Deregistration(caller);
      && Run(s, run).Some? && Run(s, run).value.hb == StopKeepAlive(s.hb)
      && Run(s, run).value.calls == s.calls + [Deregister]
  {
    var a, b := Deregistration(caller)[0], Deregistration(caller)[1];
    RunCons(Next(s, a), b, []);
    RunCons(s, a, [b]);
    assert [b] + [] == [b] && [a] + [b] == Deregistration(caller);
  }

  // ----- registerNF

  /** The first choice that ends registerNF: a cancelled context or a success. */
  function Ending(choices: seq<Choice>): (end: Option<Choice>)
    ensures end.Some? ==> end.value in choices && end.value != Asks(None)
    ensures end.None? ==> forall i :: 0 <= i < |choices| ==> choices[i] == Asks(None)
  {
    if choices == [] then None else if choices[0] != Asks(None) then Some(choices[0]) else Ending(choices[1..])
  }

  /** How often the NRF is asked before registerNF ends. */
  function Attempts(choices: seq<Choice>): nat {
    if choices == [] || choices[0] == SeesCancelled then 0
    else if choices[0].profile.Some? then 1
    else 1 + Attempts(choices[1..])
  }

  /** turns failures, then the ending choice, if there is one. */
  lemma {:induction false} EndsAfter(choices: seq<Choice>, turns: nat)
    requires turns <= |choices| && forall i :: 0 <= i < turns ==> choices[i] == Asks(None)
    requires turns < |choices| ==> choices[turns] != Asks(None)
    ensures Ending(choices) == if turns < |choices| then Some(choices[turns]) else None
    ensures Attempts(choices) == if turns < |choices| && choices[turns].Asks? then turns + 1 else turns
  {
    if turns > 0 {
      EndsAfter(choices[1..], turns - 1);
    }
  }

  function Registers(g: nat, n: nat): seq<NrfCall> {
    seq(n, _ => Register(g))
  }

  /** A success starts the timer; nothing else does. */
  function AfterChoices(h: Heartbeat, g: nat, choices: seq<Choice>): Heartbeat {
    match Ending(choices)
    case Some(Asks(profile)) => StartTimer(h, profile.value, g)
    case _ => h
  }

  function SelectingReg(r: Registration, g: nat): Registration {
    r.(mutexHolder := Some(g), goroutines := r.goroutines[g := Selecting])
  }

  /** The goroutine ends and frees the mutex with the ending choice, if there is one. */
  function AfterRegister(r: Registration, g: nat, choices: seq<Choice>): Registration {
    var end := Ending(choices);
    if end.None? then r
    else r.(mutexHolder := None, goroutines := r.goroutines - {g},
            completions := r.completions + if end.value.Asks? then 1 else 0)
  }

  lemma RunCons(s: State, a: Action, rest: seq<Action>)
    requires Enabled(s, a)
    ensures Run(s, [a] + rest) == Run(Next(s, a), rest)
  {
    assert ([a] + rest)[1..] == rest;
  }

  /** The actions of registerNF for generation g, and what they do. */
  lemma RegisterEffect(s: State, g: nat, choices: seq<Choice>) returns (run: seq<Action>)
    requires Enabled(s, TakeMutex(g)) && (SeesCancelled in choices ==> g in s.reg.cancelled)
    ensures Run(s, run).Some? && run == [TakeMutex(g)] + SelectRun(g, choices)
    ensures var t := Run(s, run).value;
      && t.reg == AfterRegister(SelectingReg(s.reg, g), g, choices)
      && t.hb == AfterChoices(s.hb, g, choices) && t.calls == s.calls + Registers(g, Attempts(choices))
  {
    run := SelectEffect(Next(s, TakeMutex(g)), g, choices);
    RunCons(s, TakeMutex(g), run);
    run := [TakeMutex(g)] + run;
  }

  /** The actions of a goroutine at its select, with the choices it meets. */
  function SelectRun(g: nat, choices: seq<Choice>): seq<Action> {
    if choices == [] then []
    else if choices[0].SeesCancelled? then [SeeCancelled(g)]
    else [TakeTimerBranch(g)] + ([RegisterAnswer(g, choices[0].profile)] +
           if choices[0].profile.Some? then [CompleteRegister(g)] else SelectRun(g, choices[1..]))
  }

  /** The same for a goroutine at its select. */
  lemma {:induction false} SelectEffect(s: State, g: nat, choices: seq<Choice>) returns (run: seq<Action>)
    requires PhaseOf(s.reg, g) == Some(Selecting) && s.reg.mutexHolder == Some(g)
    requires SeesCancelled in choices ==> g in s.reg.cancelled
    ensures Run(s, run).Some? && run == SelectRun(g, choices)
    ensures var t := Run(s, run).value;
      && t.reg == AfterRegister(s.reg, g, choices)
      && t.hb == AfterChoices(s.hb, g, choices) && t.calls == s.calls + Registers(g, Attempts(choices))
    decreases |choices|
  {
    if choices == [] {
      run := [];
    } else if choices[0].SeesCancelled? {
      RunCons(s, SeeCancelled(g), []);
      run := [SeeCancelled(g)] + [];
    } else {
      var profile := choices[0].profile;
      var answered := AskEffect(s, g, profile);
      if profile.Some? {
        run := [CompleteRegister(g)] + [];
        RunCons(answered, CompleteRegister(g), []);
      } else {
        run := SelectEffect(answered, g, choices[1..]);
      }
      AskRun(s, g, profile, run);
      run := [TakeTimerBranch(g)] + ([RegisterAnswer(g, profile)] + run);
    }
  }

  /** One turn of the loop that asks the NRF. */
  lemma AskEffect(s: State, g: nat, profile: Option<int32>) returns (t: State)
    requires PhaseOf(s.reg, g) == Some(Selecting)
    ensures t == Next(Next(s, TakeTimerBranch(g)), RegisterAnswer(g, profile))
    ensures t.poller == s.poller && t.hb == s.hb && t.calls == s.calls + [Register(g)]
    ensures t.reg == if profile.None? then s.reg
                     else s.reg.(goroutines := s.reg.goroutines[g := Registered(profile.value)])
  {
    t := Next(Next(s, TakeTimerBranch(g)), RegisterAnswer(g, profile));
    assert profile.None? ==> t.reg.goroutines == s.reg.goroutines;
  }

  lemma AskRun(s: State, g: nat, profile: Option<int32>, rest: seq<Action>)
    requires PhaseOf(s.reg, g) == Some(Selecting)
    ensures Run(s, [TakeTimerBranch(g)] + ([RegisterAnswer(g, profile)] + rest))
            == Run(Next(Next(s, TakeTimerBranch(g)), RegisterAnswer(g, profile)), rest)
  {
    RunCons(s, TakeTimerBranch(g), [RegisterAnswer(g, profile)] + rest);
    RunCons(Next(s, TakeTimerBranch(g)), RegisterAnswer(g, profile), rest);
  }

  // ----- heartbeatNF

  /** The heartbeat timer a callback arms next; reregister is that of the profile that came with a success or an error. */
  function AnsweredTimer(update: Option<int32>, reregister: int32): int32 {
    if update.Some? then update.value else reregister
  }

  /** The actions of a callback of timer t, and what they do. */
  lemma HeartbeatEffect(s: State, t: nat, update: Option<int32>, reregister: int32) returns (run: seq<Action>)
    requires Enabled(s, NilCheck(t))
    ensures Run(s, run).Some?
    ensures run == [NilCheck(t)] + if s.hb.keepAlive.None? then [] else AnswerRun(t, update, reregister)
    ensures Run(s, run).value.hb ==
      (if s.hb.keepAlive.None? then s.hb else StartTimer(s.hb, AnsweredTimer(update, reregister), s.hb.timers[t].gen))
      .(callbacks := s.hb.callbacks - {t})
    ensures Run(s, run).value.calls == s.calls +
      if s.hb.keepAlive.None? then []
      else if update.Some? then [Update(s.hb.timers[t].gen)]
      else [Update(s.hb.timers[t].gen), Register(s.hb.timers[t].gen)]
  {
    var now := Next(s, NilCheck(t));
    if s.hb.keepAlive.None? {
      RunCons(s, NilCheck(t), []);
      run := [NilCheck(t)] + [];
    } else {
      run := AnswerEffect(now, t, update, reregister);
      RunCons(s, NilCheck(t), run);
      run := [NilCheck(t)] + run;
    }
  }

  /** The answers a callback past its nil check waits for, and its end. */
  function AnswerRun(t: nat, update: Option<int32>, reregister: int32): seq<Action> {
    [UpdateAnswer(t, update)] + ((if update.None? then [ReregisterAnswer(t, reregister)] else []) + [Rearm(t)])
  }

  /** The same for a callback that is past its nil check. */
  lemma AnswerEffect(s: State, t: nat, update: Option<int32>, reregister: int32) returns (run: seq<Action>)
    requires CallbackOf(s.hb, t) == Some(Checked)
    ensures Run(s, run).Some? && run == AnswerRun(t, update, reregister)
    ensures Run(s, run).value.hb ==
      StartTimer(s.hb, AnsweredTimer(update, reregister), s.hb.timers[t].gen).(callbacks := s.hb.callbacks - {t})
    ensures Run(s, run).value.calls == s.calls +
      if update.Some? then [Update(s.hb.timers[t].gen)] else [Update(s.hb.timers[t].gen), Register(s.hb.timers[t].gen)]
  {
    var now := Next(s, UpdateAnswer(t, update));
    if update.Some? {
      run := RearmEffect(now, t);
      assert run == [] + [Rearm(t)];
    } else {
      var again := Next(now, ReregisterAnswer(t, reregister));
      run := RearmEffect(again, t);
      RunCons(now, ReregisterAnswer(t, reregister), run);
      run := [ReregisterAnswer(t, reregister)] + run;
    }
    RunCons(s, UpdateAnswer(t, update), run);
    run := [UpdateAnswer(t, update)] + run;
  }

  lemma RearmEffect(s: State, t: nat) returns (run: seq<Action>)
    requires Enabled(s, Rearm(t))
    ensures run == [Rearm(t)] && Run(s, run) == Some(Next(s, Rearm(t)))
  {
    run := [Rearm(t)];
    assert run[1..] == [] && Run(Next(s, Rearm(t)), []) == Some(Next(s, Rearm(t)));
  }

  class NrfClient {
    var keepAliveTimer: Option<nat>
    var timers: seq<Timer>
    var armed: set<nat>
    var callbacks: map<nat, HbPhase>
    var calls: seq<NrfCall>

    ghost function Value(): Heartbeat
      reads this
    {
      Heartbeat(timers, keepAliveTimer, armed, callbacks)
    }

    /** The protocol state agrees with this object. */
    ghost predicate Agrees(s: State)
      reads this
    {
      s.hb == Value() && s.calls == calls
    }

    constructor ()
      ensures Value() == INIT.hb && calls == []
    {
      keepAliveTimer, timers, armed, callbacks, calls := None, [], {}, map[], [];
    }

    method StopKeepAliveTimer()
      modifies this
      ensures Value() == StopKeepAlive(old(Value())) && calls == old(calls)
      ensures keepAliveTimer.None? && timers == old(timers) && callbacks == old(callbacks)
      ensures armed == if old(keepAliveTimer).Some? then old(armed) - {old(keepAliveTimer).value} else old(armed)
    {
      if keepAliveTimer.Some? {
        armed := armed - {keepAliveTimer.value};
        keepAliveTimer := None;
      }
    }

    method StartKeepAliveTimer(profileHeartbeatTimer: int32, gen: nat)
      modifies this
      ensures Value() == StartTimer(old(Value()), profileHeartbeatTimer, gen) && calls == old(calls)
      ensures timers == old(timers) + [Timer(gen, if profileHeartbeatTimer > 0 then profileHeartbeatTimer else 60)]
      ensures keepAliveTimer == Some(|old(timers)|) && callbacks == old(callbacks)
      ensures armed == (if old(keepAliveTimer).Some? then old(armed) - {old(keepAliveTimer).value} else old(armed))
                       + {|old(timers)|}
    {
      StopKeepAliveTimer();
      var heartbeatTimer := DEFAULT_HEARTBEAT_TIMER;
      if profileHeartbeatTimer > 0 {
        heartbeatTimer := profileHeartbeatTimer;
      }
      keepAliveTimer := Some(|timers|);
      armed := armed + {|timers|};
      timers := timers + [Timer(gen, heartbeatTimer)];
    }

    /** DeregisterNF, called by the service or at termination, whether or not the NRF answers with an error. */
    method DeregisterNF(ghost caller: Caller, ghost s: State)
      requires Agrees(s) && Enabled(s, Deregistration(caller)[0])
      modifies this
      ensures Run(s, Deregistration(caller)).Some? && Agrees(Run(s, Deregistration(caller)).value)
      ensures keepAliveTimer.None? && timers == old(timers) && callbacks == old(callbacks)
      ensures armed == if old(keepAliveTimer).Some? then old(armed) - {old(keepAliveTimer).value} else old(armed)
      ensures calls == old(calls) + [Deregister]
    {
      StopKeepAliveTimer();
      calls := calls + [Deregister];
      DeregistrationEffect(s, caller);
    }

    /** heartbeatNF as the callback of timer t, given the answers to its update and to a second registration. */
    method HeartbeatNF(t: nat, update: Option<int32>, reregister: int32, ghost s: State)
      returns (ghost run: seq<Action>)
      requires Agrees(s) && Enabled(s, NilCheck(t))
      modifies this
      ensures Run(s, run).Some? && Agrees(Run(s, run).value)
      ensures run == [NilCheck(t)] +
        if old(keepAliveTimer).None? then []
        else if update.Some? then [UpdateAnswer(t, update), Rearm(t)]
        else [UpdateAnswer(t, update), ReregisterAnswer(t, reregister), Rearm(t)]
      ensures callbacks == old(callbacks) - {t}
      ensures old(keepAliveTimer).None? ==> keepAliveTimer.None? && timers == old(timers) && armed == old(armed)
      ensures old(keepAliveTimer).Some? ==>
        && keepAliveTimer == Some(|old(timers)|)
        && armed == (old(armed) - {old(keepAliveTimer).value}) + {|old(timers)|}
        && timers == old(timers) + [Timer(old(timers)[t].gen,
             if update.Some? && update.value > 0 then update.value
             else if update.None? && reregister > 0 then reregister
             else 60)]
      ensures calls == old(calls) +
        if old(keepAliveTimer).None? then []
        else if update.Some? then [Update(old(timers)[t].gen)]
        else [Update(old(timers)[t].gen), Register(old(timers)[t].gen)]
    {
      run := HeartbeatEffect(s, t, update, reregister);
      if keepAliveTimer.None? {
        callbacks := callbacks - {t};
        return;
      }
      var plmnConfig := timers[t].gen;
      calls := calls + [Update(plmnConfig)];
      var heartBeatTimer := 0;
      if update.None? {
        calls := calls + [Register(plmnConfig)];
        heartBeatTimer := reregister;
      } else {
        heartBeatTimer := update.value;
      }
      StartKeepAliveTimer(heartBeatTimer, plmnConfig);
      callbacks := callbacks - {t};
    }

    /** registerNF for generation g; it ends on a cancelled context or a success, and else the choices run out. */
    method RegisterNF(g: nat, choices: seq<Choice>, ghost s: State)
      returns (ended: bool, ghost turns: nat, ghost run: seq<Action>)
      requires Agrees(s) && Enabled(s, TakeMutex(g))
      requires SeesCancelled in choices ==> g in s.reg.cancelled
      modifies this
      ensures Run(s, run).Some? && Agrees(Run(s, run).value) && run == [TakeMutex(g)] + SelectRun(g, choices)
      ensures Run(s, run).value.reg == AfterRegister(SelectingReg(s.reg, g), g, choices)
      // turns attempts failed, and the next choice, if there is one, ended the goroutine
      ensures turns <= |choices| && forall i :: 0 <= i < turns ==> choices[i] == Asks(None)
      ensures (ended <==> turns < |choices|) && (ended ==> choices[turns] != Asks(None))
      ensures ended <==> Run(s, run).value.reg.mutexHolder.None?
      ensures calls == old(calls) + seq(if ended && choices[turns].Asks? then turns + 1 else turns, _ => Register(g))
      ensures callbacks == old(callbacks)
      ensures !ended || choices[turns].SeesCancelled? ==>
        keepAliveTimer == old(keepAliveTimer) && timers == old(timers) && armed == old(armed)
      ensures ended && choices[turns].Asks? ==>
        && keepAliveTimer == Some(|old(timers)|)
        && armed == (if old(keepAliveTimer).Some? then old(armed) - {old(keepAliveTimer).value} else old(armed))
                    + {|old(timers)|}
        && timers == old(timers) + [Timer(g, if choices[turns].profile.value > 0 then choices[turns].profile.value else 60)]
    {
      run := RegisterEffect(s, g, choices);
      ended, turns := AskUntilEnded(g, choices);
      EndsAfter(choices, turns);
    }

    /** The loop of registerNF. */
    method AskUntilEnded(g: nat, choices: seq<Choice>) returns (ended: bool, ghost turns: nat)
      modifies this
      ensures turns <= |choices| && forall i :: 0 <= i < turns ==> choices[i] == Asks(None)
      ensures (ended <==> turns < |choices|) && (ended ==> choices[turns] != Asks(None))
      ensures calls == old(calls) + Registers(g, if ended && choices[turns].Asks? then turns + 1 else turns)
      ensures Value() == if ended && choices[turns].Asks? then StartTimer(old(Value()), choices[turns].profile.value, g)
                         else old(Value())
    {
      ended, turns := false, 0;
      for i := 0 to |choices|
        invariant !ended && Value() == old(Value()) && calls == old(calls) + Registers(g, i)
        invariant turns == i && forall j :: 0 <= j < i ==> choices[j] == Asks(None)
      {
        match choices[i] {
          case SeesCancelled =>
            ended := true;
            return;
          case Asks(profile) =>
            calls := calls + [Register(g)];
            assert Registers(g, i + 1) == Registers(g, i) + [Register(g)];
            if profile.None? {
              turns := i + 1;
              continue;
            }
            StartKeepAliveTimer(profile.value, g);
            ended := true;
            return;
        }
      }
    }
  }
}
