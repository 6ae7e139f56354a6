/** Every action of the registration protocol keeps its invariant, one component at a time. */
module NrfInvariants {
  import opened Prelude
  import opened Models
  import opened NrfProtocol

  lemma AcceptedStep(p: Poller, received: seq<Config>, config: Config)
    requires StreamInv(p, received) && p.pending.None? && !p.exited && config != p.current
    ensures StreamInv(p.(current := config, pending := Some(config)), received)
  {
    assert Accepted(p.(current := config, pending := Some(config))) == Accepted(p) + [config];
  }

  lemma SendStep(p: Poller, received: seq<Config>)
    requires StreamInv(p, received) && p.pending.Some? && |p.channel| < CHANNEL_CAPACITY
    ensures StreamInv(p.(channel := p.channel + [p.pending.value], sent := p.sent + [p.pending.value], pending := None), received)
  {
    var q := p.(channel := p.channel + [p.pending.value], sent := p.sent + [p.pending.value], pending := None);
    assert Accepted(q) == Accepted(p);
    assert received + q.channel == (received + p.channel) + [p.pending.value];
  }

  lemma PollerStep(s: State, a: Action)
    requires Inv(s) && Enabled(s, a) && (a.Poll? || a.Send? || a.ExitPoller?)
    ensures Inv(Next(s, a))
  {
    if a.Send? {
      SendStep(s.poller, s.reg.received);
    } else if a.ExitPoller? {
      assert Accepted(Next(s, a).poller) == Accepted(s.poller);
    } else if a.config != s.poller.current {
      AcceptedStep(s.poller, s.reg.received, a.config);
    }
  }

  // ----- The invariant, one component at a time

  lemma StopKeepAliveInv(h: Heartbeat)
    requires TimerInv(h)
    ensures TimerInv(StopKeepAlive(h)) && StopKeepAlive(h).armed == {}
  {
  }

  /** Starting a timer stops the one before, also when callback t ends with it. */
  lemma StartTimerInv(h: Heartbeat, profile: int32, gen: nat, t: nat)
    requires TimerInv(h)
    ensures var h' := StartTimer(h, profile, gen);
      && TimerInv(h') && TimerInv(h'.(callbacks := h.callbacks - {t})) && h'.armed == {|h.timers|}
  {
    StopKeepAliveInv(h);
  }

  lemma ArmedCount(h: Heartbeat)
    requires TimerInv(h)
    ensures |h.armed| == if h.keepAlive.Some? && h.keepAlive.value in h.armed then 1 else 0
  {
    assert h.armed == if h.keepAlive.Some? && h.keepAlive.value in h.armed then {h.keepAlive.value} else {};
  }

  lemma FireInv(h: Heartbeat, t: nat)
    requires TimerInv(h) && t in h.armed
    ensures var h' := h.(armed := h.armed - {t}, callbacks := h.callbacks[t := Fired]);
      TimerInv(h') && |h'.armed| + |h'.callbacks| == |h.armed| + |h.callbacks|
  {
  }

  lemma CallbackInv(h: Heartbeat, t: nat, phase: HbPhase)
    requires TimerInv(h) && t in h.callbacks
    ensures TimerInv(h.(callbacks := h.callbacks[t := phase])) && |h.callbacks[t := phase]| == |h.callbacks|
    ensures |h.callbacks - {t}| == |h.callbacks| - 1
    ensures h.keepAlive.None? ==> TimerInv(h.(callbacks := h.callbacks - {t}))
  {
    assert (h.callbacks - {t}).Keys == h.callbacks.Keys - {t};
    assert h.callbacks[t := phase].Keys == h.callbacks.Keys;
    assert |h.callbacks| == |h.callbacks.Keys| && |h.callbacks[t := phase]| == |h.callbacks[t := phase].Keys|;
  }

  lemma HeartbeatStep(s: State, a: Action)
    requires Inv(s) && Enabled(s, a) && IsHeartbeatAction(a)
    ensures Inv(Next(s, a))
  {
    match a {
      case Fire(t) => FireInv(s.hb, t);
      case NilCheck(t) => CallbackInv(s.hb, t, Checked);
      case UpdateAnswer(t, profile) =>
        CallbackInv(s.hb, t, if profile.None? then Reregistering else Rearming(profile.value));
      case ReregisterAnswer(t, hb) => CallbackInv(s.hb, t, Rearming(hb));
      case Rearm(t) => RearmStep(s, t);
    }
  }

  lemma RearmStep(s: State, t: nat)
    requires Inv(s) && Enabled(s, Rearm(t))
    ensures Inv(Next(s, Rearm(t)))
  {
    StartTimerInv(s.hb, s.hb.callbacks[t].hb, s.hb.timers[t].gen, t);
    CallbackInv(s.hb, t, Fired);
  }

  lemma RegisterStep(s: State, a: Action)
    requires Inv(s) && Enabled(s, a) && IsRegisterAction(a)
    ensures Inv(Next(s, a))
  {
    if a.CompleteRegister? {
      StartTimerInv(s.hb, s.reg.goroutines[a.gen].hb, a.gen, 0);
    }
    RegisterContext(s, a);
  }

  lemma RegisterContext(s: State, a: Action)
    requires Inv(s) && Enabled(s, a) && IsRegisterAction(a)
    ensures ContextInv(Next(s, a).reg) && MutexInv(Next(s, a).reg)
  {
  }

  lemma ReceiveStep(s: State)
    requires Inv(s) && Enabled(s, Receive)
    ensures Inv(Next(s, Receive))
  {
    assert Next(s, Receive).reg.received + Next(s, Receive).poller.channel == s.reg.received + s.poller.channel;
  }

  lemma SpawnStep(s: State)
    requires Inv(s) && Enabled(s, Spawn)
    ensures Inv(Next(s, Spawn))
  {
    SpawnContext(s);
  }

  lemma SpawnContext(s: State)
    requires Inv(s) && Enabled(s, Spawn)
    ensures ContextInv(Next(s, Spawn).reg) && MutexInv(Next(s, Spawn).reg)
  {
  }

  lemma StopStep(s: State, a: Action)
    requires Inv(s) && Enabled(s, a) && (a.StopTimer? || a.ShutdownStopTimer?)
    ensures Inv(Next(s, a))
  {
    StopKeepAliveInv(s.hb);
  }

  lemma SilentServiceStep(s: State, a: Action)
    requires Inv(s) && Enabled(s, a)
    requires a.SendDeregister? || a.Terminate? || a.ExitService? || a.ShutdownDeregister?
    ensures Inv(Next(s, a))
  {
  }

  lemma ServiceStep(s: State, a: Action)
    requires Inv(s) && Enabled(s, a) && IsServiceAction(a)
    ensures Inv(Next(s, a))
  {
    match a {
      case Receive => ReceiveStep(s);
      case Spawn => SpawnStep(s);
      case StopTimer => StopStep(s, a);
      case ShutdownStopTimer => StopStep(s, a);
      case _ => SilentServiceStep(s, a);
    }
  }
}
