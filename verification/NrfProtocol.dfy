/**
 * Registration with the NRF and its heartbeat (section 5.2.2.3.2 of 3GPP TS 29.510), fed by the configuration poller:
 * two service loops, a channel of capacity one, register goroutines, timers and their callbacks.
 *
 * A configuration is a list of PLMN identifiers; the g-th one received is generation g. Each action is one step that
 * no other goroutine can interrupt; the answers of the NRF and the choices of select are part of the action.
 */
module NrfProtocol {
  import opened Prelude
  import opened Models

  type Config = seq<PlmnId>

  const DEFAULT_HEARTBEAT_TIMER: int32 := 60
  const CHANNEL_CAPACITY := 1

  /** A registerNF goroutine. */
  datatype RegPhase =
    | AwaitingMutex         // before registerCtxMutex.Lock
    | Selecting             // at the select
    | Sending               // in the timer branch, before SendRegisterNFInstance
    | Registered(hb: int32) // after success, before startKeepAliveTimer

  /** A heartbeatNF callback. */
  datatype HbPhase =
    | Fired                 // before the nil check
    | Checked               // past it, before SendUpdateNFInstance
    | Reregistering         // the update failed, before SendRegisterNFInstance
    | Rearming(hb: int32)   // before startKeepAliveTimer

  datatype Timer = Timer(gen: nat, seconds: int32)

  /** The loop of StartNfRegistrationService. */
  datatype Service =
    | Listening
    | Handling              // received and cancelled, before DeregisterNF or the new goroutine
    | Deregistering         // timer stopped, before SendDeregisterNFInstance
    | Stopped

  /** Termination: cancelServices, then DeregisterNF. */
  datatype Shutdown = Running | Cancelled | TimerStopped | Done

  datatype NrfCall = Register(gen: nat) | Update(gen: nat) | Deregister

  datatype Poller = Poller(
    current: Config,                // currentPlmnConfig
    pending: Option<Config>,        // being sent on the channel
    channel: seq<Config>,
    sent: seq<Config>,
    exited: bool)                   // the polling loop has returned

  datatype Registration = Registration(
    received: seq<Config>,
    service: Service,
    shutdown: Shutdown,
    registerCancel: Option<nat>,    // the generation whose context the service can cancel
    cancelled: set<nat>,            // generations whose context is cancelled
    spawned: set<nat>,              // generations for which registerNF was started
    goroutines: map<nat, RegPhase>, // live registerNF goroutines, by generation
    mutexHolder: Option<nat>,       // registerCtxMutex
    completions: nat)               // successful registerNF runs

  datatype Heartbeat = Heartbeat(
    timers: seq<Timer>,             // every timer ever started
    keepAlive: Option<nat>,         // keepAliveTimer
    armed: set<nat>,
    callbacks: map<nat, HbPhase>)   // heartbeatNF callbacks in flight, by timer

  /** calls is what reached the NRF. */
  datatype State = State(poller: Poller, reg: Registration, hb: Heartbeat, calls: seq<NrfCall>)

  const INIT := State(Poller([], None, [], [], false),
                      Registration([], Listening, Running, None, {}, {}, map[], None, 0),
                      Heartbeat([], None, {}, map[]), [])

  datatype Action =
    | Poll(config: Config)          // a poll yields these PLMNs
    | Send                          // the poller's channel send completes
    | ExitPoller                    // the polling loop sees the termination
    | Receive                       // the service receives and cancels the current registration
    | Spawn                         // non-empty: a new context and goroutine
    | StopTimer                     // empty: DeregisterNF stops the timer
    | SendDeregister
    | Terminate
    | ExitService
    | ShutdownStopTimer
    | ShutdownDeregister
    | TakeMutex(gen: nat)
    | SeeCancelled(gen: nat)
    | TakeTimerBranch(gen: nat)
    | RegisterAnswer(gen: nat, profile: Option<int32>)   // the profile's heartbeat timer, or an error
    | CompleteRegister(gen: nat)
    | Fire(timer: nat)
    | NilCheck(timer: nat)
    | UpdateAnswer(timer: nat, profile: Option<int32>)   // None: a problem or an error
    | ReregisterAnswer(timer: nat, hb: int32)            // the timer of the profile that comes with success or error
    | Rearm(timer: nat)

  /** stopKeepAliveTimer. */
  function StopKeepAlive(h: Heartbeat): Heartbeat {
    if h.keepAlive.None? then h else h.(keepAlive := None, armed := h.armed - {h.keepAlive.value})
  }

  /** startKeepAliveTimer. */
  function StartTimer(h: Heartbeat, profile: int32, gen: nat): Heartbeat {
    var id, stopped := |h.timers|, StopKeepAlive(h);
    stopped.(timers := h.timers + [Timer(gen, if profile > 0 then profile else DEFAULT_HEARTBEAT_TIMER)],
             keepAlive := Some(id), armed := stopped.armed + {id})
  }

  function Cancel(r: Registration): Registration {
    if r.registerCancel.None? then r else r.(cancelled := r.cancelled + {r.registerCancel.value})
  }

  function Latest(r: Registration): Config
    requires r.received != []
  {
    r.received[|r.received| - 1]
  }

  function PhaseOf(r: Registration, g: nat): Option<RegPhase> {
    if g in r.goroutines then Some(r.goroutines[g]) else None
  }

  function CallbackOf(h: Heartbeat, t: nat): Option<HbPhase> {
    if t in h.callbacks && t < |h.timers| then Some(h.callbacks[t]) else None
  }

  predicate Enabled(s: State, a: Action) {
    var p, r, h := s.poller, s.reg, s.hb;
    match a
    case Poll(_) => p.pending.None? && !p.exited
    case Send => p.pending.Some? && |p.channel| < CHANNEL_CAPACITY
    case ExitPoller => p.pending.None? && !p.exited && !r.shutdown.Running?
    case Receive => r.service.Listening? && p.channel != []
    case Spawn => r.service.Handling? && r.received != [] && Latest(r) != []
    case StopTimer => r.service.Handling? && r.received != [] && Latest(r) == []
    case SendDeregister => r.service.Deregistering?
    case Terminate => r.shutdown.Running?
    case ExitService => r.service.Listening? && !r.shutdown.Running?
    case ShutdownStopTimer => r.shutdown.Cancelled?
    case ShutdownDeregister => r.shutdown.TimerStopped?
    case TakeMutex(g) => PhaseOf(r, g) == Some(AwaitingMutex) && r.mutexHolder.None?
    case SeeCancelled(g) => PhaseOf(r, g) == Some(Selecting) && g in r.cancelled
    case TakeTimerBranch(g) => PhaseOf(r, g) == Some(Selecting)
    case RegisterAnswer(g, _) => PhaseOf(r, g) == Some(Sending)
    case CompleteRegister(g) => PhaseOf(r, g).Some? && r.goroutines[g].Registered?
    case Fire(t) => t in h.armed
    case NilCheck(t) => CallbackOf(h, t) == Some(Fired)
    case UpdateAnswer(t, _) => CallbackOf(h, t) == Some(Checked)
    case ReregisterAnswer(t, _) => CallbackOf(h, t) == Some(Reregistering)
    case Rearm(t) => CallbackOf(h, t).Some? && h.callbacks[t].Rearming?
  }

  function NextPoller(s: State, a: Action): State
    requires Enabled(s, a)
  {
    var p := s.poller;
    match a
    case Poll(config) => if config == p.current then s else s.(poller := p.(current := config, pending := Some(config)))
    case Send =>
      s.(poller := p.(channel := p.channel + [p.pending.value], sent := p.sent + [p.pending.value], pending := None))
    case ExitPoller => s.(poller := p.(exited := true))
    case _ => s
  }

  function NextService(s: State, a: Action): State
    requires Enabled(s, a)
  {
    var p, r := s.poller, s.reg;
    match a
    case Receive =>
      s.(poller := p.(channel := p.channel[1..]),
         reg := Cancel(r).(received := r.received + [p.channel[0]], service := Handling))
    case Spawn =>
      var g := |r.received| - 1;
      s.(reg := r.(registerCancel := Some(g), spawned := r.spawned + {g}, goroutines := r.goroutines[g := AwaitingMutex],
                   service := Listening))
    case StopTimer => s.(reg := r.(service := Deregistering), hb := StopKeepAlive(s.hb))
    case SendDeregister => s.(reg := r.(service := Listening), calls := s.calls + [Deregister])
    case Terminate => s.(reg := r.(shutdown := Cancelled))
    case ExitService => s.(reg := Cancel(r).(service := Stopped))
    case ShutdownStopTimer => s.(reg := r.(shutdown := TimerStopped), hb := StopKeepAlive(s.hb))
    case ShutdownDeregister => s.(reg := r.(shutdown := Done), calls := s.calls + [Deregister])
    case _ => s
  }

  /** The mutex is released as a goroutine ends. */
  function NextRegister(s: State, a: Action): State
    requires Enabled(s, a)
  {
    var r := s.reg;
    match a
    case TakeMutex(g) => s.(reg := r.(mutexHolder := Some(g), goroutines := r.goroutines[g := Selecting]))
    case SeeCancelled(g) => s.(reg := r.(mutexHolder := None, goroutines := r.goroutines - {g}))
    case TakeTimerBranch(g) => s.(reg := r.(goroutines := r.goroutines[g := Sending]))
    case RegisterAnswer(g, profile) =>
      s.(reg := r.(goroutines := r.goroutines[g := if profile.None? then Selecting else Registered(profile.value)]),
         calls := s.calls + [Register(g)])
    case CompleteRegister(g) =>
      s.(reg := r.(mutexHolder := None, goroutines := r.goroutines - {g}, completions := r.completions + 1),
         hb := StartTimer(s.hb, r.goroutines[g].hb, g))
    case _ => s
  }

  function NextHeartbeat(s: State, a: Action): State
    requires Enabled(s, a)
  {
    var h := s.hb;
    match a
    case Fire(t) => s.(hb := h.(armed := h.armed - {t}, callbacks := h.callbacks[t := Fired]))
    case NilCheck(t) =>
      s.(hb := h.(callbacks := if h.keepAlive.None? then h.callbacks - {t} else h.callbacks[t := Checked]))
    case UpdateAnswer(t, profile) =>
      s.(hb := h.(callbacks := h.callbacks[t := if profile.None? then Reregistering else Rearming(profile.value)]),
         calls := s.calls + [Update(h.timers[t].gen)])
    case ReregisterAnswer(t, hb) =>
      s.(hb := h.(callbacks := h.callbacks[t := Rearming(hb)]),
         calls := s.calls + [Register(h.timers[t].gen)])
    case Rearm(t) =>
      s.(hb := StartTimer(h, h.callbacks[t].hb, h.timers[t].gen).(callbacks := h.callbacks - {t}))
    case _ => s
  }

  function Next(s: State, a: Action): State
    requires Enabled(s, a)
  {
    match a
    case Poll(_) => NextPoller(s, a)
    case Send => NextPoller(s, a)
    case ExitPoller => NextPoller(s, a)
    case TakeMutex(_) => NextRegister(s, a)
    case SeeCancelled(_) => NextRegister(s, a)
    case TakeTimerBranch(_) => NextRegister(s, a)
    case RegisterAnswer(_, _) => NextRegister(s, a)
    case CompleteRegister(_) => NextRegister(s, a)
    case Fire(_) => NextHeartbeat(s, a)
    case NilCheck(_) => NextHeartbeat(s, a)
    case UpdateAnswer(_, _) => NextHeartbeat(s, a)
    case ReregisterAnswer(_, _) => NextHeartbeat(s, a)
    case Rearm(_) => NextHeartbeat(s, a)
    case _ => NextService(s, a)
  }

  /** The state after a run, or None if some action of it was not enabled. */
  function Run(s: State, run: seq<Action>): Option<State>
    decreases |run|
  {
    if run == [] then Some(s)
    else if !Enabled(s, run[0]) then None
    else Run(Next(s, run[0]), run[1..])
  }

  lemma {:induction false} RunSnoc(s: State, run: seq<Action>, a: Action)
    requires Run(s, run).Some? && Enabled(Run(s, run).value, a)
    ensures Run(s, run + [a]) == Some(Next(Run(s, run).value, a))
    decreases |run|
  {
    if run == [] {
      assert [] + [a] == [a] && [a][1..] == [];
    } else {
      RunSnoc(Next(s, run[0]), run[1..], a);
      assert (run + [a])[1..] == run[1..] + [a];
    }
  }

  // ----- The stream from the poller to the service

  predicate NoRepeat(cs: seq<Config>) {
    forall i :: 0 <= i < |cs| - 1 ==> cs[i] != cs[i + 1]
  }

  /** Every configuration the poller has accepted, with the empty one it starts from. */
  function Accepted(p: Poller): seq<Config> {
    [[]] + p.sent + Optional(p.pending)
  }

  predicate StreamInv(p: Poller, received: seq<Config>) {
    && received + p.channel == p.sent
    && |p.channel| <= CHANNEL_CAPACITY
    && NoRepeat(Accepted(p))
    && Accepted(p)[|Accepted(p)| - 1] == p.current
    && (p.exited ==> p.pending.None?)
  }

  // ----- Contexts, goroutines and the mutex

  predicate IsGeneration(r: Registration, g: nat) {
    g < |r.received| && r.received[g] != []
  }

  predicate MutexInv(r: Registration) {
    && (r.mutexHolder.Some? ==> r.mutexHolder.value in r.goroutines && !r.goroutines[r.mutexHolder.value].AwaitingMutex?)
    && (forall g :: g in r.goroutines && !r.goroutines[g].AwaitingMutex? ==> r.mutexHolder == Some(g))
  }

  ghost predicate ContextInv(r: Registration) {
    && (r.service.Handling? ==> r.received != [])
    // registerNF was started for exactly the non-empty configurations, but for the one being handled
    && (forall g :: g in r.spawned <==> IsGeneration(r, g) && !(r.service.Handling? && g == |r.received| - 1))
    && r.goroutines.Keys <= r.spawned
    // every started registration is cancelled, except that the latest may not be
    && r.cancelled <= r.spawned
    && (forall g :: g in r.spawned && g !in r.cancelled ==> r.registerCancel == Some(g) && r.service.Listening?)
    && (r.registerCancel.None? ==> r.spawned == {})
    && (r.registerCancel.Some? ==> r.registerCancel.value in r.spawned
                                   && forall g :: g in r.spawned ==> g <= r.registerCancel.value)
  }

  // ----- Timers

  predicate TimerInv(h: Heartbeat) {
    && (forall t :: t in h.armed ==> t < |h.timers| && h.keepAlive == Some(t) && t !in h.callbacks)
    && (forall t :: t in h.callbacks ==> t < |h.timers|)
    // the heartbeat never dies
    && (h.keepAlive.Some? ==> h.keepAlive.value < |h.timers|
                              && (h.keepAlive.value in h.armed || h.keepAlive.value in h.callbacks))
    && (forall i :: 0 <= i < |h.timers| ==> h.timers[i].seconds > 0)
  }

  predicate CountInv(r: Registration, h: Heartbeat) {
    |h.armed| + |h.callbacks| <= r.completions
  }

  /** A generation has timers only once its registerNF has ended. */
  predicate GenerationInv(r: Registration, h: Heartbeat) {
    forall i :: 0 <= i < |h.timers| ==> h.timers[i].gen in r.spawned && h.timers[i].gen !in r.goroutines
  }

  ghost predicate Inv(s: State) {
    && StreamInv(s.poller, s.reg.received) && ContextInv(s.reg) && MutexInv(s.reg)
    && TimerInv(s.hb) && CountInv(s.reg, s.hb) && GenerationInv(s.reg, s.hb)
  }

  predicate IsServiceAction(a: Action) {
    a.Receive? || a.Spawn? || a.StopTimer? || a.SendDeregister? || a.Terminate? || a.ExitService?
    || a.ShutdownStopTimer? || a.ShutdownDeregister?
  }

  predicate IsRegisterAction(a: Action) {
    a.TakeMutex? || a.SeeCancelled? || a.TakeTimerBranch? || a.RegisterAnswer? || a.CompleteRegister?
  }

  predicate IsHeartbeatAction(a: Action) {
    a.Fire? || a.NilCheck? || a.UpdateAnswer? || a.ReregisterAnswer? || a.Rearm?
  }
}
