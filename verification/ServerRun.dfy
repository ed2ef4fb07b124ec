/**
 * Running the server: the set-up before serving, and then two goroutines, one in `Serve` and one waiting for a
 * shutdown or for `Serve` to fail, joined by a channel of capacity one.
 */
module ServerRun {
  import opened Wrappers

  /** Where `Run` is: at its select; in the shutdown branch; in the serve-failed branch; or returned. */
  datatype Main =
    | Selecting
    | CtxChosen
    | HealthDown
    | Stopping
    | Draining
    | Failed(error: nat)
    | Returned(outcome: Option<nat>)

  /** Where the serving goroutine is: in `Serve`, holding its result, or past its send. */
  datatype Worker = Serving | Holding(result: nat) | Gone(result: nat)

  datatype State = State(main: Main, worker: Worker, channel: seq<nat>, received: nat, ctxDone: bool,
      healthServing: bool)

  const CAPACITY := 1

  const STARTED := State(Selecting, Serving, [], 0, false, true)

  datatype Action =
    | CancelCtx            // the context is cancelled, or a signal arrives
    | ServeReturns(result: nat)
    | Send
    | ChooseCtx
    | ShutdownHealth       // in either branch
    | CallStop
    | StopReturns
    | Drain
    | ChooseErr

  predicate Enabled(s: State, a: Action) {
    match a
    case CancelCtx => !s.ctxDone
    case ServeReturns(_) => s.worker.Serving?
    case Send => s.worker.Holding? && |s.channel| < CAPACITY
    case ChooseCtx => s.main.Selecting? && s.ctxDone
    case ShutdownHealth => s.main.CtxChosen? || s.main.Failed?
    case CallStop => s.main.HealthDown?
    case StopReturns => s.main.Stopping?
    case Drain => s.main.Draining? && s.channel != []
    case ChooseErr => s.main.Selecting? && s.channel != []
  }

  function Next(s: State, a: Action): State
    requires Enabled(s, a)
  {
    match a
    case CancelCtx => s.(ctxDone := true)
    case ServeReturns(result) => s.(worker := Holding(result))
    case Send => s.(worker := Gone(s.worker.result), channel := s.channel + [s.worker.result])
    case ChooseCtx => s.(main := CtxChosen)
    case ShutdownHealth =>
      s.(healthServing := false, main := if s.main.CtxChosen? then HealthDown else Returned(Some(s.main.error)))
    case CallStop => s.(main := Stopping)
    case StopReturns => s.(main := Draining)
    case Drain => s.(main := Returned(None), channel := s.channel[1..], received := s.received + 1)
    case ChooseErr => s.(main := Failed(s.channel[0]), channel := s.channel[1..], received := s.received + 1)
  }

  ghost predicate Reachable(s: State, trace: seq<Action>)
    decreases |trace|
  {
    if trace == [] then s == STARTED
    else
      var n := |trace| - 1;
      exists p :: Reachable(p, trace[..n]) && Enabled(p, trace[n]) && s == Next(p, trace[n])
  }

  /** `Run` has taken the value from the channel. */
  predicate Took(m: Main) { m.Failed? || m.Returned? }

  ghost predicate Inv(s: State) {
    && s.received == (if Took(s.main) then 1 else 0)
    && (Took(s.main) ==> s.worker.Gone?)
    && s.channel == (if s.worker.Gone? && !Took(s.main) then [s.worker.result] else [])
    && (s.healthServing <==> s.main.Selecting? || s.main.CtxChosen? || s.main.Failed?)
    && (!s.main.Selecting? && !s.main.Failed? && !(s.main.Returned? && s.main.outcome.Some?) ==> s.ctxDone)
    && (s.main.Failed? ==> s.main.error == s.worker.result)
    && (s.main.Returned? && s.main.outcome.Some? ==> s.main.outcome.value == s.worker.result)
  }

  lemma StepInv(s: State, a: Action)
    requires Inv(s) && Enabled(s, a)
    ensures Inv(Next(s, a))
  {
  }

  lemma {:induction false} ReachableInv(s: State, trace: seq<Action>)
    requires Reachable(s, trace)
    ensures Inv(s)
    decreases |trace|
  {
    if trace != [] {
      hide Inv, Enabled, Next;
      var n := |trace| - 1;
      var p :| Reachable(p, trace[..n]) && Enabled(p, trace[n]) && s == Next(p, trace[n]);
      ReachableInv(p, trace[..n]);
      StepInv(p, trace[n]);
    }
  }

  /** In every interleaving the send finds room, so the serving goroutine never blocks on it. */
  lemma SendNeverBlocks(s: State, trace: seq<Action>)
    requires Reachable(s, trace) && s.worker.Holding?
    ensures Enabled(s, Send)
  {
    ReachableInv(s, trace);
  }

  predicate IsMain(a: Action) { !a.CancelCtx? && !IsWorker(a) }

  predicate IsWorker(a: Action) { a.ServeReturns? || a.Send? }

  /** What `Run` itself did. */
  function ByMain(trace: seq<Action>): seq<Action> {
    if trace == [] then []
    else
      var n := |trace| - 1;
      if IsMain(trace[n]) then ByMain(trace[..n]) + [trace[n]] else ByMain(trace[..n])
  }

  /** What the serving goroutine did. */
  function ByWorker(trace: seq<Action>): seq<Action> {
    if trace == [] then []
    else
      var n := |trace| - 1;
      if IsWorker(trace[n]) then ByWorker(trace[..n]) + [trace[n]] else ByWorker(trace[..n])
  }

  function PathTo(m: Main): seq<Action> {
    match m
    case Selecting => []
    case CtxChosen => [ChooseCtx]
    case HealthDown => [ChooseCtx, ShutdownHealth]
    case Stopping => [ChooseCtx, ShutdownHealth, CallStop]
    case Draining => [ChooseCtx, ShutdownHealth, CallStop, StopReturns]
    case Failed(_) => [ChooseErr]
    case Returned(None) => [ChooseCtx, ShutdownHealth, CallStop, StopReturns, Drain]
    case Returned(Some(_)) => [ChooseErr, ShutdownHealth]
  }

  function WorkTo(w: Worker): seq<Action> {
    match w
    case Serving => []
    case Holding(result) => [ServeReturns(result)]
    case Gone(result) => [ServeReturns(result), Send]
  }

  lemma PathStep(s: State, a: Action)
    requires Enabled(s, a)
    ensures PathTo(Next(s, a).main) == PathTo(s.main) + if IsMain(a) then [a] else []
  {
  }

  lemma WorkStep(s: State, a: Action)
    requires Enabled(s, a)
    ensures WorkTo(Next(s, a).worker) == WorkTo(s.worker) + if IsWorker(a) then [a] else []
  {
  }

  lemma FlagStep(s: State, a: Action)
    requires Enabled(s, a)
    ensures Next(s, a).ctxDone <==> s.ctxDone || a == CancelCtx
    ensures Next(s, a).healthServing <==> s.healthServing && a != ShutdownHealth
  {
  }

  lemma {:induction false} PathsByState(s: State, trace: seq<Action>)
    requires Reachable(s, trace)
    ensures ByMain(trace) == PathTo(s.main) && ByWorker(trace) == WorkTo(s.worker)
    ensures s.ctxDone <==> CancelCtx in trace
    ensures s.healthServing <==> ShutdownHealth !in trace
    decreases |trace|
  {
    if trace != [] {
      hide Enabled, Next, PathTo, WorkTo, IsMain, IsWorker;
      var n := |trace| - 1;
      var p :| Reachable(p, trace[..n]) && Enabled(p, trace[n]) && s == Next(p, trace[n]);
      PathsByState(p, trace[..n]);
      PathStep(p, trace[n]);
      WorkStep(p, trace[n]);
      FlagStep(p, trace[n]);
      assert trace == trace[..n] + [trace[n]];
    }
  }

  /**
   * In every interleaving the two keep to their order: `Run` shuts health down, stops the server gracefully, waits for
   * that and drains, and returns nil; or it takes the serve error, shuts health down, and returns that error.
   */
  lemma Paths(s: State, trace: seq<Action>)
    requires Reachable(s, trace) && s.main.Returned?
    ensures ByMain(trace) == if s.main.outcome == None then [ChooseCtx, ShutdownHealth, CallStop, StopReturns, Drain]
                             else [ChooseErr, ShutdownHealth]
    ensures exists result: nat :: ByWorker(trace) == [ServeReturns(result), Send] &&
                             (s.main.outcome == None || s.main.outcome == Some(result))
  {
    ReachableInv(s, trace);
    PathsByState(s, trace);
  }

  lemma {:induction false} ByMainIn(trace: seq<Action>, a: Action)
    requires a.ChooseCtx? || a.ChooseErr?
    ensures a in ByMain(trace) <==> a in trace
  {
    if trace != [] {
      var n := |trace| - 1;
      ByMainIn(trace[..n], a);
      assert trace == trace[..n] + [trace[n]];
    }
  }

  lemma {:induction false} ByWorkerIn(trace: seq<Action>)
    ensures forall a :: a in ByWorker(trace) <==> a in trace && (a.Send? || a.ServeReturns?)
  {
    if trace != [] {
      var n := |trace| - 1;
      ByWorkerIn(trace[..n]);
      assert trace == trace[..n] + [trace[n]];
    }
  }

  /**
   * In every interleaving, `Run` returns only after the serving goroutine's send, having received that one value,
   * with nothing left in the channel and health already down.  It returns nil exactly if its select took the
   * cancellation, which then happened, and otherwise the value sent.
   */
  lemma ReturnsAfterServe(s: State, trace: seq<Action>)
    requires Reachable(s, trace) && s.main.Returned?
    ensures s.worker.Gone? && s.received == 1 && s.channel == [] && !s.healthServing
    ensures if s.main.outcome.Some? then s.main.outcome.value == s.worker.result else s.ctxDone
    ensures s.main.outcome == None <==> ChooseCtx in trace
    ensures s.main.outcome.Some? <==> ChooseErr in trace
    ensures ServeReturns(s.worker.result) in trace && Send in trace
  {
    ReachableInv(s, trace);
    PathsByState(s, trace);
    ByMainIn(trace, ChooseCtx);
    ByMainIn(trace, ChooseErr);
    ByWorkerIn(trace);
  }

  /** How many of the program's own steps can still follow. */
  function StepsLeft(s: State): nat {
    (match s.worker case Serving => 2 case Holding(_) => 1 case Gone(_) => 0) +
    (match s.main
     case Selecting => 5
     case CtxChosen => 4
     case HealthDown => 3
     case Stopping => 2
     case Draining => 1
     case Failed(_) => 1
     case Returned(_) => 0)
  }

  /** Every step but the cancellation itself comes closer to the end. */
  lemma StepsRunOut(s: State, a: Action)
    requires Enabled(s, a)
    ensures StepsLeft(Next(s, a)) < StepsLeft(s) || (a.CancelCtx? && StepsLeft(Next(s, a)) == StepsLeft(s))
  {
  }

  /** So no interleaving goes on for ever: seven steps and a cancellation are the most there can be. */
  lemma {:induction false} TracesEnd(s: State, trace: seq<Action>)
    requires Reachable(s, trace)
    ensures |trace| + StepsLeft(s) + (if s.ctxDone then 0 else 1) <= 8
    decreases |trace|
  {
    if trace != [] {
      var n := |trace| - 1;
      var p :| Reachable(p, trace[..n]) && Enabled(p, trace[n]) && s == Next(p, trace[n]);
      TracesEnd(p, trace[..n]);
      StepsRunOut(p, trace[n]);
    }
  }

  /**
   * And none stops short: when no step is possible, a cancellation from outside apart, `Run` has returned and the
   * goroutine is gone.
   */
  lemma NeverStuck(s: State, trace: seq<Action>)
    requires Reachable(s, trace)
    ensures (forall a :: Enabled(s, a) ==> a.CancelCtx?) <==> s.main.Returned? && s.worker.Gone?
  {
    ReachableInv(s, trace);
    if forall a :: Enabled(s, a) ==> a.CancelCtx? {
      assert !Enabled(s, ServeReturns(0)) && !Enabled(s, Send) && !Enabled(s, ChooseCtx) && !Enabled(s, ShutdownHealth);
      assert !Enabled(s, CallStop) && !Enabled(s, StopReturns) && !Enabled(s, Drain) && !Enabled(s, ChooseErr);
    }
  }

  /** At its select `Run` may take the cancellation exactly once that came, and the serve result once that was sent. */
  lemma SelectTakesEither(s: State, trace: seq<Action>)
    requires Reachable(s, trace) && s.main.Selecting?
    ensures Enabled(s, ChooseCtx) <==> CancelCtx in trace
    ensures Enabled(s, ChooseErr) <==> Send in trace
  {
    hide Reachable, ByMain, ByWorker;
    ReachableInv(s, trace);
    PathsByState(s, trace);
    ByWorkerIn(trace);
  }

  // ----- Set-up -----

  datatype Start = ConfigError | ListenError | Serve(injected: Option<nat>)

  class Server {
    const configErr: bool
    /** An injected listener, used up by the next run. */
    var listener: Option<nat>
    /** The health server made by the latest run, if any, and whether it reports SERVING. */
    var healthServing: Option<bool>

    constructor (configErr: bool, listener: Option<nat>)
      ensures this.configErr == configErr && this.listener == listener && healthServing == None
    {
      this.configErr, this.listener, healthServing := configErr, listener, None;
    }

    /** `Run` up to the point where the goroutine starts; `listenOk` is whether listening on the port succeeds. */
    method Prepare(listenOk: bool) returns (r: Start)
      modifies this
      ensures r.ConfigError? <==> configErr
      ensures configErr ==> listener == old(listener) && healthServing == old(healthServing)
      ensures !configErr ==> listener == None && healthServing == Some(true)
      ensures !configErr ==> (r.ListenError? <==> old(listener) == None && !listenOk)
      ensures r.Serve? ==> r.injected == old(listener) && healthServing == Some(STARTED.healthServing)
    {
      if configErr {
        return ConfigError;
      }
      healthServing := Some(true);
      var lis := listener;
      listener := None;
      if lis == None && !listenOk {
        return ListenError;
      }
      return Serve(lis);
    }
  }
}
