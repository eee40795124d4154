/**
 The life of one `pdx serve` image from `signal.Notify` to the re-exec decision:
 serveAndWait (trigger select, signal watcher, shutdown sequence), then
 restartStillWanted, then the choice between re-exec and return.

 Goroutines become program counters (Main, Watcher, the Serve goroutine's
 `serveDone`), and everything that can interleave is an event. A run is any list
 of events each of which was enabled, so a lemma about every event list is a
 lemma about every interleaving, every `select` choice and every answer of the
 modules and of the HTTP server.
 */
module ServeLifecycle {
  import opened Outcomes

  datatype Main =
    | AtSelect        // the trigger select
    | AtBegin         // target.BeginShutdown()
    | AtSpawn         // the watcher goroutine is started
    | AtCancel
    | AtStop          // target.StopModules
    | AtShutdown      // srv.Shutdown
    | AtClose         // srv.Close, after a failed Shutdown
    | AtServeReturn   // err = <-serveErr unless the select took it
    | AtCloseModules
    | AtCloseDone     // close(done)
    | AtJoin          // <-watcherDone
    | AtReturn
    | AtGate          // runServe saw errRestart; signal delivery still on
    | AtPoll          // signal delivery stopped, buffer not looked at yet
    | Reexec          // runServe returned the plan
    | Ended           // runServe returned nil

  datatype Watcher =
    | NotStarted
    | FirstWait       // first select
    | FirstTaken      // a signal was received, restartCancelled not stored yet
    | SecondWait      // second select
    | SecondTaken     // a signal was received, `done` not looked at yet
    | CallsExit
    | WatcherDone

  datatype Process = Alive | Exited130 | KilledBySignal

  datatype Trigger = Untriggered | BySignal | ByRestart | ByServe

  datatype Effect =
    | CancelContext
    | StopModules(ok: bool)
    | ShutdownServer(ok: bool)
    | CloseServer(ok: bool)
    | CollectServe
    | CloseModules(ok: bool)

  datatype Warning = StopFailed | ShutdownFailed | CloseFailed | ModulesFailed | ServerFailed

  datatype ReturnValue = NotYet | Restart(warnings: seq<Warning>) | NilError | ServeError

  /** signal.Notify and its capacity-1 channel. */
  datatype Signals = Signals(
    notify: bool,            // delivery is on
    pending: bool,           // the channel holds a value
    arrived: nat,            // signals that reached the process while delivery was on
    taken: nat)              // signals received from the channel

  /** The restart endpoint, its capacity-1 channel and serveAndWait's two flags. */
  datatype Restarting = Restarting(
    accepted: bool,          // the endpoint answered 202
    closed: bool,            // BeginShutdown ran
    ready: bool,             // the channel holds a value
    triggered: bool,         // restartTriggered
    cancelled: bool)         // restartCancelled

  /** srv.Serve: returned, and with something other than http.ErrServerClosed. */
  datatype Serving = Serving(done: bool, failed: bool)

  /** What the sequence did, in order, what it warned about and what serveAndWait returned. */
  datatype Log = Log(effects: seq<Effect>, warnings: seq<Warning>, returned: ReturnValue)

  datatype State = State(
    main: Main,
    watcher: Watcher,
    process: Process,
    trigger: Trigger,
    doneClosed: bool,
    sig: Signals,
    restart: Restarting,
    serve: Serving,
    log: Log)

  const INIT := State(AtSelect, NotStarted, Alive, Untriggered, false, Signals(true, false, 0, 0),
                      Restarting(false, false, false, false, false), Serving(false, false), Log([], [], NotYet))

  datatype Event =
    // the environment
    | Signal
    | AcceptRestart
    | RestartHook
    | ServeReturns(failed: bool)
    // the main goroutine
    | SelectSignal
    | SelectRestart
    | SelectServe
    | MainStep(ok: bool)     // the next statement; ok answers the call it makes
    // the watcher goroutine
    | WatcherTakes
    | WatcherSeesDone
    | WatcherStep

  predicate Internal(e: Event) {
    !e.Signal? && !e.AcceptRestart? && !e.RestartHook? && !e.ServeReturns?
  }

  /** Receive from the signal channel. */
  function Take(sig: Signals): Signals {
    sig.(pending := false, taken := sig.taken + 1)
  }

  /** One step; None when the event is not enabled in s. */
  function Apply(s: State, e: Event): Option<State> {
    if !s.process.Alive? then None
    else
      match e
      case Signal =>
        // a full channel drops the value; without Notify the default action ends the process
        if s.sig.notify then Some(s.(sig := s.sig.(pending := true, arrived := s.sig.arrived + 1)))
        else Some(s.(process := KilledBySignal))
      case AcceptRestart =>
        if s.restart.accepted || s.restart.closed then None else Some(s.(restart := s.restart.(accepted := true)))
      case RestartHook =>
        if s.restart.accepted then Some(s.(restart := s.restart.(ready := true))) else None
      case ServeReturns(failed) =>
        if s.serve.done then None else Some(s.(serve := Serving(true, failed)))
      case SelectSignal =>
        if s.main.AtSelect? && s.sig.pending
        then Some(s.(main := AtBegin, trigger := BySignal, sig := Take(s.sig)))
        else None
      case SelectRestart =>
        if s.main.AtSelect? && s.restart.ready
        then Some(s.(main := AtBegin, trigger := ByRestart, restart := s.restart.(ready := false, triggered := true)))
        else None
      case SelectServe =>
        if s.main.AtSelect? && s.serve.done then Some(s.(main := AtBegin, trigger := ByServe)) else None
      case MainStep(ok) => ApplyMain(s, ok)
      case WatcherTakes =>
        if !s.sig.pending then None
        else if s.watcher.FirstWait? then Some(s.(watcher := FirstTaken, sig := Take(s.sig)))
        else if s.watcher.SecondWait? then Some(s.(watcher := SecondTaken, sig := Take(s.sig)))
        else None
      case WatcherSeesDone =>
        if s.doneClosed && (s.watcher.FirstWait? || s.watcher.SecondWait?)
        then Some(s.(watcher := WatcherDone))
        else None
      case WatcherStep =>
        match s.watcher
        case FirstTaken =>
          Some(s.(watcher := SecondWait,
                  restart := s.restart.(cancelled := s.restart.cancelled || s.restart.triggered)))
        case SecondTaken => Some(s.(watcher := if s.doneClosed then WatcherDone else CallsExit))
        case CallsExit => Some(s.(process := Exited130))
        case _ => None
  }

  function Failed(ok: bool, w: Warning): seq<Warning> {
    if ok then [] else [w]
  }

  /** The call e was made; if it failed, w is logged and kept. */
  function Did(log: Log, e: Effect, ok: bool, w: Warning): Log {
    log.(effects := log.effects + [e], warnings := log.warnings + Failed(ok, w))
  }

  /** The main goroutine's next statement; ok answers the call it makes, if any. */
  function ApplyMain(s: State, ok: bool): Option<State> {
    if s.main.AtGate? || s.main.AtPoll? then ApplyGate(s)
    else if s.main.AtBegin? || s.main.AtSpawn? || s.main.AtCloseDone? || s.main.AtJoin? || s.main.AtReturn?
    then ApplyControl(s)
    else ApplySequence(s, ok)
  }

  /** The calls of the shutdown sequence itself. */
  function ApplySequence(s: State, ok: bool): Option<State> {
    match s.main
    case AtCancel => Some(s.(main := AtStop, log := Did(s.log, CancelContext, true, StopFailed)))
    case AtStop => Some(s.(main := AtShutdown, log := Did(s.log, StopModules(ok), ok, StopFailed)))
    case AtShutdown =>
      Some(s.(main := if ok then AtServeReturn else AtClose, log := Did(s.log, ShutdownServer(ok), ok, ShutdownFailed)))
    case AtClose => Some(s.(main := AtServeReturn, log := Did(s.log, CloseServer(ok), ok, CloseFailed)))
    case AtServeReturn =>
      if s.trigger.ByServe? then Some(s.(main := AtCloseModules))
      else if s.serve.done then Some(s.(main := AtCloseModules, log := Did(s.log, CollectServe, true, StopFailed)))
      else None
    case AtCloseModules => Some(s.(main := AtCloseDone, log := Did(s.log, CloseModules(ok), ok, ModulesFailed)))
    case _ => None
  }

  /** What surrounds the sequence: BeginShutdown, the watcher's start and join, the return. */
  function ApplyControl(s: State): Option<State> {
    match s.main
    case AtBegin =>
      Some(s.(main := AtSpawn,
              restart := s.restart.(closed := true,
                                    triggered := s.restart.triggered || (s.restart.accepted && !s.trigger.BySignal?))))
    case AtSpawn =>
      Some(s.(main := AtCancel, watcher := if s.trigger.BySignal? then SecondWait else FirstWait))
    case AtCloseDone => Some(s.(main := AtJoin, doneClosed := true))
    case AtJoin => if s.watcher.WatcherDone? then Some(s.(main := AtReturn)) else None
    case AtReturn =>
      if s.restart.triggered && !s.restart.cancelled then
        var all := s.log.warnings + Failed(!s.serve.failed, ServerFailed);
        Some(s.(main := AtGate, log := s.log.(warnings := all, returned := Restart(all))))
      else Some(s.(main := Ended, log := s.log.(returned := if s.serve.failed then ServeError else NilError)))
    case _ => None
  }

  /** restartStillWanted: stop delivery, then look at the buffer. */
  function ApplyGate(s: State): Option<State> {
    if s.main.AtGate? then Some(s.(main := AtPoll, sig := s.sig.(notify := false)))
    else if s.sig.pending then Some(s.(main := Ended, sig := Take(s.sig)))
    else Some(s.(main := Reexec))
  }

  /** The state an event list leads to, if every event was enabled when it happened. */
  function Run(es: seq<Event>): Option<State> {
    if es == [] then Some(INIT)
    else
      match Run(es[..|es| - 1])
      case None => None
      case Some(s) => Apply(s, es[|es| - 1])
  }

  // ---- the shape of the shutdown sequence --------------------------------

  /** Cancel, StopModules, Shutdown, and Close exactly when Shutdown failed. */
  predicate HttpDone(t: seq<Effect>) {
    && 3 <= |t| <= 4
    && t[0].CancelContext? && t[1].StopModules?
    && t[2] == ShutdownServer(|t| == 3)
    && (|t| == 4 ==> t[3].CloseServer?)
  }

  /** ... then Serve's return is collected, unless it was what triggered the sequence. */
  predicate ServeGone(t: seq<Effect>, trigger: Trigger) {
    if trigger.ByServe? then HttpDone(t)
    else |t| > 0 && t[|t| - 1].CollectServe? && HttpDone(t[..|t| - 1])
  }

  /** ... then CloseModules, and nothing else. */
  predicate Complete(t: seq<Effect>, trigger: Trigger) {
    |t| > 0 && t[|t| - 1].CloseModules? && ServeGone(t[..|t| - 1], trigger)
  }

  /** The warnings the failed calls of t call for, in order. */
  function WarningsOf(t: seq<Effect>): seq<Warning> {
    if t == [] then []
    else
      WarningsOf(t[..|t| - 1]) +
      (match t[|t| - 1]
       case StopModules(ok) => Failed(ok, StopFailed)
       case ShutdownServer(ok) => Failed(ok, ShutdownFailed)
       case CloseServer(ok) => Failed(ok, CloseFailed)
       case CloseModules(ok) => Failed(ok, ModulesFailed)
       case _ => [])
  }

  predicate SequenceAt(m: Main, t: seq<Effect>, trigger: Trigger, served: bool) {
    match m
    case AtSelect => t == [] && trigger.Untriggered?
    case AtBegin => t == []
    case AtSpawn => t == []
    case AtCancel => t == []
    case AtStop => t == [CancelContext]
    case AtShutdown => |t| == 2 && t[0].CancelContext? && t[1].StopModules?
    case AtClose => |t| == 3 && t[0].CancelContext? && t[1].StopModules? && t[2] == ShutdownServer(false)
    case AtServeReturn => HttpDone(t)
    case AtCloseModules => ServeGone(t, trigger) && served
    case _ => Complete(t, trigger) && served
  }

  predicate SequenceInv(s: State) {
    SequenceAt(s.main, s.log.effects, s.trigger, s.serve.done)
  }

  predicate BeforeSpawn(m: Main) { m.AtSelect? || m.AtBegin? || m.AtSpawn? }
  predicate BeforeReturn(m: Main) { !m.AtGate? && !m.AtPoll? && !m.Reexec? && !m.Ended? }
  predicate AfterJoin(m: Main) { m.AtReturn? || !BeforeReturn(m) }

  /** Where every signal that arrived went. */
  predicate SignalInv(s: State) {
    && (s.sig.pending || s.sig.taken > 0 <==> s.sig.arrived > 0)
    && (s.watcher.NotStarted? <==> BeforeSpawn(s.main))
    && (BeforeSpawn(s.main) && !s.trigger.BySignal? ==> s.sig.taken == 0)
    && (s.trigger.BySignal? ==> s.sig.taken > 0 && !s.watcher.FirstWait? && !s.watcher.FirstTaken?)
    && (s.sig.taken > 0 && !s.main.Ended? ==>
          s.trigger.BySignal? || s.restart.cancelled || s.watcher.FirstTaken? || !s.restart.triggered)
    && (s.watcher.FirstTaken? || s.watcher.SecondWait? || s.restart.cancelled ==> s.sig.taken >= 1)
    && (s.watcher.SecondTaken? || s.watcher.CallsExit? || s.process.Exited130? ==> s.sig.taken >= 2)
  }

  predicate RestartInv(s: State) {
    && (s.main.AtSelect? ==> !s.restart.triggered)
    && (s.main.AtSelect? <==> s.trigger.Untriggered?)
    && (s.restart.ready || s.restart.triggered ==> s.restart.accepted)
    && (s.restart.triggered ==> !s.trigger.BySignal?)
    && (s.restart.closed <==> !s.main.AtSelect? && !s.main.AtBegin?)
    && (s.restart.closed && s.restart.accepted && !s.trigger.BySignal? ==> s.restart.triggered)
    && (s.trigger.ByServe? ==> s.serve.done)
  }

  /** Only the watcher's first signal cancels, and only a restart. */
  predicate CancelInv(s: State) {
    && (s.watcher.NotStarted? || s.watcher.FirstWait? || s.watcher.FirstTaken? ==> !s.restart.cancelled)
    && (s.restart.cancelled ==> s.restart.triggered)
  }

  predicate EndInv(s: State) {
    && (s.doneClosed <==> s.main.AtJoin? || AfterJoin(s.main))
    && (AfterJoin(s.main) ==> s.watcher.WatcherDone?)
    && (s.watcher.WatcherDone? ==> s.doneClosed)
    && (s.main.AtPoll? || s.main.Reexec? ==> !s.sig.notify)
    && (s.main.AtGate? || s.main.AtPoll? || s.main.Reexec? ==> s.restart.triggered && s.sig.taken == 0)
    && (s.main.Reexec? ==> !s.sig.pending)
    && (s.main.Ended? && s.restart.triggered ==> s.sig.taken > 0)
  }

  predicate ReturnInv(s: State) {
    && (s.log.returned.NotYet? <==> BeforeReturn(s.main))
    && (BeforeReturn(s.main) ==> s.log.warnings == WarningsOf(s.log.effects))
    && (s.log.returned.Restart? ==>
          s.log.returned.warnings == WarningsOf(s.log.effects) + Failed(!s.serve.failed, ServerFailed))
    && (s.log.returned.NilError? ==> !s.serve.failed)
    && (s.log.returned.ServeError? ==> s.serve.failed)
    && (!BeforeReturn(s.main) ==> s.serve.done)
  }

  predicate Inv(s: State) {
    SequenceInv(s) && SignalInv(s) && RestartInv(s) && EndInv(s) && ReturnInv(s) && CancelInv(s)
  }

  lemma SequenceKeepsShape(s: State, ok: bool)
    requires SequenceInv(s) && (s.trigger.ByServe? ==> s.serve.done) && ApplySequence(s, ok).Some?
    ensures SequenceInv(ApplySequence(s, ok).value)
  {
    var t := s.log.effects;
    match s.main
    case AtServeReturn => assert (t + [CollectServe])[..|t|] == t;
    case AtCloseModules => assert (t + [CloseModules(ok)])[..|t|] == t;
    case _ =>
  }

  lemma SequenceKeepsReturn(s: State, ok: bool)
    requires ReturnInv(s) && BeforeReturn(s.main) && ApplySequence(s, ok).Some?
    ensures ReturnInv(ApplySequence(s, ok).value)
  {
    var n := ApplySequence(s, ok).value;
    assert n.log.returned == s.log.returned && n.serve == s.serve && BeforeReturn(n.main);
    SequenceKeepsWarnings(s, ok);
  }

  lemma SequenceKeepsWarnings(s: State, ok: bool)
    requires s.log.warnings == WarningsOf(s.log.effects) && ApplySequence(s, ok).Some?
    ensures var n := ApplySequence(s, ok).value; n.log.warnings == WarningsOf(n.log.effects)
  {
    match s.main {
      case AtCancel => DidKeepsWarnings(s.log, CancelContext, true, StopFailed);
      case AtStop => DidKeepsWarnings(s.log, StopModules(ok), ok, StopFailed);
      case AtShutdown => DidKeepsWarnings(s.log, ShutdownServer(ok), ok, ShutdownFailed);
      case AtClose => DidKeepsWarnings(s.log, CloseServer(ok), ok, CloseFailed);
      case AtServeReturn => DidKeepsWarnings(s.log, CollectServe, true, StopFailed);
      case AtCloseModules => DidKeepsWarnings(s.log, CloseModules(ok), ok, ModulesFailed);
      case _ =>
    }
  }

  /** The warning belongs to the call. */
  predicate Fits(e: Effect, ok: bool, w: Warning) {
    match e
    case StopModules(a) => a == ok && w == StopFailed
    case ShutdownServer(a) => a == ok && w == ShutdownFailed
    case CloseServer(a) => a == ok && w == CloseFailed
    case CloseModules(a) => a == ok && w == ModulesFailed
    case _ => ok
  }

  lemma DidKeepsWarnings(log: Log, e: Effect, ok: bool, w: Warning)
    requires log.warnings == WarningsOf(log.effects) && Fits(e, ok, w)
    ensures Did(log, e, ok, w).warnings == WarningsOf(Did(log, e, ok, w).effects)
  {
    WarningsSnoc(log.effects, e);
  }

  lemma WarningsSnoc(t: seq<Effect>, e: Effect)
    ensures WarningsOf(t + [e]) == WarningsOf(t) +
      (match e
       case StopModules(ok) => Failed(ok, StopFailed)
       case ShutdownServer(ok) => Failed(ok, ShutdownFailed)
       case CloseServer(ok) => Failed(ok, CloseFailed)
       case CloseModules(ok) => Failed(ok, ModulesFailed)
       case _ => [])
  {
    assert (t + [e])[..|t|] == t;
  }

  lemma SequenceKeepsSignals(s: State, ok: bool)
    requires SignalInv(s) && RestartInv(s) && EndInv(s) && ApplySequence(s, ok).Some?
    ensures var n := ApplySequence(s, ok).value; SignalInv(n) && RestartInv(n) && EndInv(n)
  {
    var n := ApplySequence(s, ok).value;
    assert n.sig == s.sig && n.restart == s.restart && n.watcher == s.watcher && n.serve == s.serve;
    assert n.trigger == s.trigger && n.doneClosed == s.doneClosed && n.process == s.process;
    assert BeforeSpawn(n.main) == BeforeSpawn(s.main) && AfterJoin(n.main) == AfterJoin(s.main);
  }

  lemma ControlKeepsLog(s: State)
    requires SequenceInv(s) && ReturnInv(s) && ApplyControl(s).Some?
    ensures SequenceInv(ApplyControl(s).value) && ReturnInv(ApplyControl(s).value)
  {
    ControlKeepsSequence(s);
    ControlKeepsReturn(s);
  }

  lemma ControlKeepsSequence(s: State)
    requires SequenceInv(s) && ApplyControl(s).Some?
    ensures SequenceInv(ApplyControl(s).value)
  {
    assert ApplyControl(s).value.log.effects == s.log.effects;
  }

  lemma ControlKeepsReturn(s: State)
    requires SequenceInv(s) && ReturnInv(s) && ApplyControl(s).Some?
    ensures ReturnInv(ApplyControl(s).value)
  {
    assert ApplyControl(s).value.log.effects == s.log.effects;
  }

  lemma ControlKeepsSignals(s: State)
    requires SignalInv(s) && RestartInv(s) && EndInv(s) && ApplyControl(s).Some?
    ensures var n := ApplyControl(s).value; SignalInv(n) && RestartInv(n) && EndInv(n)
  {
  }

  lemma GateKeepsInv(s: State)
    requires Inv(s) && (s.main.AtGate? || s.main.AtPoll?)
    ensures Inv(ApplyGate(s).value)
  {
    assert ApplyGate(s).value.log == s.log;
  }

  /** Only the main goroutine writes the log. */
  lemma OthersKeepLog(s: State, e: Event)
    requires Inv(s) && Apply(s, e).Some? && !e.MainStep?
    ensures SequenceInv(Apply(s, e).value) && ReturnInv(Apply(s, e).value)
  {
    var n := Apply(s, e).value;
    assert n.log == s.log;
    assert n.main == s.main || (s.main.AtSelect? && n.main.AtBegin?);
    assert n.trigger == s.trigger || s.main.AtSelect?;
    assert s.serve.done ==> n.serve == s.serve;
  }

  lemma OthersKeepSignals(s: State, e: Event)
    requires Inv(s) && Apply(s, e).Some? && !e.MainStep?
    ensures SignalInv(Apply(s, e).value)
  {
  }

  lemma OthersKeepRestart(s: State, e: Event)
    requires Inv(s) && Apply(s, e).Some? && !e.MainStep?
    ensures RestartInv(Apply(s, e).value) && EndInv(Apply(s, e).value)
  {
  }

  lemma OthersKeepCancel(s: State, e: Event)
    requires CancelInv(s) && SignalInv(s) && Apply(s, e).Some? && !e.MainStep?
    ensures CancelInv(Apply(s, e).value)
  {
  }

  lemma MainKeepsCancel(s: State, ok: bool)
    requires CancelInv(s) && SignalInv(s) && ApplyMain(s, ok).Some?
    ensures CancelInv(ApplyMain(s, ok).value)
  {
  }

  lemma ApplyKeepsInv(s: State, e: Event)
    requires Inv(s) && Apply(s, e).Some?
    ensures Inv(Apply(s, e).value)
  {
    if e.MainStep? { MainKeepsCancel(s, e.ok); } else { OthersKeepCancel(s, e); }
    if !e.MainStep? {
      OthersKeepLog(s, e);
      OthersKeepSignals(s, e);
      OthersKeepRestart(s, e);
    } else if s.main.AtGate? || s.main.AtPoll? {
      GateKeepsInv(s);
    } else if ApplyControl(s).Some? {
      ControlKeepsLog(s);
      ControlKeepsSignals(s);
    } else {
      SequenceKeepsShape(s, e.ok);
      SequenceKeepsReturn(s, e.ok);
      SequenceKeepsSignals(s, e.ok);
    }
  }

  lemma {:induction false} ReachableInv(es: seq<Event>)
    ensures Run(es).Some? ==> Inv(Run(es).value)
  {
    if es != [] && Run(es).Some? {
      ReachableInv(es[..|es| - 1]);
      ApplyKeepsInv(Run(es[..|es| - 1]).value, es[|es| - 1]);
    }
  }

  // ---- main results ------------------------------------------------------

  /**
   A run that reached the end of runServe re-execs exactly when a restart was
   accepted and no signal reached the process while its delivery was on: not one
   that was consumed, not one left in the buffer, not one the full buffer dropped.
   */
  lemma ReexecExactlyWhenWanted(es: seq<Event>)
    requires Run(es).Some? && (Run(es).value.main.Reexec? || Run(es).value.main.Ended?)
    ensures Run(es).value.main.Reexec? <==> Run(es).value.restart.accepted && Run(es).value.sig.arrived == 0
  {
    ReachableInv(es);
  }

  /**
   When serveAndWait has returned, the sequence ran once, whole and in order, Serve
   had returned, the watcher is gone, and the returned value is the restart outcome
   (with one warning per failed call, in order) or Serve's own error.
   */
  lemma SequenceRanOnceInOrder(es: seq<Event>)
    requires Run(es).Some? && !Run(es).value.log.returned.NotYet?
    ensures var s := Run(es).value;
            && Complete(s.log.effects, s.trigger) && s.serve.done && s.watcher.WatcherDone?
            && (s.log.returned.Restart? ==>
                  s.log.returned.warnings == WarningsOf(s.log.effects) + Failed(!s.serve.failed, ServerFailed))
            && (s.log.returned.NilError? ==> !s.serve.failed)
            && (s.log.returned.ServeError? ==> s.serve.failed)
  {
    ReachableInv(es);
  }

  lemma NoCloseModulesYet(t: seq<Effect>, trigger: Trigger)
    requires HttpDone(t) || ServeGone(t, trigger)
    ensures forall i :: 0 <= i < |t| ==> !t[i].CloseModules?
  {
    if !HttpDone(t) {
      var h := t[..|t| - 1];
      assert HttpDone(h) && forall i :: 0 <= i < |h| ==> t[i] == h[i];
    }
  }

  /** CloseModules is the last call of every run that makes it, and Serve has returned by then. */
  lemma NoCloseWhileServing(es: seq<Event>, i: nat)
    requires Run(es).Some? && i < |Run(es).value.log.effects| && Run(es).value.log.effects[i].CloseModules?
    ensures i == |Run(es).value.log.effects| - 1 && Run(es).value.serve.done
  {
    ReachableInv(es);
    CloseModulesIsLast(Run(es).value, i);
  }

  lemma CloseModulesIsLast(s: State, i: nat)
    requires SequenceInv(s) && i < |s.log.effects| && s.log.effects[i].CloseModules?
    ensures i == |s.log.effects| - 1 && s.serve.done
  {
    var t := s.log.effects;
    if HttpDone(t) || ServeGone(t, s.trigger) {
      NoCloseModulesYet(t, s.trigger);
    } else if Complete(t, s.trigger) && i < |t| - 1 {
      NoCloseModulesYet(t[..|t| - 1], s.trigger);
    }
  }

  /** exit(130) is reached only after two signals were received from the channel. */
  lemma ForcedExitNeedsTwoSignals(es: seq<Event>)
    requires Run(es).Some? && (Run(es).value.process.Exited130? || Run(es).value.watcher.CallsExit?)
    ensures Run(es).value.sig.taken >= 2
  {
    ReachableInv(es);
  }

  // ---- what is never ignored ----------------------------------------------

  lemma RunSnoc(es: seq<Event>, e: Event)
    requires Run(es).Some?
    ensures Run(es + [e]) == Apply(Run(es).value, e)
  {
    assert (es + [e])[..|es|] == es;
  }

  /** A second signal that arrives while the sequence is under way is taken and ends the process with 130. */
  lemma SecondSignalForcesExit(es: seq<Event>)
    requires Run(es).Some? && Run(es).value.process.Alive?
    requires Run(es).value.watcher.SecondWait? && Run(es).value.sig.pending && !Run(es).value.doneClosed
    ensures var all := es + [WatcherTakes] + [WatcherStep] + [WatcherStep];
            Run(all).Some? && Run(all).value.process.Exited130?
  {
    RunSnoc(es, WatcherTakes);
    RunSnoc(es + [WatcherTakes], WatcherStep);
    RunSnoc(es + [WatcherTakes] + [WatcherStep], WatcherStep);
  }

  /**
   The first signal during a sequence a signal did not start is taken, and cancels the restart exactly
   if there is one.
   */
  lemma FirstSignalIsTaken(es: seq<Event>)
    requires Run(es).Some? && Run(es).value.process.Alive?
    requires Run(es).value.watcher.FirstWait? && Run(es).value.sig.pending
    ensures var all := es + [WatcherTakes] + [WatcherStep];
            && Run(all).Some? && Run(all).value.watcher.SecondWait? && !Run(all).value.sig.pending
            && (Run(all).value.restart.cancelled <==> Run(es).value.restart.triggered)
  {
    ReachableInv(es);
    RunSnoc(es, WatcherTakes);
    RunSnoc(es + [WatcherTakes], WatcherStep);
  }

  /** A watcher that took a signal as the sequence ended leaves without exiting. */
  lemma LateSignalDoesNotExit(es: seq<Event>)
    requires Run(es).Some? && Run(es).value.process.Alive?
    requires Run(es).value.watcher.SecondTaken? && Run(es).value.doneClosed
    ensures var all := es + [WatcherStep];
            Run(all).Some? && Run(all).value.watcher.WatcherDone? && Run(all).value.process.Alive?
  {
    RunSnoc(es, WatcherStep);
  }

  /** At the trigger select each of the three channels is taken whenever it is ready, and starts the sequence. */
  lemma SelectTakesWhateverIsReady(es: seq<Event>)
    requires Run(es).Some? && Run(es).value.process.Alive? && Run(es).value.main.AtSelect?
    ensures var s := Run(es).value;
            && (s.sig.pending ==> Triggers(es + [SelectSignal], BySignal))
            && (s.restart.ready ==> Triggers(es + [SelectRestart], ByRestart))
            && (s.serve.done ==> Triggers(es + [SelectServe], ByServe))
  {
    RunSnoc(es, SelectSignal);
    RunSnoc(es, SelectRestart);
    RunSnoc(es, SelectServe);
  }

  predicate Triggers(es: seq<Event>, t: Trigger) {
    Run(es).Some? && Run(es).value.main.AtBegin? && Run(es).value.trigger == t
  }

  /** A signal can come at any time; delivered, it is in the channel, and without delivery it ends the process. */
  lemma SignalsAreFree(es: seq<Event>)
    requires Run(es).Some? && Run(es).value.process.Alive?
    ensures Run(es + [Signal]).Some?
    ensures Run(es).value.sig.notify ==> Run(es + [Signal]).value.sig.pending
    ensures !Run(es).value.sig.notify ==> Run(es + [Signal]).value.process.KilledBySignal?
  {
    RunSnoc(es, Signal);
  }

  /** A restart is accepted once, until the shutdown begins, and its hook fills the channel. */
  lemma RestartsAreFree(es: seq<Event>)
    requires Run(es).Some? && Run(es).value.process.Alive?
    ensures !Run(es).value.restart.accepted && !Run(es).value.restart.closed <==> Run(es + [AcceptRestart]).Some?
    ensures Run(es).value.restart.accepted ==>
      Run(es + [RestartHook]).Some? && Run(es + [RestartHook]).value.restart.ready
  {
    RunSnoc(es, AcceptRestart);
    RunSnoc(es, RestartHook);
  }

  /** Serve may return with or without an error at any time. */
  lemma ServeMayReturn(es: seq<Event>, failed: bool)
    requires Run(es).Some? && Run(es).value.process.Alive? && !Run(es).value.serve.done
    ensures Run(es + [ServeReturns(failed)]).Some?
    ensures Run(es + [ServeReturns(failed)]).value.serve == Serving(true, failed)
  {
    RunSnoc(es, ServeReturns(failed));
  }

  /** Every call of the sequence may succeed or fail, and the sequence goes on. */
  lemma CallsMayFail(es: seq<Event>, ok: bool)
    requires Run(es).Some? && Run(es).value.process.Alive?
    requires Run(es).value.main in {AtStop, AtShutdown, AtClose, AtCloseModules}
    ensures Run(es + [MainStep(ok)]).Some?
    ensures |Run(es + [MainStep(ok)]).value.log.effects| == |Run(es).value.log.effects| + 1
  {
    RunSnoc(es, MainStep(ok));
  }

  // ---- the warnings ----------------------------------------------------------

  /** The calls that went wrong, and what each is warned about as. */
  predicate WentWrong(e: Effect) {
    e in {StopModules(false), ShutdownServer(false), CloseServer(false), CloseModules(false)}
  }

  predicate Names(w: Warning, e: Effect) {
    || (w == StopFailed && e == StopModules(false))
    || (w == ShutdownFailed && e == ShutdownServer(false))
    || (w == CloseFailed && e == CloseServer(false))
    || (w == ModulesFailed && e == CloseModules(false))
  }

  /** ps are the positions of exactly the calls that went wrong, in order, and ws names them one by one. */
  ghost predicate OnePerFailure(t: seq<Effect>, ws: seq<Warning>, ps: seq<int>) {
    && |ps| == |ws|
    && (forall i :: 0 <= i < |ps| ==> 0 <= ps[i] < |t| && Names(ws[i], t[ps[i]]))
    && (forall i, j :: 0 <= i < j < |ps| ==> ps[i] < ps[j])
    && (forall k :: 0 <= k < |t| && WentWrong(t[k]) ==> k in ps)
  }

  lemma {:induction false} WarningsAreOnePerFailure(t: seq<Effect>) returns (ps: seq<int>)
    ensures OnePerFailure(t, WarningsOf(t), ps)
  {
    ps := [];
    if t != [] {
      var n := |t| - 1;
      var before := WarningsAreOnePerFailure(t[..n]);
      assert t == t[..n] + [t[n]];
      ps := MoreFailures(t[..n], WarningsOf(t[..n]), before, t[n]);
    }
  }

  /** One more call: its warning if it went wrong, and none otherwise. */
  lemma MoreFailures(t: seq<Effect>, ws: seq<Warning>, ps: seq<int>, e: Effect) returns (qs: seq<int>)
    requires OnePerFailure(t, ws, ps) && ws == WarningsOf(t)
    ensures OnePerFailure(t + [e], WarningsOf(t + [e]), qs)
  {
    WarningsSnoc(t, e);
    if WentWrong(e) {
      var w := WarningsOf(t + [e])[|ws|];
      assert WarningsOf(t + [e]) == ws + [w] && Names(w, e);
      qs := ps + [|t|];
      AppendFailure(t, ws, ps, e, w);
    } else {
      assert WarningsOf(t + [e]) == ws;
      qs := ps;
      NoFailure(t, ws, ps, e);
    }
  }

  lemma NoFailure(t: seq<Effect>, ws: seq<Warning>, ps: seq<int>, e: Effect)
    requires OnePerFailure(t, ws, ps) && !WentWrong(e)
    ensures OnePerFailure(t + [e], ws, ps)
  {
    var all := t + [e];
    assert forall k :: 0 <= k < |t| ==> all[k] == t[k];
  }

  lemma AppendFailure(t: seq<Effect>, ws: seq<Warning>, ps: seq<int>, e: Effect, w: Warning)
    requires OnePerFailure(t, ws, ps) && Names(w, e)
    ensures OnePerFailure(t + [e], ws + [w], ps + [|t|])
  {
    var all, qs := t + [e], ps + [|t|];
    assert forall k :: 0 <= k < |t| ==> all[k] == t[k];
    assert qs[|ps|] == |t|;
    assert forall i :: 0 <= i < |ps| ==> qs[i] == ps[i];
    forall k | 0 <= k < |all| && WentWrong(all[k]) ensures k in qs {
      if k < |t| { assert k in ps; }
    }
  }

  /**
   A restart's warnings: one for each call that went wrong, in the order of the calls, then one for
   Serve's own error.
   */
  lemma RestartWarnings(es: seq<Event>) returns (ps: seq<int>, ws: seq<Warning>)
    requires Run(es).Some? && Run(es).value.log.returned.Restart?
    ensures OnePerFailure(Run(es).value.log.effects, ws, ps)
    ensures Run(es).value.log.returned.warnings == if Run(es).value.serve.failed then ws + [ServerFailed] else ws
  {
    ReachableInv(es);
    var t := Run(es).value.log.effects;
    ps := WarningsAreOnePerFailure(t);
    ws := WarningsOf(t);
    assert ws + [] == ws;
  }

  // ---- progress ----------------------------------------------------------

  function MainRank(m: Main): nat {
    match m
    case AtSelect => 15 case AtBegin => 14 case AtSpawn => 13 case AtCancel => 12 case AtStop => 11
    case AtShutdown => 10 case AtClose => 9 case AtServeReturn => 8 case AtCloseModules => 7
    case AtCloseDone => 6 case AtJoin => 5 case AtReturn => 4 case AtGate => 3 case AtPoll => 2
    case Reexec => 0 case Ended => 0
  }

  function WatcherRank(w: Watcher): nat {
    match w
    case NotStarted => 6 case FirstWait => 5 case FirstTaken => 4 case SecondWait => 3
    case SecondTaken => 2 case CallsExit => 1 case WatcherDone => 0
  }

  function Rank(s: State): nat {
    MainRank(s.main) + WatcherRank(s.watcher) + (if s.process.Alive? then 1 else 0)
  }

  /** An event that moves the shutdown on, whatever the environment does. */
  function NextInternal(s: State): Event {
    if s.main.AtJoin? && !s.watcher.WatcherDone? then
      if s.watcher.FirstWait? || s.watcher.SecondWait? then WatcherSeesDone else WatcherStep
    else MainStep(true)
  }

  /**
   Once triggered, the shutdown cannot get stuck: in every reachable state short of
   the end some goroutine can move (only Serve's own return is waited for), and a
   goroutine's move always lowers Rank, so the moves run out only at the end.
   */
  lemma ShutdownNeverStuck(es: seq<Event>)
    requires Run(es).Some? && Run(es).value.process.Alive?
    requires !Run(es).value.main.AtSelect? && !Run(es).value.main.Reexec? && !Run(es).value.main.Ended?
    ensures var s := Run(es).value;
            || (s.main.AtServeReturn? && !s.serve.done)
            || (Apply(s, NextInternal(s)).Some? && Internal(NextInternal(s)))
  {
    ReachableInv(es);
  }

  lemma InternalMovesLowerRank(es: seq<Event>, e: Event)
    requires Run(es).Some? && Internal(e) && Apply(Run(es).value, e).Some?
    ensures Rank(Apply(Run(es).value, e).value) < Rank(Run(es).value)
  {
    ReachableInv(es);
    MoveLowersRank(Run(es).value, e);
  }

  lemma MoveLowersRank(s: State, e: Event)
    requires s.watcher.NotStarted? <==> BeforeSpawn(s.main)
    requires Internal(e) && Apply(s, e).Some?
    ensures Rank(Apply(s, e).value) < Rank(s)
  {
    if e.MainStep? {
      MainStepLowersRank(s, e.ok);
    }
  }

  lemma MainStepLowersRank(s: State, ok: bool)
    requires s.watcher.NotStarted? <==> BeforeSpawn(s.main)
    requires ApplyMain(s, ok).Some?
    ensures var n := ApplyMain(s, ok).value;
      MainRank(n.main) < MainRank(s.main) && WatcherRank(n.watcher) <= WatcherRank(s.watcher) && n.process == s.process
  {
    if s.main.AtGate? || s.main.AtPoll? {
    } else if ApplySequence(s, ok).Some? {
      SequenceLowersRank(s, ok);
    }
  }

  lemma SequenceLowersRank(s: State, ok: bool)
    requires ApplySequence(s, ok).Some?
    ensures var n := ApplySequence(s, ok).value;
      MainRank(n.main) < MainRank(s.main) && n.watcher == s.watcher && n.process == s.process
  {
  }
}
