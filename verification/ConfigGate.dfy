/**
 The config file's token under three locks: "<config>.lock" (mutual exclusion, WithLock),
 "<config>.run" (held shared by every daemon that reads the file) and the pid lock of the data
 directory the file names. A daemon start reads the file and takes or adopts the run lock inside
 the first, and takes or adopts the pid lock afterwards; an unforced `pdx token generate` looks
 at the run lock, then at the pid lock, and writes, all inside the first.
 */
module ConfigGate {
  import opened Outcomes

  type Pid = nat
  type Token = nat

  datatype Process =
    /** A daemon image before the gate; run, pid: it holds that lock, handed over by its previous image. */
    | Waiting(run: bool, pid: bool)
    /** Inside the gate, file not read yet. */
    | Entered(run: bool, pid: bool)
    /** Inside the gate, file read. */
    | HasRead(token: Token, run: bool, pid: bool)
    /** Inside the gate, run-lock stage over; run: the lock is held. */
    | Ready(token: Token, run: bool, pid: bool)
    /** Past openConfigGate, before its own pid lock. over is history: the last token written since it read the file. */
    | Loaded(token: Token, run: bool, pid: bool, over: Option<Token>)
    /** Past its pid lock. */
    | Serving(token: Token, run: bool, over: Option<Token>)
    /**
     `pdx token generate`: before; inside; run lock found free; pid lock found free too; written or
     refused (still inside).
     */
    | Generator
    | Checking
    | RunChecked
    | MayWrite
    | Closing

  datatype State = State(token: Token, owner: Option<Pid>, procs: map<Pid, Process>)

  predicate IsInit(s: State) {
    s.owner == None && s.procs == map[]
  }

  datatype Event =
    | StartDaemon(p: Pid)
    | StartGenerator(p: Pid)
    | Enter(p: Pid)
    | Read(p: Pid)
    | Adopt(p: Pid, ok: bool)
    | Hold(p: Pid, ok: bool)
    | Leave(p: Pid)
    | SkipGate(p: Pid)                              // the gate cannot be entered at all: read the file without it
    | PidAdoptFails(p: Pid)                         // the handed-over pid lock is closed
    | PidLock(p: Pid)                               // adopted, or taken while nobody holds it
    | Restart(p: Pid, kept: bool, pidKept: bool)    // in-place exec; which descriptors survived it
    | CheckRun(p: Pid, refuse: bool)                // refuse: a probe error or another prober
    | CheckPid(p: Pid, opens: bool, refuse: bool)   // opens: pdx.pid could be opened; refuse: flock failed otherwise
    | Write(p: Pid, token: Token)
    | GiveUp(p: Pid)                                // the token could not be made or written
    | Die(p: Pid)

  predicate InGate(k: Process) {
    k.Entered? || k.HasRead? || k.Ready? || k.Checking? || k.RunChecked? || k.MayWrite? || k.Closing?
  }

  predicate Booting(k: Process) {
    k.Waiting? || k.Entered? || k.HasRead? || k.Ready? || k.Loaded?
  }

  predicate HoldsRun(k: Process) {
    (Booting(k) || k.Serving?) && k.run
  }

  predicate HoldsPid(k: Process) {
    k.Serving? || (Booting(k) && k.pid)
  }

  ghost predicate RunLockFree(s: State) {
    forall q :: q in s.procs ==> !HoldsRun(s.procs[q])
  }

  ghost predicate PidLockFree(s: State) {
    forall q :: q in s.procs ==> !HoldsPid(s.procs[q])
  }

  /** What a write of t means for a process: one that has read the file outside or before is overtaken. */
  function Overtake(k: Process, t: Token): Process {
    match k
    case Loaded(token, run, pid, _) => Loaded(token, run, pid, Some(t))
    case Serving(token, run, _) => Serving(token, run, Some(t))
    case _ => k
  }

  function OvertakeAll(procs: map<Pid, Process>, t: Token): map<Pid, Process> {
    map q | q in procs :: Overtake(procs[q], t)
  }

  function With(s: State, p: Pid, k: Process): State {
    s.(procs := s.procs[p := k])
  }

  ghost function Apply(s: State, e: Event): Option<State> {
    if e.StartDaemon? || e.StartGenerator? then
      if e.p in s.procs then None
      else Some(With(s, e.p, if e.StartDaemon? then Waiting(false, false) else Generator))
    else if e.p !in s.procs then None
    else
      var k := s.procs[e.p];
      match e
      case Die(p) =>
        Some(s.(procs := s.procs - {p}, owner := if s.owner == Some(p) then None else s.owner))
      case Enter(p) =>
        if s.owner.Some? then None
        else if k.Waiting? then Some(With(s, p, Entered(k.run, k.pid)).(owner := Some(p)))
        else if k.Generator? then Some(With(s, p, Checking).(owner := Some(p)))
        else None
      case Read(p) =>
        if k.Entered? then Some(With(s, p, HasRead(s.token, k.run, k.pid))) else None
      case Adopt(p, ok) =>
        // a failed adoption closes the inherited descriptor
        if k.HasRead? && k.run
        then Some(With(s, p, if ok then Ready(k.token, true, k.pid) else HasRead(k.token, false, k.pid)))
        else None
      case Hold(p, ok) =>
        if k.HasRead? && !k.run then Some(With(s, p, Ready(k.token, ok, k.pid))) else None
      case Leave(p) =>
        if k.Ready? then Some(With(s, p, Loaded(k.token, k.run, k.pid, None)).(owner := None))
        else if k.Closing? then Some(s.(owner := None, procs := s.procs - {p}))
        else None
      case SkipGate(p) =>
        if k.Waiting? then Some(With(s, p, Loaded(s.token, k.run, k.pid, None))) else None
      case PidAdoptFails(p) =>
        if k.Loaded? && k.pid then Some(With(s, p, k.(pid := false))) else None
      case PidLock(p) =>
        if k.Loaded? && (k.pid || PidLockFree(s)) then Some(With(s, p, Serving(k.token, k.run, k.over))) else None
      case Restart(p, kept, pidKept) =>
        if k.Serving? then Some(With(s, p, Waiting(k.run && kept, pidKept))) else None
      case CheckRun(p, refuse) =>
        if k.Checking? then Some(With(s, p, if RunLockFree(s) && !refuse then RunChecked else Closing)) else None
      case CheckPid(p, opens, refuse) =>
        // isDaemonRunning answers "not running" when it cannot open the pid file
        if k.RunChecked?
        then Some(With(s, p, if !opens || (PidLockFree(s) && !refuse) then MayWrite else Closing))
        else None
      case GiveUp(p) =>
        if k.MayWrite? then Some(With(s, p, Closing)) else None
      case Write(p, t) =>
        if k.MayWrite? then Some(s.(token := t, procs := OvertakeAll(s.procs, t)[p := Closing])) else None
      case _ => None
  }

  ghost function RunFrom(s: State, es: seq<Event>): Option<State> {
    if es == [] then Some(s)
    else
      match RunFrom(s, es[..|es| - 1])
      case None => None
      case Some(m) => Apply(m, es[|es| - 1])
  }

  ghost predicate Reachable(s: State) {
    exists i, es :: IsInit(i) && RunFrom(i, es) == Some(s)
  }

  /** The token a process that has read the file would find in it now. */
  function Current(k: Process): Token
    requires k.Loaded? || k.Serving?
  {
    if k.over.Some? then k.over.value else k.token
  }

  ghost predicate KindInv(s: State, p: Pid)
    requires p in s.procs
  {
    var k := s.procs[p];
    && (InGate(k) ==> s.owner == Some(p))
    && (k.RunChecked? || k.MayWrite? ==> RunLockFree(s))
    && (k.HasRead? || k.Ready? ==> k.token == s.token)
    && (k.Loaded? || k.Serving? ==> Current(k) == s.token && (k.run ==> k.over == None))
  }

  ghost predicate Inv(s: State) {
    forall p :: p in s.procs ==> KindInv(s, p)
  }

  lemma ApplyKeepsInv(s: State, e: Event)
    requires Inv(s) && Apply(s, e).Some?
    ensures Inv(Apply(s, e).value)
  {
    var n := Apply(s, e).value;
    if e.Write? {
      WriteKeepsInv(s, e.p, e.token);
    } else {
      forall q | q in n.procs ensures KindInv(n, q) {
        StepKeepsKind(s, e, q);
      }
    }
  }

  lemma StepKeepsKind(s: State, e: Event, q: Pid)
    requires Inv(s) && Apply(s, e).Some? && !e.Write? && q in Apply(s, e).value.procs
    ensures KindInv(Apply(s, e).value, q)
  {
    if q in s.procs { assert KindInv(s, q); }
    if e.p in s.procs { assert KindInv(s, e.p); }
  }

  lemma WriteKeepsInv(s: State, p: Pid, t: Token)
    requires Inv(s) && Apply(s, Write(p, t)).Some?
    ensures Inv(Apply(s, Write(p, t)).value)
  {
    var n := Apply(s, Write(p, t)).value;
    assert KindInv(s, p);
    forall q | q in n.procs ensures KindInv(n, q) {
      assert KindInv(s, q);
    }
  }

  lemma {:induction false} RunKeepsInv(i: State, es: seq<Event>)
    requires IsInit(i)
    ensures RunFrom(i, es).Some? ==> Inv(RunFrom(i, es).value)
  {
    if es != [] && RunFrom(i, es).Some? {
      RunKeepsInv(i, es[..|es| - 1]);
      ApplyKeepsInv(RunFrom(i, es[..|es| - 1]).value, es[|es| - 1]);
    }
  }

  lemma ReachableInv(s: State)
    requires Reachable(s)
    ensures Inv(s)
  {
    var i, es :| IsInit(i) && RunFrom(i, es) == Some(s);
    RunKeepsInv(i, es);
  }

  /** The token is never written while a process that holds the run lock lives. */
  lemma NoWriteUnderADaemon(s: State, p: Pid, t: Token, q: Pid)
    requires Reachable(s) && Apply(s, Write(p, t)).Some? && q in s.procs
    ensures !HoldsRun(s.procs[q])
  {
    ReachableInv(s);
    assert KindInv(s, p);
  }

  /** So the token each daemon with a run lock loaded is the file's, restarts included. */
  lemma LoadedTokenStaysCurrent(s: State, p: Pid)
    requires Reachable(s) && p in s.procs && (s.procs[p].Loaded? || s.procs[p].Serving?) && s.procs[p].run
    ensures s.procs[p].token == s.token
  {
    ReachableInv(s);
    assert KindInv(s, p);
  }

  // ---- when a daemon without the run lock is left behind ---------------------------

  predicate NewImage(e: Event, p: Pid) {
    e.p == p && (e.StartDaemon? || e.Read? || e.SkipGate? || e.Restart? || e.Die?)
  }

  /** At r the image p is now read the file. */
  ghost predicate ReadAt(es: seq<Event>, p: Pid, r: int) {
    && 0 <= r < |es| && (es[r] == Read(p) || es[r] == SkipGate(p))
    && forall k :: r < k < |es| ==> !NewImage(es[k], p)
  }

  /** At l the image p is now took its pid lock. */
  ghost predicate LockAt(es: seq<Event>, p: Pid, l: int) {
    && 0 <= l < |es| && es[l] == PidLock(p)
    && forall k :: l < k < |es| ==> !NewImage(es[k], p)
  }

  ghost predicate LastWriteAt(es: seq<Event>, w: int) {
    0 <= w < |es| && es[w].Write? && forall k :: w < k < |es| ==> !es[k].Write?
  }

  /** g's look at the pid lock. */
  predicate LooksAs(e: Event, g: Pid) {
    e.CheckPid? && e.p == g
  }

  /** The look saw nothing: the pid file could not be opened. */
  predicate Blind(e: Event) {
    e.CheckPid? && !e.opens
  }

  /** At c generator g looked, and has done nothing since. */
  ghost predicate PassedAt(es: seq<Event>, g: Pid, c: int) {
    && 0 <= c < |es| && LooksAs(es[c], g)
    && forall k :: c < k < |es| ==> es[k].p != g
  }

  /** The last write came after p's read, by a generator whose look at the pid lock was at c. */
  ghost predicate Overtaken(es: seq<Event>, p: Pid, r: int, c: int, w: int) {
    && ReadAt(es, p, r) && LastWriteAt(es, w) && r < w
    && 0 <= c < w && LooksAs(es[c], es[w].p) && (forall k :: c < k < w ==> es[k].p != es[w].p)
  }

  lemma {:induction false} LoadedWasRead(i: State, es: seq<Event>, p: Pid)
    requires IsInit(i) && RunFrom(i, es).Some? && p in RunFrom(i, es).value.procs
    requires var k := RunFrom(i, es).value.procs[p]; k.HasRead? || k.Ready? || k.Loaded? || k.Serving?
    ensures exists r :: ReadAt(es, p, r)
  {
    var n := |es| - 1;
    var init, e := es[..n], es[n];
    assert forall k :: 0 <= k < n ==> es[k] == init[k];
    if e == Read(p) || e == SkipGate(p) {
      assert ReadAt(es, p, n);
    } else {
      LoadedWasRead(i, init, p);
      var r :| ReadAt(init, p, r);
      assert ReadAt(es, p, r);
    }
  }

  lemma {:induction false} ServingWasLocked(i: State, es: seq<Event>, p: Pid)
    requires IsInit(i) && RunFrom(i, es).Some? && p in RunFrom(i, es).value.procs
    requires RunFrom(i, es).value.procs[p].Serving?
    ensures exists l :: LockAt(es, p, l)
  {
    var n := |es| - 1;
    var init, e := es[..n], es[n];
    assert forall k :: 0 <= k < n ==> es[k] == init[k];
    if e == PidLock(p) {
      assert LockAt(es, p, n);
    } else {
      ServingWasLocked(i, init, p);
      var l :| LockAt(init, p, l);
      assert LockAt(es, p, l);
    }
  }

  lemma {:induction false} WriterHasPassed(i: State, es: seq<Event>, g: Pid)
    requires IsInit(i) && RunFrom(i, es).Some? && g in RunFrom(i, es).value.procs
    requires RunFrom(i, es).value.procs[g].MayWrite?
    ensures exists c :: PassedAt(es, g, c)
  {
    var n := |es| - 1;
    var init, e := es[..n], es[n];
    assert forall k :: 0 <= k < n ==> es[k] == init[k];
    if e.p == g {
      assert PassedAt(es, g, n);
    } else {
      WriterHasPassed(i, init, g);
      var c :| PassedAt(init, g, c);
      assert PassedAt(es, g, c);
    }
  }

  /**
   A generator that may still write looked before any daemon that is serving took its pid lock, or
   could not open the pid file.
   */
  lemma {:induction false} PassedBeforeLock(i: State, es: seq<Event>, g: Pid, p: Pid, c: int, l: int)
    requires IsInit(i) && RunFrom(i, es).Some? && g in RunFrom(i, es).value.procs && p in RunFrom(i, es).value.procs
    requires RunFrom(i, es).value.procs[g].MayWrite? && RunFrom(i, es).value.procs[p].Serving?
    requires PassedAt(es, g, c) && LockAt(es, p, l)
    ensures c < l || Blind(es[c])
  {
    var n := |es| - 1;
    var init, e := es[..n], es[n];
    assert forall k :: 0 <= k < n ==> es[k] == init[k];
    if c < n && l < n {
      assert LockAt(init, p, l) && PassedAt(init, g, c);
      StillServing(i, init, p, l);
      PassedBeforeLock(i, init, g, p, c, l);
    }
  }

  lemma {:induction false} StillServing(i: State, es: seq<Event>, p: Pid, l: int)
    requires IsInit(i) && RunFrom(i, es).Some? && LockAt(es, p, l)
    ensures p in RunFrom(i, es).value.procs && RunFrom(i, es).value.procs[p].Serving?
  {
    var n := |es| - 1;
    if l < n {
      var init := es[..n];
      assert forall k :: 0 <= k < n ==> es[k] == init[k];
      assert LockAt(init, p, l);
      StillServing(i, init, p, l);
    }
  }

  lemma {:induction false} TokenIsLastWritten(i: State, es: seq<Event>, w: int)
    requires IsInit(i) && RunFrom(i, es).Some? && LastWriteAt(es, w)
    ensures RunFrom(i, es).value.token == es[w].token
  {
    var n := |es| - 1;
    if w < n {
      var init := es[..n];
      assert forall k :: 0 <= k < n ==> es[k] == init[k];
      assert LastWriteAt(init, w);
      TokenIsLastWritten(i, init, w);
    }
  }

  ghost function OverOf(i: State, es: seq<Event>, p: Pid): Option<Token>
    requires RunFrom(i, es).Some?
  {
    var s := RunFrom(i, es).value;
    if p in s.procs && (s.procs[p].Loaded? || s.procs[p].Serving?) then s.procs[p].over else None
  }

  /** Whoever was overtaken was so by a write after its read, whose generator looked at the pid lock before it wrote. */
  lemma {:induction false} OverIsOvertaken(i: State, es: seq<Event>, p: Pid)
    requires IsInit(i) && RunFrom(i, es).Some? && OverOf(i, es, p).Some?
    ensures exists r, c, w :: Overtaken(es, p, r, c, w)
  {
    var n := |es| - 1;
    var init, e := es[..n], es[n];
    assert forall k :: 0 <= k < n ==> es[k] == init[k];
    if e.Write? {
      OvertakenNow(i, es, p);
    } else {
      assert OverOf(i, init, p).Some? && !NewImage(e, p);
      OverIsOvertaken(i, init, p);
      var r, c, w :| Overtaken(init, p, r, c, w);
      assert ReadAt(es, p, r) && LastWriteAt(es, w);
      assert Overtaken(es, p, r, c, w);
    }
  }

  lemma OvertakenNow(i: State, es: seq<Event>, p: Pid)
    requires IsInit(i) && RunFrom(i, es).Some? && OverOf(i, es, p).Some? && es != [] && es[|es| - 1].Write?
    ensures exists r, c, w :: Overtaken(es, p, r, c, w)
  {
    var n := |es| - 1;
    var init, g := es[..n], es[n].p;
    assert forall k :: 0 <= k < n ==> es[k] == init[k];
    LoadedWasRead(i, es, p);
    var r :| ReadAt(es, p, r);
    WriterHasPassed(i, init, g);
    var c :| PassedAt(init, g, c);
    assert Overtaken(es, p, r, c, n);
  }

  /** ... and if it is serving, before it took its own, or without being able to open the pid file. */
  lemma {:induction false} LookedBeforeLock(i: State, es: seq<Event>, p: Pid, l: int)
    requires IsInit(i) && RunFrom(i, es).Some? && LockAt(es, p, l) && OverOf(i, es, p).Some?
    ensures exists r, c, w :: Overtaken(es, p, r, c, w) && (c < l || Blind(es[c]))
  {
    var n := |es| - 1;
    var init, e := es[..n], es[n];
    assert forall k :: 0 <= k < n ==> es[k] == init[k];
    if l == n {
      OverIsOvertaken(i, es, p);
    } else {
      assert LockAt(init, p, l);
      StillServing(i, init, p, l);
      if e.Write? {
        LookedNow(i, es, p, l);
      } else {
        LookedBeforeLock(i, init, p, l);
        var r, c, w :| Overtaken(init, p, r, c, w) && (c < l || Blind(init[c]));
        assert ReadAt(es, p, r) && LastWriteAt(es, w);
        assert Overtaken(es, p, r, c, w);
      }
    }
  }

  lemma LookedNow(i: State, es: seq<Event>, p: Pid, l: int)
    requires IsInit(i) && RunFrom(i, es).Some? && es != [] && es[|es| - 1].Write? && OverOf(i, es, p).Some?
    requires LockAt(es[..|es| - 1], p, l)
    ensures exists r, c, w :: Overtaken(es, p, r, c, w) && (c < l || Blind(es[c]))
  {
    var n := |es| - 1;
    var init, g := es[..n], es[n].p;
    assert forall k :: 0 <= k < n ==> es[k] == init[k];
    StillServing(i, init, p, l);
    LoadedWasRead(i, es, p);
    var r :| ReadAt(es, p, r);
    WriterHasPassed(i, init, g);
    var c :| PassedAt(init, g, c);
    PassedBeforeLock(i, init, g, p, c, l);
    assert Overtaken(es, p, r, c, n);
  }

  /**
   The last write fell after p read the file and wrote another token than p has, and its
   generator looked at the pid lock before p took it, or could not open the pid file.
   */
  ghost predicate SlippedIn(es: seq<Event>, p: Pid, token: Token) {
    exists r, c, w, l ::
      Overtaken(es, p, r, c, w) && LockAt(es, p, l) && (c < l || Blind(es[c])) && es[w].token != token
  }

  /**
   Over every interleaving: a daemon past its pid lock has an old token if and only if it has no run
   lock and a write slipped in.
   */
  lemma StaleIff(i: State, es: seq<Event>, p: Pid)
    requires IsInit(i) && RunFrom(i, es).Some?
    requires p in RunFrom(i, es).value.procs && RunFrom(i, es).value.procs[p].Serving?
    ensures var s := RunFrom(i, es).value;
      s.procs[p].token != s.token <==> !s.procs[p].run && SlippedIn(es, p, s.procs[p].token)
  {
    var s := RunFrom(i, es).value;
    RunKeepsInv(i, es);
    assert KindInv(s, p);
    if s.procs[p].token != s.token {
      ServingWasLocked(i, es, p);
      var l :| LockAt(es, p, l);
      LookedBeforeLock(i, es, p, l);
      var r, c, w :| Overtaken(es, p, r, c, w) && (c < l || Blind(es[c]));
      TokenIsLastWritten(i, es, w);
    }
    if SlippedIn(es, p, s.procs[p].token) {
      var r, c, w, l :|
        Overtaken(es, p, r, c, w) && LockAt(es, p, l) && (c < l || Blind(es[c])) && es[w].token != s.procs[p].token;
      TokenIsLastWritten(i, es, w);
    }
  }

  // ---- what the gate and the checks do let through ---------------------------------

  /** A daemon that enters the gate and can take or adopt the run lock leaves with the file's token and the lock. */
  lemma GateGivesRunLock(s: State, p: Pid)
    requires p in s.procs && s.procs[p].Waiting? && s.owner.None?
    ensures var take := if s.procs[p].run then Adopt(p, true) else Hold(p, true);
            RunFrom(s, [Enter(p), Read(p), take, Leave(p)])
              == Some(With(s, p, Loaded(s.token, true, s.procs[p].pid, None)))
  {
    var take := if s.procs[p].run then Adopt(p, true) else Hold(p, true);
    var k := s.procs[p];
    var a := Apply(s, Enter(p)).value;
    var b := Apply(a, Read(p)).value;
    var c := Apply(b, take).value;
    assert c.procs[p] == Ready(s.token, true, k.pid);
    var d := Apply(c, Leave(p)).value;
    assert d.procs == s.procs[p := Loaded(s.token, true, k.pid, None)];
    FourSteps(s, Enter(p), a, Read(p), b, take, c, Leave(p), d);
  }

  lemma FourSteps(s: State, e: Event, a: State, f: Event, b: State, g: Event, c: State, h: Event, d: State)
    requires Apply(s, e) == Some(a) && Apply(a, f) == Some(b) && Apply(b, g) == Some(c) && Apply(c, h) == Some(d)
    ensures RunFrom(s, [e, f, g, h]) == Some(d)
  {
    assert [e, f, g, h][..3] == [e, f, g] && [e, f, g][..2] == [e, f] && [e, f][..1] == [e] && [e][..0] == [];
    assert RunFrom(s, [e]) == Some(a);
    assert RunFrom(s, [e, f]) == Some(b);
    assert RunFrom(s, [e, f, g]) == Some(c);
  }

  /** A generator in the gate is let through to its write exactly when both locks look free to it. */
  lemma GeneratorIsLetThrough(s: State, g: Pid, refuse: bool, opens: bool, deny: bool)
    requires g in s.procs && s.procs[g].Checking?
    ensures Apply(s, CheckRun(g, refuse)).Some?
    ensures Apply(Apply(s, CheckRun(g, refuse)).value, CheckPid(g, opens, deny)).Some? <==> RunLockFree(s) && !refuse
    ensures RunLockFree(s) && !refuse ==>
      var c := Apply(Apply(s, CheckRun(g, refuse)).value, CheckPid(g, opens, deny)).value;
      && g in c.procs && (c.procs[g] == MayWrite <==> !opens || (PidLockFree(s) && !deny))
      && (c.procs[g] == MayWrite ==> Apply(c, Write(g, s.token + 1)).Some?)
  {
    var a := Apply(s, CheckRun(g, refuse)).value;
    if RunLockFree(s) && !refuse {
      assert a.procs[g] == RunChecked;
      assert PidLockFree(a) <==> PidLockFree(s) by {
        forall q | q in s.procs ensures HoldsPid(a.procs[q]) <==> HoldsPid(s.procs[q]) {
        }
      }
    }
  }

  // ---- the window is real ------------------------------------------------------------

  lemma ReachableStep(s: State, e: Event)
    requires Reachable(s) && Apply(s, e).Some?
    ensures Reachable(Apply(s, e).value)
  {
    var i, es :| IsInit(i) && RunFrom(i, es) == Some(s);
    assert (es + [e])[..|es|] == es;
    assert RunFrom(i, es + [e]) == Apply(s, e);
  }

  /** A daemon that could not enter the gate has read the file, and a generator has found no daemon. */
  lemma WindowIsOpen() returns (s: State)
    ensures Reachable(s) && s.token == 1
    ensures s.procs == map[0 := Loaded(1, false, false, None), 1 := MayWrite]
  {
    var s0 := State(1, None, map[]);
    assert IsInit(s0) && RunFrom(s0, []) == Some(s0);
    ReachableStep(s0, StartDaemon(0));
    var s1 := Apply(s0, StartDaemon(0)).value;
    ReachableStep(s1, SkipGate(0));
    var s2 := Apply(s1, SkipGate(0)).value;
    assert s2.procs == map[0 := Loaded(1, false, false, None)];
    s := GeneratorLooks(s2);
  }

  lemma GeneratorLooks(s2: State) returns (s: State)
    requires Reachable(s2) && s2.owner == None && s2.token == 1 && s2.procs == map[0 := Loaded(1, false, false, None)]
    ensures Reachable(s) && s.token == 1
    ensures s.procs == map[0 := Loaded(1, false, false, None), 1 := MayWrite]
  {
    ReachableStep(s2, StartGenerator(1));
    var s3 := Apply(s2, StartGenerator(1)).value;
    ReachableStep(s3, Enter(1));
    var s4 := Apply(s3, Enter(1)).value;
    assert s4.procs == map[0 := Loaded(1, false, false, None), 1 := Checking];
    s := GeneratorChecks(s4);
  }

  lemma GeneratorChecks(s4: State) returns (s: State)
    requires Reachable(s4) && s4.token == 1 && s4.procs == map[0 := Loaded(1, false, false, None), 1 := Checking]
    ensures Reachable(s) && s.token == 1
    ensures s.procs == map[0 := Loaded(1, false, false, None), 1 := MayWrite]
  {
    assert RunLockFree(s4);
    ReachableStep(s4, CheckRun(1, false));
    var s5 := Apply(s4, CheckRun(1, false)).value;
    assert PidLockFree(s5);
    ReachableStep(s5, CheckPid(1, true, false));
    s := Apply(s5, CheckPid(1, true, false)).value;
  }

  /**
   The condition is met: a write between the ungated read and the pid lock leaves a serving daemon with
   an old token.
   */
  lemma StaleWithoutRunLock()
    ensures exists s, p ::
              && Reachable(s) && p in s.procs
              && s.procs[p].Serving? && !s.procs[p].run && s.procs[p].token != s.token
  {
    var s := WindowIsOpen();
    ReachableStep(s, Write(1, 2));
    var a := Apply(s, Write(1, 2)).value;
    assert a.procs == map[0 := Loaded(1, false, false, Some(2)), 1 := Closing];
    assert PidLockFree(a);
    ReachableStep(a, PidLock(0));
    var b := Apply(a, PidLock(0)).value;
    assert b.procs[0] == Serving(1, false, Some(2)) && b.token == 2;
  }

  /** The write may even come after the pid lock, by a generator that looked before: nothing stops it there. */
  lemma WriteUnderAServingDaemon()
    ensures exists s: State, p: Pid, e: Event ::
              && Reachable(s) && p in s.procs && s.procs[p].Serving? && s.procs[p].token == s.token
              && e.Write? && Apply(s, e).Some? && e.token != s.token
  {
    var s := WindowIsOpen();
    assert PidLockFree(s);
    ReachableStep(s, PidLock(0));
    var a := Apply(s, PidLock(0)).value;
    assert a.procs[0] == Serving(1, false, None) && a.procs[1] == MayWrite;
    assert Apply(a, Write(1, 2)).Some?;
  }

  /** g's look at the pid lock is still to come, and p is serving with the current token. */
  ghost predicate BlindWindow(s: State, p: Pid, g: Pid) {
    && p in s.procs && s.procs[p].Serving? && s.procs[p].token == s.token
    && g in s.procs && s.procs[g] == RunChecked && Apply(s, CheckPid(g, false, false)).Some?
    && Apply(Apply(s, CheckPid(g, false, false)).value, Write(g, s.token + 1)).Some?
  }

  /**
   A look that cannot open the pid file passes under a serving daemon, and the write after it leaves
   the daemon behind.
   */
  lemma BlindLookPasses()
    ensures exists s: State, p: Pid, g: Pid :: Reachable(s) && BlindWindow(s, p, g)
  {
    var c := RunCheckedUnderServing();
    var d := Apply(c, CheckPid(1, false, false)).value;
    assert d.procs[1] == MayWrite;
    assert Apply(d, Write(1, 2)).Some?;
    assert BlindWindow(c, 0, 1);
  }

  lemma RunCheckedUnderServing() returns (c: State)
    ensures Reachable(c) && c.token == 1 && c.procs == map[0 := Serving(1, false, None), 1 := RunChecked]
  {
    var s := ServingUngated();
    var b := GeneratorEnters(s);
    assert RunLockFree(b);
    ReachableStep(b, CheckRun(1, false));
    c := Apply(b, CheckRun(1, false)).value;
  }

  lemma GeneratorEnters(s: State) returns (b: State)
    requires Reachable(s) && s.owner == None && s.token == 1 && s.procs == map[0 := Serving(1, false, None)]
    ensures Reachable(b) && b.token == 1 && b.procs == map[0 := Serving(1, false, None), 1 := Checking]
  {
    ReachableStep(s, StartGenerator(1));
    var a := Apply(s, StartGenerator(1)).value;
    ReachableStep(a, Enter(1));
    b := Apply(a, Enter(1)).value;
  }

  lemma ServingUngated() returns (s: State)
    ensures Reachable(s) && s.token == 1 && s.owner == None && s.procs == map[0 := Serving(1, false, None)]
  {
    var s0 := State(1, None, map[]);
    assert IsInit(s0) && RunFrom(s0, []) == Some(s0);
    ReachableStep(s0, StartDaemon(0));
    var s1 := Apply(s0, StartDaemon(0)).value;
    ReachableStep(s1, SkipGate(0));
    var s2 := Apply(s1, SkipGate(0)).value;
    assert PidLockFree(s2);
    ReachableStep(s2, PidLock(0));
    s := Apply(s2, PidLock(0)).value;
  }

  // ---- openConfigGate ----------------------------------------------------

  /** What one config.WithLock(gate, enter) comes to. */
  datatype Attempt =
    | Timeout                                       // ErrLockTimeout, enter not called
    | CannotEnter                                   // another error, enter not called
    | LoadFails
    | Inside(token: Token, adopts: bool, holds: bool)

  datatype Gate =
    | Refused                                       // "being written by another process"
    | LoadError
    | WithoutGate                                   // read outside the gate, no run lock
    | Gated(token: Token, run: bool)                // run: adopted or taken

  function Outcome(a: Attempt, handed: bool): Gate {
    match a
    case Timeout => Refused
    case CannotEnter => WithoutGate
    case LoadFails => LoadError
    case Inside(token, adopts, holds) => Gated(token, (handed && adopts) || holds)
  }

  /** The attempt that decides: the first that is no timeout, or the last the clock allows. */
  function Decisive(attempts: nat -> Attempt, from: nat, allowed: nat): (i: nat)
    ensures from <= i <= from + allowed
    ensures forall j :: from <= j < i ==> attempts(j) == Timeout
    ensures attempts(i) == Timeout ==> i == from + allowed
    decreases allowed
  {
    if attempts(from) != Timeout || allowed == 0 then from else Decisive(attempts, from + 1, allowed - 1)
  }

  /**
   allowed is how many more attempts start before restartDeadline. Only a restart whose
   hand-over looks real waits past its first timeout; a start that timed out throughout is
   refused and never reads the file outside the gate.
   */
  method OpenConfigGate(handed: bool, looksReal: bool, attempts: nat -> Attempt, allowed: nat)
      returns (g: Gate, tried: nat)
    ensures tried >= 1 && g == Outcome(attempts(tried - 1), handed)
    ensures tried - 1 == Decisive(attempts, 0, if handed && looksReal then allowed else 0)
    ensures g.Refused? <==> forall j :: 0 <= j < tried ==> attempts(j) == Timeout
    ensures g.WithoutGate? <==> attempts(tried - 1) == CannotEnter
    ensures g.LoadError? <==> attempts(tried - 1) == LoadFails
    ensures attempts(tried - 1).Inside? ==>
      g.Gated? && g.token == attempts(tried - 1).token
      && (g.run <==> (handed && attempts(tried - 1).adopts) || attempts(tried - 1).holds)
  {
    var entered, loadErr, run, token := false, false, false, 0;
    var werr := attempts(0);
    tried := 1;
    if handed && werr.Timeout? && looksReal {
      var left := allowed;
      while werr.Timeout? && left > 0
        invariant 1 <= tried && tried - 1 + left == allowed && werr == attempts(tried - 1)
        invariant forall j :: 0 <= j < tried - 1 ==> attempts(j) == Timeout
        invariant Decisive(attempts, 0, allowed) == Decisive(attempts, tried - 1, left)
        decreases left
      {
        werr := attempts(tried);
        tried := tried + 1;
        left := left - 1;
      }
    }
    match werr {
      case LoadFails => entered, loadErr := true, true;
      case Inside(t, adopts, holds) =>
        entered, token := true, t;
        run := (handed && adopts) || holds;
      case _ =>
    }
    if loadErr {
      g := LoadError;
    } else if !entered && werr.Timeout? {
      g := Refused;
    } else if !entered {
      g := WithoutGate;
    } else {
      g := Gated(token, run);
    }
  }
}
