/**
 The pid lock of one data directory and the run lock of one config file, across
 starts, status probes, forks, in-place re-execs, failed execs, stops and crashes.

 The kernel side: an open file description (Ofd) carries the flock; descriptors
 (Slot: process and number) point at it and carry close-on-exec; an exec closes
 the close-on-exec ones and keeps the rest; a fork copies the table; a lock goes
 when the last descriptor on its description does. The process side: the steps of
 openConfigGate's run-lock half, adoptPidLock / mustAcquirePidLock, reexec under
 syscall.ForkLock, releasePidLock and isDaemonRunning.
 */
module LockHandoff {
  import opened Outcomes

  type Pid = nat
  type Fd = nat
  type Ofd = nat

  datatype File = PidFile | RunFile
  datatype Lock = Unlocked | Shared | Exclusive
  datatype Slot = Slot(pid: Pid, fd: Fd)
  datatype Desc = Desc(ofd: Ofd, cloexec: bool)

  /** An open file description: its file, the descriptor it was opened as, its flock. */
  datatype OpenFile = OpenFile(file: File, home: Slot, lock: Lock)

  /** What the last lock granted on a file was. */
  datatype Granted = Nothing | ToSharers | ToOwner(ofd: Ofd)

  /** What became of one descriptor in reexec's clear loop. */
  datatype Clearing = Todo | Kept | Lost

  datatype Kind =
    /**
     A new image before the pid-lock gate; inherited: pidEnv names a descriptor the old image kept open
     across the exec.
     */
    | Boot(pidEnv: Option<Fd>, inherited: bool, runEnv: Option<Fd>, run: Option<Fd>, runDone: bool, tries: nat)
    /** acquirePidLock opened the file and has not tried the lock yet. */
    | Opened(pid: Fd, run: Option<Fd>, tries: nat)
    /** Past the gate. */
    | Serving(pid: Fd, run: Option<Fd>)
    /** In reexec, holding ForkLock. */
    | Handing(pid: Fd, run: Option<Fd>, pidClear: Clearing, runClear: Clearing)
    /** execFn returned; ForkLock still held. */
    | ExecFailed(pid: Fd, run: Option<Fd>, restored: bool)
    /** ForkLock released after a failed exec, before exit(1). */
    | Dying(pid: Fd, run: Option<Fd>)
    /** releasePidLock ran. */
    | Released
    /** isDaemonRunning: opened, shared lock taken, finished. */
    | Probing(fd: Fd)
    | Probed(fd: Fd)
    | ProbeDone
    /** A child; guarded are the lock descriptions its parent held past the gate when it forked. */
    | Child(guarded: set<Ofd>, execed: bool)

  datatype State = State(
    kinds: map<Pid, Kind>,
    fds: map<Slot, Desc>,
    open: map<Ofd, OpenFile>,
    next: Ofd,
    granted: File -> Granted)

  const INIT := State(map[], map[], map[], 0, (f: File) => Nothing)

  const PID_LOCK_ATTEMPTS := 5

  predicate PastGate(k: Kind) { k.Serving? || k.Handing? || k.ExecFailed? || k.Dying? }
  predicate ForkLocked(k: Kind) { k.Handing? || k.ExecFailed? }
  predicate IsImage(k: Kind) { k.Boot? || k.Opened? || PastGate(k) }

  datatype Event =
    | Start(p: Pid, pidEnv: Option<Fd>, runEnv: Option<Fd>)
    | RunAdopt(p: Pid, statOk: bool)
    | RunHold(p: Pid, fd: Fd)
    | RunSkip(p: Pid)
    | PidAdopt(p: Pid, statOk: bool)
    | PidOpen(p: Pid, fd: Fd)
    | PidFlock(p: Pid)
    | Fork(p: Pid, child: Pid)
    | ChildExec(p: Pid)
    | TakeForkLock(p: Pid)
    | ClearPid(p: Pid, ok: bool)
    | ClearRun(p: Pid, ok: bool)
    | Exec(p: Pid, ok: bool)
    | Restore(p: Pid)
    | UnlockFork(p: Pid)
    | Release(p: Pid)
    | ProbeOpen(p: Pid, fd: Fd)
    | ProbeFlock(p: Pid)
    | ProbeUnlock(p: Pid)
    | Exit(p: Pid)            // a crash, a kill or a return, at any point

  // ---- the kernel --------------------------------------------------------

  ghost predicate IsOpen(s: State, a: Slot) {
    a in s.fds && s.fds[a].ofd in s.open
  }

  ghost function FileOf(s: State, a: Slot): OpenFile
    requires IsOpen(s, a)
  {
    s.open[s.fds[a].ofd]
  }

  predicate Compatible(held: Lock, want: Lock) {
    held.Unlocked? || want.Unlocked? || (held.Shared? && want.Shared?)
  }

  /** flock(LOCK_NB) on a would succeed. */
  ghost predicate CanLock(s: State, a: Slot, want: Lock)
    requires IsOpen(s, a)
  {
    forall b :: IsOpen(s, b) && FileOf(s, b).file == FileOf(s, a).file && s.fds[b].ofd != s.fds[a].ofd
      ==> Compatible(FileOf(s, b).lock, want)
  }

  ghost function Open(s: State, a: Slot, file: File): State {
    s.(fds := s.fds[a := Desc(s.next, true)],
       open := s.open[s.next := OpenFile(file, a, Unlocked)], next := s.next + 1)
  }

  function Grant(g: File -> Granted, file: File, to: Granted): File -> Granted {
    f => if f == file then to else g(f)
  }

  ghost function SetLock(s: State, a: Slot, lock: Lock): State
    requires IsOpen(s, a)
  {
    var o := s.fds[a].ofd;
    s.(open := s.open[o := s.open[o].(lock := lock)],
       granted := if lock.Unlocked? then s.granted
                  else Grant(s.granted, s.open[o].file, if lock.Exclusive? then ToOwner(o) else ToSharers))
  }

  ghost function Close(s: State, a: Slot): State {
    s.(fds := s.fds - {a})
  }

  ghost function SetFlag(s: State, a: Slot, cloexec: bool): State
    requires a in s.fds
  {
    s.(fds := s.fds[a := s.fds[a].(cloexec := cloexec)])
  }

  ghost function SetKind(s: State, p: Pid, k: Kind): State {
    s.(kinds := s.kinds[p := k])
  }

  /** exec: the close-on-exec descriptors of p are closed. */
  ghost function ExecTable(fds: map<Slot, Desc>, p: Pid): map<Slot, Desc> {
    map a | a in fds && !(a.pid == p && fds[a].cloexec) :: fds[a]
  }

  /** fork: c gets a copy of p's table. */
  ghost function ForkTable(fds: map<Slot, Desc>, p: Pid, c: Pid): map<Slot, Desc> {
    fds + map a | a in (set b | b in fds && b.pid == p :: Slot(c, b.fd)) && Slot(p, a.fd) in fds :: fds[Slot(p, a.fd)]
  }

  ghost function Kill(s: State, p: Pid): State {
    s.(kinds := s.kinds - {p}, fds := map a | a in s.fds && a.pid != p :: s.fds[a])
  }

  // ---- the steps ---------------------------------------------------------

  /** The descriptions of the locks an image past the gate holds. */
  ghost function Guarded(s: State, p: Pid, k: Kind): set<Ofd> {
    if !PastGate(k) then {}
    else
      (if Slot(p, k.pid) in s.fds then {s.fds[Slot(p, k.pid)].ofd} else {}) +
      (if k.run.Some? && Slot(p, k.run.value) in s.fds then {s.fds[Slot(p, k.run.value)].ofd} else {})
  }

  /** os.NewFile(fd) and fstat: fd is at least 3 and open on file. */
  ghost predicate OpenOn(s: State, a: Slot, file: File) {
    a.fd >= 3 && IsOpen(s, a) && FileOf(s, a).file == file
  }

  ghost predicate FreshSlot(s: State, p: Pid, fd: Fd) {
    fd >= 3 && Slot(p, fd) !in s.fds
  }

  ghost function Apply(s: State, e: Event): Option<State> {
    if e.Start? then
      if e.p in s.kinds then None
      else Some(SetKind(s, e.p, Boot(e.pidEnv, false, e.runEnv, None, false, 0)))
    else if e.ProbeOpen? then
      if e.p in s.kinds || !FreshSlot(s, e.p, e.fd) then None
      else Some(SetKind(Open(s, Slot(e.p, e.fd), PidFile), e.p, Probing(e.fd)))
    else if e.p !in s.kinds then None
    else if e.Exit? then Some(Kill(s, e.p))
    else
      var k := s.kinds[e.p];
      match e
      case RunAdopt(p, statOk) => ApplyRunAdopt(s, p, k, statOk)
      case RunHold(p, fd) => ApplyRunHold(s, p, k, fd)
      case RunSkip(p) =>
        if k.Boot? && !k.runDone then Some(SetKind(s, p, k.(runEnv := None, runDone := true))) else None
      case PidAdopt(p, statOk) => ApplyPidAdopt(s, p, k, statOk)
      case PidOpen(p, fd) =>
        if k.Boot? && k.runDone && k.pidEnv.None? && k.tries < PID_LOCK_ATTEMPTS && FreshSlot(s, p, fd)
        then Some(SetKind(Open(s, Slot(p, fd), PidFile), p, Opened(fd, k.run, k.tries + 1)))
        else None
      case PidFlock(p) => ApplyPidFlock(s, p, k)
      case Fork(p, c) =>
        if c in s.kinds || !IsImage(k) || ForkLocked(k) then None
        else Some(State(s.kinds[c := Child(Guarded(s, p, k), false)], ForkTable(s.fds, p, c),
                        s.open, s.next, s.granted))
      case ChildExec(p) =>
        if k.Child? && !k.execed
        then Some(State(s.kinds[p := k.(execed := true)], ExecTable(s.fds, p), s.open, s.next, s.granted))
        else None
      case TakeForkLock(p) =>
        if k.Serving? then Some(SetKind(s, p, Handing(k.pid, k.run, Todo, Todo))) else None
      case ClearPid(p, ok) =>
        if k.Handing? && k.pidClear.Todo? && Slot(p, k.pid) in s.fds then
          if ok then Some(SetKind(SetFlag(s, Slot(p, k.pid), false), p, k.(pidClear := Kept)))
          else Some(SetKind(s, p, k.(pidClear := Lost)))
        else None
      case ClearRun(p, ok) =>
        if k.Handing? && !k.pidClear.Todo? && k.runClear.Todo? && k.run.Some? && Slot(p, k.run.value) in s.fds then
          if ok then Some(SetKind(SetFlag(s, Slot(p, k.run.value), false), p, k.(runClear := Kept)))
          else Some(SetKind(s, p, k.(runClear := Lost)))
        else None
      case Exec(p, ok) =>
        if k.Handing? && !k.pidClear.Todo? && (k.run.Some? ==> !k.runClear.Todo?) then
          if ok then
            Some(State(s.kinds[p := Boot(Some(k.pid), k.pidClear.Kept?, k.run, None, false, 0)],
                       ExecTable(s.fds, p), s.open, s.next, s.granted))
          else Some(SetKind(s, p, ExecFailed(k.pid, k.run, false)))
        else None
      case Restore(p) => ApplyRestore(s, p, k)
      case UnlockFork(p) =>
        if k.ExecFailed? && k.restored then Some(SetKind(s, p, Dying(k.pid, k.run))) else None
      case Release(p) =>
        if k.Serving? && IsOpen(s, Slot(p, k.pid))
        then Some(SetKind(Close(SetLock(s, Slot(p, k.pid), Unlocked), Slot(p, k.pid)), p, Released))
        else None
      case ProbeFlock(p) =>
        if k.Probing? && IsOpen(s, Slot(p, k.fd)) then
          if CanLock(s, Slot(p, k.fd), Shared)
          then Some(SetKind(SetLock(s, Slot(p, k.fd), Shared), p, Probed(k.fd)))
          else Some(SetKind(Close(s, Slot(p, k.fd)), p, ProbeDone))
        else None
      case ProbeUnlock(p) =>
        if k.Probed? && IsOpen(s, Slot(p, k.fd))
        then Some(SetKind(Close(SetLock(s, Slot(p, k.fd), Unlocked), Slot(p, k.fd)), p, ProbeDone))
        else None
      case _ => None
  }

  /** config.AdoptRunLock: on any failure the wrapped descriptor is closed. */
  ghost function ApplyRunAdopt(s: State, p: Pid, k: Kind, statOk: bool): Option<State> {
    if k.Boot? && !k.runDone && k.runEnv.Some? then
      var a := Slot(p, k.runEnv.value);
      if statOk && OpenOn(s, a, RunFile) && CanLock(s, a, Shared)
      then Some(SetKind(SetFlag(SetLock(s, a, Shared), a, true), p,
                        k.(runEnv := None, run := Some(a.fd), runDone := true)))
      else Some(SetKind(if a.fd >= 3 then Close(s, a) else s, p, k.(runEnv := None)))
    else None
  }

  /** config.HoldRunLock: a lock that cannot be had lets the daemon start without it. */
  ghost function ApplyRunHold(s: State, p: Pid, k: Kind, fd: Fd): Option<State> {
    if k.Boot? && !k.runDone && k.runEnv.None? && FreshSlot(s, p, fd) then
      var o := Open(s, Slot(p, fd), RunFile);
      if CanLock(o, Slot(p, fd), Shared)
      then Some(SetKind(SetLock(o, Slot(p, fd), Shared), p, k.(run := Some(fd), runDone := true)))
      else Some(SetKind(s, p, k.(runDone := true)))
    else None
  }

  /** adoptPidLock: on any failure the wrapped descriptor is closed and the image acquires afresh. */
  ghost function ApplyPidAdopt(s: State, p: Pid, k: Kind, statOk: bool): Option<State> {
    if k.Boot? && k.runDone && k.pidEnv.Some? then
      var a := Slot(p, k.pidEnv.value);
      if statOk && OpenOn(s, a, PidFile) && CanLock(s, a, Exclusive)
      then Some(SetKind(SetFlag(SetLock(s, a, Exclusive), a, true), p, Serving(a.fd, k.run)))
      else Some(SetKind(if a.fd >= 3 then Close(s, a) else s, p,
                        k.(pidEnv := None, inherited := false, run := if k.run == Some(a.fd) then None else k.run)))
    else None
  }

  ghost function ApplyPidFlock(s: State, p: Pid, k: Kind): Option<State> {
    if k.Opened? && IsOpen(s, Slot(p, k.pid)) then
      if CanLock(s, Slot(p, k.pid), Exclusive)
      then Some(SetKind(SetLock(s, Slot(p, k.pid), Exclusive), p, Serving(k.pid, k.run)))
      else Some(SetKind(Close(s, Slot(p, k.pid)), p, Boot(None, false, None, k.run, true, k.tries)))
    else None
  }

  ghost function ApplyRestore(s: State, p: Pid, k: Kind): Option<State> {
    if k.ExecFailed? && Slot(p, k.pid) in s.fds then
      var one := SetFlag(s, Slot(p, k.pid), true);
      if k.run.Some? && Slot(p, k.run.value) in one.fds
      then Some(SetKind(SetFlag(one, Slot(p, k.run.value), true), p, k.(restored := true)))
      else Some(SetKind(one, p, k.(restored := true)))
    else None
  }

  ghost function Run(es: seq<Event>): Option<State> {
    if es == [] then Some(INIT)
    else
      match Run(es[..|es| - 1])
      case None => None
      case Some(s) => Apply(s, es[|es| - 1])
  }

  // ---- the invariant -----------------------------------------------------

  ghost predicate Tables(s: State) {
    && (forall a :: a in s.fds ==> a.pid in s.kinds && IsOpen(s, a))
    && (forall o :: o in s.open ==> o < s.next)
  }

  /** flock's own guarantee: the locks still held on a file agree with the last one granted. */
  ghost predicate Exclusion(s: State) {
    forall a :: IsOpen(s, a) ==>
      match FileOf(s, a).lock
      case Unlocked => true
      case Shared => s.granted(FileOf(s, a).file) == ToSharers
      case Exclusive => s.granted(FileOf(s, a).file) == ToOwner(s.fds[a].ofd)
  }

  /** Descriptions are shared only by forking. */
  ghost predicate Private(s: State) {
    forall a :: IsOpen(s, a) && a.pid in s.kinds && !s.kinds[a.pid].Child? ==> FileOf(s, a).home == a
  }

  ghost predicate Holds(s: State, a: Slot, file: File, lock: Lock) {
    IsOpen(s, a) && FileOf(s, a).file == file && FileOf(s, a).lock == lock
  }

  ghost predicate Guard(s: State, a: Slot) {
    a in s.fds && s.fds[a].cloexec
  }

  ghost predicate RunHeld(s: State, p: Pid, run: Option<Fd>) {
    run.Some? ==> Holds(s, Slot(p, run.value), RunFile, Shared)
  }

  ghost predicate RunGuarded(s: State, p: Pid, run: Option<Fd>) {
    run.Some? ==> Guard(s, Slot(p, run.value))
  }

  ghost predicate KindInv(s: State, p: Pid)
    requires p in s.kinds
  {
    var k := s.kinds[p];
    if k.Boot? then
      && (k.inherited ==>
            && k.pidEnv.Some? && k.pidEnv.value >= 3 && k.pidEnv != k.runEnv
            && Holds(s, Slot(p, k.pidEnv.value), PidFile, Exclusive))
      && RunHeld(s, p, k.run) && RunGuarded(s, p, k.run) && (!k.runDone ==> k.run.None?)
    else if k.Opened? then
      && k.pid >= 3 && Holds(s, Slot(p, k.pid), PidFile, Unlocked) && Guard(s, Slot(p, k.pid))
      && RunHeld(s, p, k.run) && RunGuarded(s, p, k.run)
    else if PastGate(k) then
      && k.pid >= 3 && Holds(s, Slot(p, k.pid), PidFile, Exclusive) && RunHeld(s, p, k.run)
      && (!ForkLocked(k) ==> Guard(s, Slot(p, k.pid)) && RunGuarded(s, p, k.run))
      && (k.Handing? ==>
            && (k.pidClear.Kept? <==> !Guard(s, Slot(p, k.pid)))
            && (k.run.Some? ==> (k.runClear.Kept? <==> !Guard(s, Slot(p, k.run.value)))))
      && (k.ExecFailed? && k.restored ==> Guard(s, Slot(p, k.pid)) && RunGuarded(s, p, k.run))
    else if k.Child? then
      forall a :: a in s.fds && a.pid == p && s.fds[a].ofd in k.guarded ==> !k.execed && s.fds[a].cloexec
    else true
  }

  ghost predicate Inv(s: State) {
    Tables(s) && Exclusion(s) && Private(s) && Kinds(s)
  }

  ghost predicate Kinds(s: State) {
    forall p :: p in s.kinds ==> KindInv(s, p)
  }

  /** From s to n only p acted: the others keep their kind, their descriptors and their locks. */
  ghost predicate OnlyActs(s: State, n: State, p: Pid) {
    && (forall q :: q != p && q in n.kinds ==> q in s.kinds && n.kinds[q] == s.kinds[q])
    && (forall a: Slot :: a.pid != p ==> (a in s.fds <==> a in n.fds))
    && (forall a: Slot :: a.pid != p && a in s.fds && a in n.fds ==> n.fds[a] == s.fds[a])
    && (forall a: Slot :: a.pid != p && IsOpen(s, a) && a.pid in n.kinds && !n.kinds[a.pid].Child?
          ==> IsOpen(n, a) && FileOf(n, a) == FileOf(s, a))
  }

  lemma OthersKeepKind(s: State, n: State, p: Pid)
    requires Kinds(s) && OnlyActs(s, n, p)
    ensures forall q :: q in n.kinds && q != p ==> KindInv(n, q)
  {
  }

  // ---- the primitives ----------------------------------------------------

  lemma OpenKeeps(s: State, p: Pid, fd: Fd, file: File, k: Kind)
    requires Tables(s) && Exclusion(s) && Private(s) && FreshSlot(s, p, fd)
    requires !k.Child? && (p in s.kinds ==> !s.kinds[p].Child?)
    ensures var n := SetKind(Open(s, Slot(p, fd), file), p, k);
            Tables(n) && Exclusion(n) && Private(n) && OnlyActs(s, n, p)
  {
  }

  /** A lock change that flock allows, a flag change and a close keep the tables. */
  lemma LockKeeps(s: State, a: Slot, lock: Lock, cloexec: bool, k: Kind)
    requires Tables(s) && Exclusion(s) && Private(s) && a in s.fds && CanLock(s, a, lock)
    requires !k.Child? && !s.kinds[a.pid].Child?
    ensures var n := SetKind(SetFlag(SetLock(s, a, lock), a, cloexec), a.pid, k);
            Tables(n) && Exclusion(n) && Private(n) && OnlyActs(s, n, a.pid)
  {
  }

  lemma CloseKeeps(s: State, a: Slot, k: Kind)
    requires Tables(s) && Exclusion(s) && Private(s) && a.pid in s.kinds && !k.Child? && !s.kinds[a.pid].Child?
    ensures var n := SetKind(Close(s, a), a.pid, k);
            Tables(n) && Exclusion(n) && Private(n) && OnlyActs(s, n, a.pid)
  {
  }

  lemma KindKeeps(s: State, p: Pid, k: Kind)
    requires Tables(s) && Exclusion(s) && Private(s) && !k.Child? && (p in s.kinds ==> !s.kinds[p].Child?)
    ensures var n := SetKind(s, p, k); Tables(n) && Exclusion(n) && Private(n) && OnlyActs(s, n, p)
  {
  }

  lemma FlagKeeps(s: State, a: Slot, cloexec: bool, k: Kind)
    requires Tables(s) && Exclusion(s) && Private(s) && a in s.fds && !k.Child? && !s.kinds[a.pid].Child?
    ensures var n := SetKind(SetFlag(s, a, cloexec), a.pid, k);
            Tables(n) && Exclusion(n) && Private(n) && OnlyActs(s, n, a.pid)
  {
  }

  lemma OnlyActsTwice(s: State, m: State, n: State, p: Pid)
    requires Tables(s) && OnlyActs(s, m, p) && OnlyActs(m, n, p)
    ensures OnlyActs(s, n, p)
  {
  }

  lemma ForkTables(s: State, p: Pid, c: Pid, k: Kind)
    requires Tables(s) && Exclusion(s) && Private(s) && p in s.kinds && c !in s.kinds && k.Child?
    ensures var n := State(s.kinds[c := k], ForkTable(s.fds, p, c), s.open, s.next, s.granted);
            Tables(n) && Exclusion(n) && Private(n) && OnlyActs(s, n, c)
  {
    var n := State(s.kinds[c := k], ForkTable(s.fds, p, c), s.open, s.next, s.granted);
    assert forall a :: a in n.fds && a.pid == c ==> Slot(p, a.fd) in s.fds && n.fds[a] == s.fds[Slot(p, a.fd)];
  }

  lemma ExecKeeps(s: State, p: Pid, k: Kind)
    requires Tables(s) && Exclusion(s) && Private(s) && p in s.kinds && (k.Child? <==> s.kinds[p].Child?)
    ensures var n := State(s.kinds[p := k], ExecTable(s.fds, p), s.open, s.next, s.granted);
            Tables(n) && Exclusion(n) && Private(n) && OnlyActs(s, n, p)
  {
  }

  lemma KillKeeps(s: State, p: Pid)
    requires Inv(s) && p in s.kinds
    ensures Inv(Kill(s, p))
  {
    var n := Kill(s, p);
    assert OnlyActs(s, n, p);
    OthersKeepKind(s, n, p);
  }

  // ---- every step keeps the invariant ------------------------------------

  /** n came from s by a step of p that kept the tables; what is left is p's own part. */
  lemma Assemble(s: State, n: State, p: Pid)
    requires Inv(s) && OnlyActs(s, n, p) && Tables(n) && Exclusion(n) && Private(n)
    requires p in n.kinds ==> KindInv(n, p)
    ensures Inv(n)
  {
    OthersKeepKind(s, n, p);
  }

  lemma RunAdoptKeeps(s: State, p: Pid, statOk: bool)
    requires Inv(s) && p in s.kinds && ApplyRunAdopt(s, p, s.kinds[p], statOk).Some?
    ensures Inv(ApplyRunAdopt(s, p, s.kinds[p], statOk).value)
  {
    var k := s.kinds[p];
    var a := Slot(p, k.runEnv.value);
    if statOk && OpenOn(s, a, RunFile) && CanLock(s, a, Shared) {
      RunAdopted(s, p, k);
    } else {
      RunNotAdopted(s, p, k);
    }
  }

  lemma RunAdopted(s: State, p: Pid, k: Kind)
    requires Inv(s) && p in s.kinds && k == s.kinds[p] && k.Boot? && k.runEnv.Some?
    requires OpenOn(s, Slot(p, k.runEnv.value), RunFile) && CanLock(s, Slot(p, k.runEnv.value), Shared)
    ensures var a := Slot(p, k.runEnv.value);
            Inv(SetKind(SetFlag(SetLock(s, a, Shared), a, true), p,
                        k.(runEnv := None, run := Some(a.fd), runDone := true)))
  {
    var a := Slot(p, k.runEnv.value);
    var k' := k.(runEnv := None, run := Some(a.fd), runDone := true);
    LockKeeps(s, a, Shared, true, k');
    Assemble(s, SetKind(SetFlag(SetLock(s, a, Shared), a, true), p, k'), p);
  }

  lemma RunNotAdopted(s: State, p: Pid, k: Kind)
    requires Inv(s) && p in s.kinds && k == s.kinds[p] && k.Boot? && k.runEnv.Some? && !k.runDone
    ensures var a := Slot(p, k.runEnv.value);
            Inv(SetKind(if a.fd >= 3 then Close(s, a) else s, p, k.(runEnv := None)))
  {
    var a := Slot(p, k.runEnv.value);
    var k' := k.(runEnv := None);
    assert k.run.None? by { assert KindInv(s, p); }
    if a.fd >= 3 {
      CloseKeeps(s, a, k');
      Assemble(s, SetKind(Close(s, a), p, k'), p);
    } else {
      KindKeeps(s, p, k');
      Assemble(s, SetKind(s, p, k'), p);
    }
  }

  lemma RunHoldKeeps(s: State, p: Pid, fd: Fd)
    requires Inv(s) && p in s.kinds && ApplyRunHold(s, p, s.kinds[p], fd).Some?
    ensures Inv(ApplyRunHold(s, p, s.kinds[p], fd).value)
  {
    var k := s.kinds[p];
    var n := ApplyRunHold(s, p, k, fd).value;
    if CanLock(Open(s, Slot(p, fd), RunFile), Slot(p, fd), Shared) {
      RunHeldFresh(s, p, fd, k, n.kinds[p]);
    } else {
      KindKeeps(s, p, n.kinds[p]);
      Assemble(s, n, p);
    }
  }

  lemma RunFreshTables(s: State, p: Pid, fd: Fd, k': Kind)
    requires Tables(s) && Exclusion(s) && Private(s)
    requires p in s.kinds && s.kinds[p].Boot? && k'.Boot? && FreshSlot(s, p, fd)
    requires CanLock(Open(s, Slot(p, fd), RunFile), Slot(p, fd), Shared)
    ensures var n := SetKind(SetLock(Open(s, Slot(p, fd), RunFile), Slot(p, fd), Shared), p, k');
            Tables(n) && Exclusion(n) && Private(n) && OnlyActs(s, n, p)
  {
    var a := Slot(p, fd);
    var m := SetKind(Open(s, a, RunFile), p, k');
    var n := SetKind(SetLock(Open(s, a, RunFile), a, Shared), p, k');
    OpenKeeps(s, p, fd, RunFile, k');
    assert CanLock(m, a, Shared) by {
      assert m.fds == Open(s, a, RunFile).fds && m.open == Open(s, a, RunFile).open;
    }
    assert n == SetKind(SetFlag(SetLock(m, a, Shared), a, true), p, k');
    LockKeeps(m, a, Shared, true, k');
    OnlyActsTwice(s, m, n, p);
  }

  lemma RunHeldFresh(s: State, p: Pid, fd: Fd, k: Kind, k': Kind)
    requires Inv(s) && p in s.kinds && k == s.kinds[p] && k.Boot? && FreshSlot(s, p, fd)
    requires CanLock(Open(s, Slot(p, fd), RunFile), Slot(p, fd), Shared)
    requires k' == k.(run := Some(fd), runDone := true)
    ensures Inv(SetKind(SetLock(Open(s, Slot(p, fd), RunFile), Slot(p, fd), Shared), p, k'))
  {
    var n := SetKind(SetLock(Open(s, Slot(p, fd), RunFile), Slot(p, fd), Shared), p, k');
    RunFreshTables(s, p, fd, k');
    assert KindInv(s, p);
    Assemble(s, n, p);
  }

  lemma PidAdoptKeeps(s: State, p: Pid, statOk: bool)
    requires Inv(s) && p in s.kinds && ApplyPidAdopt(s, p, s.kinds[p], statOk).Some?
    ensures Inv(ApplyPidAdopt(s, p, s.kinds[p], statOk).value)
  {
    var k := s.kinds[p];
    var a := Slot(p, k.pidEnv.value);
    var n := ApplyPidAdopt(s, p, k, statOk).value;
    if statOk && OpenOn(s, a, PidFile) && CanLock(s, a, Exclusive) {
      LockKeeps(s, a, Exclusive, true, n.kinds[p]);
    } else if a.fd >= 3 {
      CloseKeeps(s, a, n.kinds[p]);
    } else {
      KindKeeps(s, p, n.kinds[p]);
    }
    Assemble(s, n, p);
  }

  lemma PidFlockKeeps(s: State, p: Pid)
    requires Inv(s) && p in s.kinds && ApplyPidFlock(s, p, s.kinds[p]).Some?
    ensures Inv(ApplyPidFlock(s, p, s.kinds[p]).value)
  {
    if CanLock(s, Slot(p, s.kinds[p].pid), Exclusive) {
      PidLocked(s, p);
    } else {
      PidRefused(s, p);
    }
  }

  lemma PidLocked(s: State, p: Pid)
    requires Inv(s) && p in s.kinds && ApplyPidFlock(s, p, s.kinds[p]).Some?
    requires CanLock(s, Slot(p, s.kinds[p].pid), Exclusive)
    ensures Inv(ApplyPidFlock(s, p, s.kinds[p]).value)
  {
    var a := Slot(p, s.kinds[p].pid);
    var n := ApplyPidFlock(s, p, s.kinds[p]).value;
    LockKeeps(s, a, Exclusive, true, n.kinds[p]);
    assert n == SetKind(SetFlag(SetLock(s, a, Exclusive), a, true), p, n.kinds[p]);
    Assemble(s, n, p);
  }

  lemma PidRefused(s: State, p: Pid)
    requires Inv(s) && p in s.kinds && ApplyPidFlock(s, p, s.kinds[p]).Some?
    requires !CanLock(s, Slot(p, s.kinds[p].pid), Exclusive)
    ensures Inv(ApplyPidFlock(s, p, s.kinds[p]).value)
  {
    var n := ApplyPidFlock(s, p, s.kinds[p]).value;
    CloseKeeps(s, Slot(p, s.kinds[p].pid), n.kinds[p]);
    Assemble(s, n, p);
  }

  lemma RestoreTables(s: State, p: Pid, k: Kind)
    requires Tables(s) && Exclusion(s) && Private(s) && p in s.kinds && k == s.kinds[p] && k.ExecFailed?
    requires ApplyRestore(s, p, k).Some?
    ensures var n := ApplyRestore(s, p, k).value;
            Tables(n) && Exclusion(n) && Private(n) && OnlyActs(s, n, p)
  {
    var k' := k.(restored := true);
    FlagKeeps(s, Slot(p, k.pid), true, k');
    if k.run.Some? && Slot(p, k.run.value) in s.fds {
      var m := SetKind(SetFlag(s, Slot(p, k.pid), true), p, k');
      FlagKeeps(m, Slot(p, k.run.value), true, k');
      OnlyActsTwice(s, m, ApplyRestore(s, p, k).value, p);
    }
  }

  lemma RestoreKeeps(s: State, p: Pid)
    requires Inv(s) && p in s.kinds && ApplyRestore(s, p, s.kinds[p]).Some?
    ensures Inv(ApplyRestore(s, p, s.kinds[p]).value)
  {
    RestoreTables(s, p, s.kinds[p]);
    assert KindInv(s, p);
    Assemble(s, ApplyRestore(s, p, s.kinds[p]).value, p);
  }

  lemma ClearKeeps(s: State, e: Event)
    requires Inv(s) && Apply(s, e).Some? && (e.ClearPid? || e.ClearRun?) && e.ok
    ensures Inv(Apply(s, e).value)
  {
    if e.ClearPid? {
      ClearPidKeeps(s, e.p);
    } else {
      ClearRunKeeps(s, e.p);
    }
  }

  lemma ClearPidKeeps(s: State, p: Pid)
    requires Inv(s) && Apply(s, ClearPid(p, true)).Some?
    ensures Inv(Apply(s, ClearPid(p, true)).value)
  {
    var n := Apply(s, ClearPid(p, true)).value;
    FlagKeeps(s, Slot(p, s.kinds[p].pid), false, n.kinds[p]);
    assert KindInv(s, p);
    Assemble(s, n, p);
  }

  lemma ClearRunKeeps(s: State, p: Pid)
    requires Inv(s) && Apply(s, ClearRun(p, true)).Some?
    ensures Inv(Apply(s, ClearRun(p, true)).value)
  {
    var n := Apply(s, ClearRun(p, true)).value;
    FlagKeeps(s, Slot(p, s.kinds[p].run.value), false, n.kinds[p]);
    assert KindInv(s, p);
    Assemble(s, n, p);
  }

  lemma ReexecKeeps(s: State, e: Event)
    requires Inv(s) && Apply(s, e).Some?
    requires e.TakeForkLock? || e.UnlockFork? || ((e.ClearPid? || e.ClearRun?) && !e.ok)
    ensures Inv(Apply(s, e).value)
  {
    var n := Apply(s, e).value;
    KindKeeps(s, e.p, n.kinds[e.p]);
    assert KindInv(s, e.p);
    Assemble(s, n, e.p);
  }

  lemma ExecEventKeeps(s: State, p: Pid, ok: bool)
    requires Inv(s) && Apply(s, Exec(p, ok)).Some?
    ensures Inv(Apply(s, Exec(p, ok)).value)
  {
    var n := Apply(s, Exec(p, ok)).value;
    if ok {
      ExecKeeps(s, p, n.kinds[p]);
    } else {
      KindKeeps(s, p, n.kinds[p]);
    }
    Assemble(s, n, p);
  }

  lemma ForkKeeps(s: State, p: Pid, c: Pid)
    requires Inv(s) && Apply(s, Fork(p, c)).Some?
    ensures Inv(Apply(s, Fork(p, c)).value)
  {
    var n := Apply(s, Fork(p, c)).value;
    ForkTables(s, p, c, n.kinds[c]);
    ChildIsGuarded(s, p, c);
    Assemble(s, n, c);
  }

  lemma ChildIsGuarded(s: State, p: Pid, c: Pid)
    requires Inv(s) && Apply(s, Fork(p, c)).Some?
    ensures KindInv(Apply(s, Fork(p, c)).value, c)
  {
    var n := Apply(s, Fork(p, c)).value;
    assert KindInv(s, p);
    forall a | a in n.fds && a.pid == c && n.fds[a].ofd in n.kinds[c].guarded
      ensures n.fds[a].cloexec
    {
      assert n.fds[a] == s.fds[Slot(p, a.fd)] && FileOf(s, Slot(p, a.fd)).home == Slot(p, a.fd);
    }
  }

  lemma ChildExecKeeps(s: State, p: Pid)
    requires Inv(s) && Apply(s, ChildExec(p)).Some?
    ensures Inv(Apply(s, ChildExec(p)).value)
  {
    var n := Apply(s, ChildExec(p)).value;
    ExecKeeps(s, p, n.kinds[p]);
    Assemble(s, n, p);
  }

  lemma UnlockKeeps(s: State, a: Slot, k: Kind)
    requires Inv(s) && IsOpen(s, a) && !s.kinds[a.pid].Child? && (k.Released? || k.ProbeDone?)
    ensures Inv(SetKind(Close(SetLock(s, a, Unlocked), a), a.pid, k))
  {
    var n := SetKind(Close(SetLock(s, a, Unlocked), a), a.pid, k);
    UnlockTables(s, a, k);
    UnlockPrivate(s, a, k);
    Assemble(s, n, a.pid);
  }

  lemma UnlockTables(s: State, a: Slot, k: Kind)
    requires Inv(s) && IsOpen(s, a) && !s.kinds[a.pid].Child? && (k.Released? || k.ProbeDone?)
    ensures var n := SetKind(Close(SetLock(s, a, Unlocked), a), a.pid, k);
            Tables(n) && Exclusion(n)
  {
  }

  lemma UnlockPrivate(s: State, a: Slot, k: Kind)
    requires Inv(s) && IsOpen(s, a) && !s.kinds[a.pid].Child? && (k.Released? || k.ProbeDone?)
    ensures var n := SetKind(Close(SetLock(s, a, Unlocked), a), a.pid, k);
            Private(n) && OnlyActs(s, n, a.pid)
  {
  }

  lemma ProbeFlockKeeps(s: State, p: Pid)
    requires Inv(s) && Apply(s, ProbeFlock(p)).Some?
    ensures Inv(Apply(s, ProbeFlock(p)).value)
  {
    var a := Slot(p, s.kinds[p].fd);
    if CanLock(s, a, Shared) {
      ProbeLocks(s, a, s.fds[a].cloexec, Probed(a.fd));
    } else {
      CloseKeeps(s, a, ProbeDone);
      Assemble(s, SetKind(Close(s, a), p, ProbeDone), p);
    }
  }

  lemma ProbeLocks(s: State, a: Slot, cloexec: bool, k: Kind)
    requires Inv(s) && a in s.fds && CanLock(s, a, Shared) && s.kinds[a.pid].Probing? && k.Probed?
    requires cloexec == s.fds[a].cloexec
    ensures Inv(SetKind(SetLock(s, a, Shared), a.pid, k))
  {
    var n := SetKind(SetLock(s, a, Shared), a.pid, k);
    LockKeeps(s, a, Shared, cloexec, k);
    assert n.fds == s.fds[a := s.fds[a].(cloexec := cloexec)];
    Assemble(s, n, a.pid);
  }

  lemma EntryKeeps(s: State, e: Event)
    requires Inv(s) && Apply(s, e).Some?
    requires e.Start? || e.RunSkip? || e.PidOpen? || e.ProbeOpen?
    ensures Inv(Apply(s, e).value)
  {
    var n := Apply(s, e).value;
    if e.Start? || e.RunSkip? {
      KindKeeps(s, e.p, n.kinds[e.p]);
    } else {
      OpenKeeps(s, e.p, e.fd, PidFile, n.kinds[e.p]);
    }
    Assemble(s, n, e.p);
  }

  lemma ApplyKeepsInv(s: State, e: Event)
    requires Inv(s) && Apply(s, e).Some?
    ensures Inv(Apply(s, e).value)
  {
    match e
    case RunAdopt(p, statOk) => RunAdoptKeeps(s, p, statOk);
    case RunHold(p, fd) => RunHoldKeeps(s, p, fd);
    case PidAdopt(p, statOk) => PidAdoptKeeps(s, p, statOk);
    case PidFlock(p) => PidFlockKeeps(s, p);
    case Fork(p, c) => ForkKeeps(s, p, c);
    case ChildExec(p) => ChildExecKeeps(s, p);
    case Exec(p, ok) => ExecEventKeeps(s, p, ok);
    case Restore(p) => RestoreKeeps(s, p);
    case Release(p) => UnlockKeeps(s, Slot(p, s.kinds[p].pid), Released);
    case ProbeFlock(p) => ProbeFlockKeeps(s, p);
    case ProbeUnlock(p) => UnlockKeeps(s, Slot(p, s.kinds[p].fd), ProbeDone);
    case Exit(p) => KillKeeps(s, p);
    case TakeForkLock(_) => ReexecKeeps(s, e);
    case ClearPid(_, ok) => if ok { ClearKeeps(s, e); } else { ReexecKeeps(s, e); }
    case ClearRun(_, ok) => if ok { ClearKeeps(s, e); } else { ReexecKeeps(s, e); }
    case UnlockFork(_) => ReexecKeeps(s, e);
    case _ => EntryKeeps(s, e);
  }

  lemma {:induction false} RunKeepsInv(es: seq<Event>)
    ensures Run(es).Some? ==> Inv(Run(es).value)
  {
    if es != [] && Run(es).Some? {
      RunKeepsInv(es[..|es| - 1]);
      ApplyKeepsInv(Run(es[..|es| - 1]).value, es[|es| - 1]);
    }
  }

  /** Some interleaving of steps leads to s. */
  ghost predicate Reachable(s: State) {
    exists es :: Run(es) == Some(s)
  }

  lemma ReachableInv(s: State)
    requires Reachable(s)
    ensures Inv(s)
  {
    var es :| Run(es) == Some(s);
    RunKeepsInv(es);
  }

  // ---- main results ------------------------------------------------------

  /** However starts, probes, restarts and stops interleave, at most one image is past the pid-lock gate. */
  lemma AtMostOneDaemon(s: State, p: Pid, q: Pid)
    requires Reachable(s) && p in s.kinds && q in s.kinds && PastGate(s.kinds[p]) && PastGate(s.kinds[q])
    ensures p == q
  {
    ReachableInv(s);
    var a, b := Slot(p, s.kinds[p].pid), Slot(q, s.kinds[q].pid);
    assert KindInv(s, p) && KindInv(s, q);
    assert s.granted(PidFile) == ToOwner(s.fds[a].ofd) && s.granted(PidFile) == ToOwner(s.fds[b].ofd);
    assert FileOf(s, a).home == a && FileOf(s, b).home == b;
  }

  /** From its acquire or adoption on, and through a re-exec whose clear succeeded, p owns the exclusive lock. */
  ghost predicate Owner(s: State, p: Pid) {
    p in s.kinds &&
    (PastGate(s.kinds[p]) || (s.kinds[p].Boot? && s.kinds[p].inherited))
  }

  /** The steps that end p's ownership: its death, its stop, an exec after a failed clear, a failed adoption. */
  ghost predicate EndsOwnership(s: State, e: Event, p: Pid) {
    e.p == p && p in s.kinds &&
    ( || e.Exit?
      || e.Release?
      || (e.Exec? && e.ok && s.kinds[p].Handing? && !s.kinds[p].pidClear.Kept?)
      || (e.PidAdopt? && !e.statOk))
  }

  /**
   While p owns the lock nobody else can take it, shared or exclusive: from the old
   image's acquire to the new image's adoption it is free at no step.
   */
  lemma OwnerExcludes(s: State, p: Pid, a: Slot)
    requires Reachable(s) && Owner(s, p)
    requires IsOpen(s, a) && FileOf(s, a).file == PidFile && a.pid in s.kinds && a.pid != p && !s.kinds[a.pid].Child?
    ensures !CanLock(s, a, Shared) && !CanLock(s, a, Exclusive)
  {
    ReachableInv(s);
    var k := s.kinds[p];
    var b := Slot(p, if k.Boot? then k.pidEnv.value else k.pid);
    assert KindInv(s, p);
    assert Holds(s, b, PidFile, Exclusive);
    assert FileOf(s, a).home == a && FileOf(s, b).home == b;
  }

  /** ... and only the steps above end the ownership: a hand-off whose clear succeeded does not. */
  lemma OwnershipLasts(s: State, e: Event, p: Pid)
    requires Reachable(s) && Owner(s, p) && Apply(s, e).Some? && !EndsOwnership(s, e, p)
    ensures Owner(Apply(s, e).value, p)
  {
    if e.p == p {
      OwnStepKeepsOwner(s, e, p);
    }
  }

  lemma OwnStepKeepsOwner(s: State, e: Event, p: Pid)
    requires Reachable(s) && Owner(s, p) && Apply(s, e).Some? && !EndsOwnership(s, e, p) && e.p == p
    ensures Owner(Apply(s, e).value, p)
  {
    assert KindInv(s, p) by { ReachableInv(s); }
    if e.PidAdopt? && s.kinds[p].Boot? {
      AdoptionSucceeds(s, p);
    }
  }

  /** An image that inherited the lock gets through the gate by adopting it. */
  lemma AdoptionSucceeds(s: State, p: Pid)
    requires Reachable(s) && p in s.kinds && s.kinds[p].Boot? && s.kinds[p].inherited && s.kinds[p].runDone
    ensures Apply(s, PidAdopt(p, true)).Some? && Apply(s, PidAdopt(p, true)).value.kinds[p].Serving?
  {
    ReachableInv(s);
    var a := Slot(p, s.kinds[p].pidEnv.value);
    assert KindInv(s, p);
    assert CanLock(s, a, Exclusive);
  }

  /** Past the gate, whenever ForkLock is free both lock descriptors are close-on-exec, a failed exec included. */
  lemma LocksGuardedWhenForkable(s: State, p: Pid)
    requires Reachable(s) && p in s.kinds && PastGate(s.kinds[p]) && !ForkLocked(s.kinds[p])
    ensures Guard(s, Slot(p, s.kinds[p].pid)) && RunGuarded(s, p, s.kinds[p].run)
  {
    ReachableInv(s);
    assert KindInv(s, p);
  }

  /** So a child forked by an image past the gate has none of that image's locks left once it has exec'd. */
  lemma NoChildKeepsALock(s: State, c: Pid, a: Slot)
    requires Reachable(s) && c in s.kinds && s.kinds[c].Child? && s.kinds[c].execed && a in s.fds && a.pid == c
    ensures s.fds[a].ofd !in s.kinds[c].guarded
  {
    ReachableInv(s);
    assert KindInv(s, c);
  }

  /**
   isDaemonRunning: while an image owns the lock every probe is refused, and with no exclusive lock
   every probe passes.
   */
  lemma ProbeSeesTheOwner(s: State, p: Pid, q: Pid, fd: Fd)
    requires Reachable(s) && q in s.kinds && s.kinds[q] == Probing(fd) && Holds(s, Slot(q, fd), PidFile, Unlocked)
    ensures Apply(s, ProbeFlock(q)).Some?
    ensures Owner(s, p) ==> Apply(s, ProbeFlock(q)).value.kinds[q] == ProbeDone
    ensures (forall b :: IsOpen(s, b) && FileOf(s, b).file == PidFile ==> FileOf(s, b).lock != Exclusive)
              ==> Apply(s, ProbeFlock(q)).value.kinds[q] == Probed(fd)
  {
    var a := Slot(q, fd);
    if Owner(s, p) {
      OwnerExcludes(s, p, a);
    }
  }

  /** After a failed exec both flags are set again before ForkLock is given up, and the image ends. */
  lemma FailedExecRestores(s: State, p: Pid)
    requires Reachable(s) && p in s.kinds && s.kinds[p].ExecFailed? && !s.kinds[p].restored
    ensures Apply(s, Restore(p)).Some?
    ensures var n := Apply(s, Restore(p)).value;
      && p in n.kinds && n.kinds[p] == s.kinds[p].(restored := true)
      && Guard(n, Slot(p, s.kinds[p].pid)) && RunGuarded(n, p, s.kinds[p].run)
      && Apply(n, UnlockFork(p)).Some?
  {
    ReachableInv(s);
    assert KindInv(s, p);
  }

  /** A stop gives the lock up: nobody holds it afterwards, whoever had a copy of the descriptor. */
  lemma StopFreesTheLock(s: State, p: Pid)
    requires Reachable(s) && p in s.kinds && s.kinds[p].Serving?
    ensures Apply(s, Release(p)).Some?
    ensures var n := Apply(s, Release(p)).value;
      forall b :: IsOpen(n, b) && FileOf(n, b).file == PidFile ==> FileOf(n, b).lock != Exclusive
  {
    ReachableInv(s);
    assert KindInv(s, p);
    var a := Slot(p, s.kinds[p].pid);
    var n := Apply(s, Release(p)).value;
    forall b | IsOpen(n, b) && FileOf(n, b).file == PidFile ensures FileOf(n, b).lock != Exclusive {
      assert IsOpen(s, b);
    }
  }
}
