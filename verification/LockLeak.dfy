/**
 What a start that cannot enter the config gate leaves behind: openConfigGate then returns without
 looking at the run-lock descriptor its previous image handed over, which stays open and
 inheritable. These are the only inheritable lock descriptors an image past the pid-lock gate has.
 */
module LockLeak {
  import opened Outcomes
  import opened LockHandoff

  /** a is a descriptor on the run file, locked shared, that an exec does not close. */
  ghost predicate HandedRun(s: State, a: Slot) {
    a in s.fds && !s.fds[a].cloexec && Holds(s, a, RunFile, Shared)
  }

  /** The descriptor a gate skip of p leaves behind, if any. */
  ghost function Skipped(s: State, e: Event): set<Slot> {
    if e.RunSkip? && e.p in s.kinds && s.kinds[e.p].Boot? && s.kinds[e.p].runEnv.Some?
       && HandedRun(s, Slot(e.p, s.kinds[e.p].runEnv.value))
    then {Slot(e.p, s.kinds[e.p].runEnv.value)} else {}
  }

  /** The slots a gate skip left behind that are still open and inheritable. */
  ghost function Leaked(es: seq<Event>): set<Slot>
    requires Run(es).Some?
  {
    if es == [] then {}
    else
      var init, e := es[..|es| - 1], es[|es| - 1];
      set a | a in Leaked(init) + Skipped(Run(init).value, e)
              && a in Run(es).value.fds && !Run(es).value.fds[a].cloexec
  }

  /**
   A reason for an inheritable descriptor other than a gate skip: a child's copy, a hand-over not yet
   looked at, or one under way.
   */
  ghost predicate Explained(s: State, a: Slot)
    requires a.pid in s.kinds
  {
    var k := s.kinds[a.pid];
    || k.Child?
    || (k.Boot? && (k.pidEnv == Some(a.fd) || (k.runEnv == Some(a.fd) && Holds(s, a, RunFile, Shared))))
    || ((k.Handing? || (k.ExecFailed? && !k.restored)) && (a.fd == k.pid || k.run == Some(a.fd)))
  }

  ghost predicate SlotOk(s: State, leaked: set<Slot>, a: Slot)
    requires a in s.fds && a.pid in s.kinds
  {
    && a.fd >= 3
    && (a in leaked ==> !s.kinds[a.pid].Child? && HandedRun(s, a))
    && (!s.fds[a].cloexec ==> a in leaked || Explained(s, a))
  }

  ghost predicate LeakInv(s: State, leaked: set<Slot>) {
    && Inv(s) && leaked <= s.fds.Keys
    && (forall p :: p in s.kinds ==> BootOk(s.kinds[p]))
    && (forall a :: a in s.fds ==> SlotOk(s, leaked, a))
  }

  /** An image past its run-lock stage has no hand-over left to look at. */
  predicate BootOk(k: Kind) {
    k.Boot? && k.runDone ==> k.runEnv.None?
  }

  lemma StepKeepsBoot(s: State, e: Event, p: Pid)
    requires Apply(s, e).Some? && p in Apply(s, e).value.kinds
    requires forall q :: q in s.kinds ==> BootOk(s.kinds[q])
    ensures BootOk(Apply(s, e).value.kinds[p])
  {
  }

  /** The leaked slots after one step. */
  ghost function Left(s: State, leaked: set<Slot>, e: Event): set<Slot>
    requires Apply(s, e).Some?
  {
    set a | a in leaked + Skipped(s, e) && a in Apply(s, e).value.fds && !Apply(s, e).value.fds[a].cloexec
  }

  /** Setting a lock through one image's descriptor leaves the file of every other image's descriptor as it was. */
  lemma LockIsLocal(s: State, b: Slot, lock: Lock, a: Slot)
    requires Private(s) && IsOpen(s, a) && IsOpen(s, b) && a != b
    requires a.pid in s.kinds && b.pid in s.kinds && !s.kinds[a.pid].Child? && !s.kinds[b.pid].Child?
    ensures IsOpen(SetLock(s, b, lock), a) && FileOf(SetLock(s, b, lock), a) == FileOf(s, a)
  {
    assert FileOf(s, a).home == a && FileOf(s, b).home == b;
  }

  /** From s to n slot a was not touched. */
  ghost predicate Untouched(s: State, n: State, a: Slot) {
    && (a in n.fds <==> a in s.fds)
    && (a in s.fds && a.pid in s.kinds ==>
          && n.fds[a] == s.fds[a] && IsOpen(s, a) && IsOpen(n, a)
          && (!s.kinds[a.pid].Child? ==> FileOf(n, a) == FileOf(s, a)))
  }

  predicate Locks(e: Event) {
    e.RunAdopt? || e.RunHold? || e.PidAdopt? || e.PidFlock? || e.Release? || e.ProbeFlock? || e.ProbeUnlock?
  }

  lemma OthersUntouchedByLocks(s: State, e: Event, a: Slot)
    requires Inv(s) && Apply(s, e).Some? && a.pid != e.p && Locks(e)
    ensures Untouched(s, Apply(s, e).value, a)
  {
    if e.RunAdopt? || e.RunHold? { UntouchedByRun(s, e, a); }
    else if e.PidAdopt? || e.PidFlock? { UntouchedByPid(s, e, a); }
    else { UntouchedByOthers(s, e, a); }
  }

  lemma UntouchedByRun(s: State, e: Event, a: Slot)
    requires Inv(s) && Apply(s, e).Some? && a.pid != e.p && (e.RunAdopt? || e.RunHold?)
    ensures Untouched(s, Apply(s, e).value, a)
  {
    if a in s.fds && a.pid in s.kinds && !s.kinds[a.pid].Child? {
      assert FileOf(s, a).home == a;
    }
  }

  lemma UntouchedByPid(s: State, e: Event, a: Slot)
    requires Inv(s) && Apply(s, e).Some? && a.pid != e.p && (e.PidAdopt? || e.PidFlock?)
    ensures Untouched(s, Apply(s, e).value, a)
  {
    if a in s.fds && a.pid in s.kinds && !s.kinds[a.pid].Child? {
      assert FileOf(s, a).home == a;
    }
  }

  lemma UntouchedByOthers(s: State, e: Event, a: Slot)
    requires Inv(s) && Apply(s, e).Some? && a.pid != e.p && (e.Release? || e.ProbeFlock? || e.ProbeUnlock?)
    ensures Untouched(s, Apply(s, e).value, a)
  {
    if a in s.fds && a.pid in s.kinds && !s.kinds[a.pid].Child? {
      assert FileOf(s, a).home == a;
    }
  }

  lemma OthersUntouchedByRest(s: State, e: Event, a: Slot)
    requires Inv(s) && Apply(s, e).Some? && a.pid != e.p && !Locks(e) && !(e.Fork? && a.pid == e.child)
    ensures Untouched(s, Apply(s, e).value, a)
  {
    if e.Fork? || e.ChildExec? || e.Exec? || e.Exit? {
      UntouchedByTables(s, e, a);
    } else {
      UntouchedByFlags(s, e, a);
    }
  }

  lemma UntouchedByTables(s: State, e: Event, a: Slot)
    requires Inv(s) && Apply(s, e).Some? && a.pid != e.p && !(e.Fork? && a.pid == e.child)
    requires e.Fork? || e.ChildExec? || e.Exec? || e.Exit?
    ensures Untouched(s, Apply(s, e).value, a)
  {
  }

  lemma UntouchedByFlags(s: State, e: Event, a: Slot)
    requires Inv(s) && Apply(s, e).Some? && a.pid != e.p && !Locks(e)
    requires !e.Fork? && !e.ChildExec? && !e.Exec? && !e.Exit?
    ensures Untouched(s, Apply(s, e).value, a)
  {
  }

  lemma OthersKeepKindOf(s: State, e: Event, q: Pid)
    requires Apply(s, e).Some? && q != e.p && !(e.Fork? && q == e.child)
    ensures q in s.kinds <==> q in Apply(s, e).value.kinds
    ensures q in s.kinds ==> Apply(s, e).value.kinds[q] == s.kinds[q]
  {
  }

  lemma OthersKeepSlot(s: State, leaked: set<Slot>, e: Event, a: Slot)
    requires LeakInv(s, leaked) && Apply(s, e).Some? && a in Apply(s, e).value.fds && a.pid in Apply(s, e).value.kinds
    requires a.pid != e.p && !(e.Fork? && a.pid == e.child)
    ensures SlotOk(Apply(s, e).value, Left(s, leaked, e), a)
  {
    OthersKeepKindOf(s, e, a.pid);
    if Locks(e) { OthersUntouchedByLocks(s, e, a); } else { OthersUntouchedByRest(s, e, a); }
    LeftOfOthers(s, leaked, e, a);
    Carries(s, Apply(s, e).value, leaked, Left(s, leaked, e), a);
  }

  lemma LeftOfOthers(s: State, leaked: set<Slot>, e: Event, a: Slot)
    requires Apply(s, e).Some? && a.pid != e.p
    ensures a in Left(s, leaked, e) <==> a in leaked && a in Apply(s, e).value.fds && !Apply(s, e).value.fds[a].cloexec
  {
  }

  /** A slot that was not touched, of a process that stayed what it was, is as it should be. */
  lemma Carries(s: State, n: State, leaked: set<Slot>, left: set<Slot>, a: Slot)
    requires a in s.fds && a.pid in s.kinds && SlotOk(s, leaked, a)
    requires Untouched(s, n, a) && a.pid in n.kinds && n.kinds[a.pid] == s.kinds[a.pid]
    requires a in left <==> a in leaked && a in n.fds && !n.fds[a].cloexec
    ensures a in n.fds && SlotOk(n, left, a)
  {
  }

  lemma ForkCopies(s: State, p: Pid, c: Pid, a: Slot)
    requires Apply(s, Fork(p, c)).Some? && Tables(s) && a in Apply(s, Fork(p, c)).value.fds && a.pid == c
    ensures Slot(p, a.fd) in s.fds && a !in s.fds && Apply(s, Fork(p, c)).value.kinds[c].Child?
  {
  }

  lemma ForkedSlot(s: State, leaked: set<Slot>, p: Pid, c: Pid, a: Slot)
    requires LeakInv(s, leaked) && Apply(s, Fork(p, c)).Some? && a in Apply(s, Fork(p, c)).value.fds && a.pid == c
    ensures SlotOk(Apply(s, Fork(p, c)).value, Left(s, leaked, Fork(p, c)), a)
  {
    ForkCopies(s, p, c, a);
    assert SlotOk(s, leaked, Slot(p, a.fd));
    assert a !in s.fds;
  }

  lemma RunAdoptKeepsSlot(s: State, leaked: set<Slot>, e: Event, a: Slot)
    requires LeakInv(s, leaked) && Apply(s, e).Some? && a in Apply(s, e).value.fds && a.pid == e.p && e.RunAdopt?
    ensures SlotOk(Apply(s, e).value, Left(s, leaked, e), a)
  {
    assert a in s.fds && SlotOk(s, leaked, a) && FileOf(s, a).home == a;
    var b := Slot(e.p, s.kinds[e.p].runEnv.value);
    if a != b && IsOpen(s, b) { LockIsLocal(s, b, Shared, a); }
  }

  lemma RunHoldKeepsSlot(s: State, leaked: set<Slot>, e: Event, a: Slot)
    requires LeakInv(s, leaked) && Apply(s, e).Some? && a in Apply(s, e).value.fds && a.pid == e.p && e.RunHold?
    ensures SlotOk(Apply(s, e).value, Left(s, leaked, e), a)
  {
    if a in s.fds {
      assert SlotOk(s, leaked, a) && FileOf(s, a).home == a;
    }
  }

  lemma RunSkipKeepsSlot(s: State, leaked: set<Slot>, e: Event, a: Slot)
    requires LeakInv(s, leaked) && Apply(s, e).Some? && a in Apply(s, e).value.fds && a.pid == e.p && e.RunSkip?
    ensures SlotOk(Apply(s, e).value, Left(s, leaked, e), a)
  {
    assert SlotOk(s, leaked, a);
  }

  lemma PidAdoptKeepsSlot(s: State, leaked: set<Slot>, e: Event, a: Slot)
    requires LeakInv(s, leaked) && Apply(s, e).Some? && a in Apply(s, e).value.fds && a.pid == e.p && e.PidAdopt?
    ensures SlotOk(Apply(s, e).value, Left(s, leaked, e), a)
  {
    assert a in s.fds && SlotOk(s, leaked, a) && FileOf(s, a).home == a && BootOk(s.kinds[e.p]);
    var b := Slot(e.p, s.kinds[e.p].pidEnv.value);
    if a != b && IsOpen(s, b) { LockIsLocal(s, b, Exclusive, a); }
  }

  lemma PidOpenKeepsSlot(s: State, leaked: set<Slot>, e: Event, a: Slot)
    requires LeakInv(s, leaked) && Apply(s, e).Some? && a in Apply(s, e).value.fds && a.pid == e.p && e.PidOpen?
    ensures SlotOk(Apply(s, e).value, Left(s, leaked, e), a)
  {
    if a in s.fds {
      assert SlotOk(s, leaked, a) && BootOk(s.kinds[e.p]);
    }
  }

  lemma PidFlockKeepsSlot(s: State, leaked: set<Slot>, e: Event, a: Slot)
    requires LeakInv(s, leaked) && Apply(s, e).Some? && a in Apply(s, e).value.fds && a.pid == e.p && e.PidFlock?
    ensures SlotOk(Apply(s, e).value, Left(s, leaked, e), a)
  {
    assert a in s.fds && SlotOk(s, leaked, a) && FileOf(s, a).home == a;
    var b := Slot(e.p, s.kinds[e.p].pid);
    if a != b { LockIsLocal(s, b, Exclusive, a); }
  }

  lemma ForkLockKeepsSlot(s: State, leaked: set<Slot>, e: Event, a: Slot)
    requires LeakInv(s, leaked) && Apply(s, e).Some? && a in Apply(s, e).value.fds && a.pid == e.p
    requires e.TakeForkLock? || e.UnlockFork?
    ensures SlotOk(Apply(s, e).value, Left(s, leaked, e), a)
  {
    assert SlotOk(s, leaked, a);
  }

  lemma ClearKeepsSlot(s: State, leaked: set<Slot>, e: Event, a: Slot)
    requires LeakInv(s, leaked) && Apply(s, e).Some? && a in Apply(s, e).value.fds && a.pid == e.p
    requires e.ClearPid? || e.ClearRun?
    ensures SlotOk(Apply(s, e).value, Left(s, leaked, e), a)
  {
    assert SlotOk(s, leaked, a);
  }

  /** A step that only sets flags leaves a leaked slot leaked unless it sets its flag. */
  lemma RestoreKeepsSlot(s: State, leaked: set<Slot>, e: Event, a: Slot)
    requires LeakInv(s, leaked) && Apply(s, e).Some? && a in Apply(s, e).value.fds && a.pid == e.p && e.Restore?
    ensures SlotOk(Apply(s, e).value, Left(s, leaked, e), a)
  {
    assert a in s.fds && SlotOk(s, leaked, a);
    RestoreFlags(s, e.p, a);
  }

  lemma RestoreFlags(s: State, p: Pid, a: Slot)
    requires Apply(s, Restore(p)).Some? && a in s.fds && a.pid == p
    ensures var n, k := Apply(s, Restore(p)).value, s.kinds[p];
      && p in n.kinds && n.kinds[p] == k.(restored := true) && n.open == s.open
      && a in n.fds && n.fds[a].ofd == s.fds[a].ofd
      && n.fds[a].cloexec == (s.fds[a].cloexec || a.fd == k.pid || k.run == Some(a.fd))
  {
  }

  lemma ExecStepKeepsSlot(s: State, leaked: set<Slot>, e: Event, a: Slot)
    requires LeakInv(s, leaked) && Apply(s, e).Some? && a in Apply(s, e).value.fds && a.pid == e.p
    requires e.Exec? || e.ChildExec? || e.Fork?
    ensures SlotOk(Apply(s, e).value, Left(s, leaked, e), a)
  {
    assert SlotOk(s, leaked, a);
    assert KindInv(s, e.p);
  }

  lemma ReleaseKeepsSlot(s: State, leaked: set<Slot>, e: Event, a: Slot)
    requires LeakInv(s, leaked) && Apply(s, e).Some? && a in Apply(s, e).value.fds && a.pid == e.p && e.Release?
    ensures a.pid in Apply(s, e).value.kinds && SlotOk(Apply(s, e).value, Left(s, leaked, e), a)
  {
    assert a in s.fds && SlotOk(s, leaked, a) && FileOf(s, a).home == a;
    LockIsLocal(s, Slot(e.p, s.kinds[e.p].pid), Unlocked, a);
  }

  lemma ProbeKeepsSlot(s: State, leaked: set<Slot>, e: Event, a: Slot)
    requires LeakInv(s, leaked) && Apply(s, e).Some? && a in Apply(s, e).value.fds && a.pid == e.p
    requires e.ProbeOpen? || e.ProbeFlock? || e.ProbeUnlock?
    ensures a.pid in Apply(s, e).value.kinds && SlotOk(Apply(s, e).value, Left(s, leaked, e), a)
  {
    if a in s.fds {
      assert SlotOk(s, leaked, a) && FileOf(s, a).home == a;
    }
  }

  lemma OtherStepKeepsSlot(s: State, leaked: set<Slot>, e: Event, a: Slot)
    requires LeakInv(s, leaked) && Apply(s, e).Some? && a in Apply(s, e).value.fds && a.pid == e.p
    requires e.Start? || e.Release? || e.ProbeOpen? || e.ProbeFlock? || e.ProbeUnlock? || e.Exit?
    ensures a.pid in Apply(s, e).value.kinds && SlotOk(Apply(s, e).value, Left(s, leaked, e), a)
  {
    if e.Release? {
      ReleaseKeepsSlot(s, leaked, e, a);
    } else if e.ProbeOpen? || e.ProbeFlock? || e.ProbeUnlock? {
      ProbeKeepsSlot(s, leaked, e, a);
    }
  }

  lemma StepKeepsSlot(s: State, leaked: set<Slot>, e: Event, a: Slot)
    requires LeakInv(s, leaked) && Apply(s, e).Some? && a in Apply(s, e).value.fds && a.pid in Apply(s, e).value.kinds
    ensures SlotOk(Apply(s, e).value, Left(s, leaked, e), a)
  {
    if e.Fork? && a.pid == e.child {
      ForkedSlot(s, leaked, e.p, e.child, a);
    } else if a.pid != e.p {
      OthersKeepSlot(s, leaked, e, a);
    } else {
      OwnStepKeepsSlot(s, leaked, e, a);
    }
  }

  lemma OwnStepKeepsSlot(s: State, leaked: set<Slot>, e: Event, a: Slot)
    requires LeakInv(s, leaked) && Apply(s, e).Some? && a in Apply(s, e).value.fds && a.pid in Apply(s, e).value.kinds
    requires a.pid == e.p
    ensures SlotOk(Apply(s, e).value, Left(s, leaked, e), a)
  {
    match e
    case RunAdopt(_, _) => RunAdoptKeepsSlot(s, leaked, e, a);
    case RunHold(_, _) => RunHoldKeepsSlot(s, leaked, e, a);
    case RunSkip(_) => RunSkipKeepsSlot(s, leaked, e, a);
    case PidAdopt(_, _) => PidAdoptKeepsSlot(s, leaked, e, a);
    case PidOpen(_, _) => PidOpenKeepsSlot(s, leaked, e, a);
    case PidFlock(_) => PidFlockKeepsSlot(s, leaked, e, a);
    case TakeForkLock(_) => ForkLockKeepsSlot(s, leaked, e, a);
    case ClearPid(_, _) => ClearKeepsSlot(s, leaked, e, a);
    case ClearRun(_, _) => ClearKeepsSlot(s, leaked, e, a);
    case Restore(_) => RestoreKeepsSlot(s, leaked, e, a);
    case UnlockFork(_) => ForkLockKeepsSlot(s, leaked, e, a);
    case Exec(_, _) => ExecStepKeepsSlot(s, leaked, e, a);
    case ChildExec(_) => ExecStepKeepsSlot(s, leaked, e, a);
    case Fork(_, _) => ExecStepKeepsSlot(s, leaked, e, a);
    case _ => OtherStepKeepsSlot(s, leaked, e, a);
  }

  lemma StepKeepsLeakInv(s: State, leaked: set<Slot>, e: Event)
    requires LeakInv(s, leaked) && Apply(s, e).Some?
    ensures LeakInv(Apply(s, e).value, Left(s, leaked, e))
  {
    var n := Apply(s, e).value;
    ApplyKeepsInv(s, e);
    forall p | p in n.kinds ensures BootOk(n.kinds[p]) {
      StepKeepsBoot(s, e, p);
    }
    forall a | a in n.fds ensures SlotOk(n, Left(s, leaked, e), a) {
      StepKeepsSlot(s, leaked, e, a);
    }
  }

  lemma {:induction false} RunKeepsLeakInv(es: seq<Event>)
    ensures Run(es).Some? ==> LeakInv(Run(es).value, Leaked(es))
  {
    if es != [] && Run(es).Some? {
      var init, e := es[..|es| - 1], es[|es| - 1];
      RunKeepsLeakInv(init);
      StepKeepsLeakInv(Run(init).value, Leaked(init), e);
      assert Leaked(es) == Left(Run(init).value, Leaked(init), e);
    }
  }

  // ---- main results ----------------------------------------------------------------

  /**
   Past the pid-lock gate, with ForkLock free, a descriptor of an image is inheritable if and only
   if a gate skip left it behind; and then it is on the run file and holds the run lock.
   */
  lemma InheritableIffLeaked(es: seq<Event>, a: Slot)
    requires Run(es).Some? && a.pid in Run(es).value.kinds
    requires PastGate(Run(es).value.kinds[a.pid]) && !ForkLocked(Run(es).value.kinds[a.pid])
    ensures var s := Run(es).value;
      && (a in s.fds && !s.fds[a].cloexec <==> a in Leaked(es))
      && (a in Leaked(es) ==> Holds(s, a, RunFile, Shared))
  {
    RunKeepsLeakInv(es);
    if a in Run(es).value.fds {
      assert SlotOk(Run(es).value, Leaked(es), a);
    }
  }

  /** Fork and then the child's exec: what is left of a descriptor is its inheritable copy. */
  lemma ForkThenExec(s: State, p: Pid, c: Pid, fd: Fd)
    requires Tables(s) && p in s.kinds && IsImage(s.kinds[p]) && !ForkLocked(s.kinds[p]) && c !in s.kinds
    ensures Apply(s, Fork(p, c)).Some? && Apply(Apply(s, Fork(p, c)).value, ChildExec(c)).Some?
    ensures var n := Apply(Apply(s, Fork(p, c)).value, ChildExec(c)).value;
      && (Slot(c, fd) in n.fds <==> Slot(p, fd) in s.fds && !s.fds[Slot(p, fd)].cloexec)
      && (Slot(c, fd) in n.fds ==> n.fds[Slot(c, fd)] == s.fds[Slot(p, fd)]) && n.open == s.open
      && p in n.kinds && n.kinds[p] == s.kinds[p] && c in n.kinds && n.kinds[c].Child? && n.kinds[c].execed
  {
    assert Slot(c, fd) !in s.fds;
    var f := Apply(s, Fork(p, c)).value;
    assert Slot(c, fd) in f.fds <==> Slot(p, fd) in s.fds;
  }

  /**
   A child forked there has, after its own exec, exactly the copies of the leaked descriptors, and
   holds the run lock through them.
   */
  lemma ChildKeepsExactlyLeaked(es: seq<Event>, p: Pid, c: Pid, fd: Fd)
    requires Run(es).Some? && p in Run(es).value.kinds
    requires PastGate(Run(es).value.kinds[p]) && !ForkLocked(Run(es).value.kinds[p]) && c !in Run(es).value.kinds
    ensures Apply(Run(es).value, Fork(p, c)).Some? && Apply(Apply(Run(es).value, Fork(p, c)).value, ChildExec(c)).Some?
    ensures var n := Apply(Apply(Run(es).value, Fork(p, c)).value, ChildExec(c)).value;
      && (Slot(c, fd) in n.fds <==> Slot(p, fd) in Leaked(es))
      && (Slot(c, fd) in n.fds ==> Holds(n, Slot(c, fd), RunFile, Shared))
      && p in n.kinds && n.kinds[p] == Run(es).value.kinds[p] && c in n.kinds && n.kinds[c].Child? && n.kinds[c].execed
  {
    RunKeepsLeakInv(es);
    ForkThenExec(Run(es).value, p, c, fd);
    InheritableIffLeaked(es, Slot(p, fd));
  }

  // ---- it does happen ------------------------------------------------------------------

  lemma RunSnoc(es: seq<Event>, e: Event)
    requires Run(es).Some?
    ensures Run(es + [e]) == Apply(Run(es).value, e)
    ensures Run(es + [e]).Some? ==> Leaked(es + [e]) == Left(Run(es).value, Leaked(es), e)
  {
    assert (es + [e])[..|es|] == es;
  }

  /** p is there after es, and is k. */
  ghost predicate IsKind(es: seq<Event>, p: Pid, k: Kind) {
    Run(es).Some? && p in Run(es).value.kinds && Run(es).value.kinds[p] == k
  }

  lemma StepTakeForkLock(es: seq<Event>, p: Pid, pid: Fd, run: Fd)
    requires IsKind(es, p, Serving(pid, Some(run)))
    ensures IsKind(es + [TakeForkLock(p)], p, Handing(pid, Some(run), Todo, Todo))
  {
    RunSnoc(es, TakeForkLock(p));
  }

  lemma StepClearPid(es: seq<Event>, p: Pid, pid: Fd, run: Fd)
    requires IsKind(es, p, Handing(pid, Some(run), Todo, Todo))
    ensures IsKind(es + [ClearPid(p, true)], p, Handing(pid, Some(run), Kept, Todo))
  {
    RunKeepsInv(es);
    assert KindInv(Run(es).value, p);
    RunSnoc(es, ClearPid(p, true));
  }

  lemma StepClearRun(es: seq<Event>, p: Pid, pid: Fd, run: Fd)
    requires IsKind(es, p, Handing(pid, Some(run), Kept, Todo))
    ensures IsKind(es + [ClearRun(p, true)], p, Handing(pid, Some(run), Kept, Kept))
  {
    RunKeepsInv(es);
    assert KindInv(Run(es).value, p);
    RunSnoc(es, ClearRun(p, true));
  }

  /** The exec of a restart that handed both locks over. */
  lemma StepExec(es: seq<Event>, p: Pid, pid: Fd, run: Fd)
    requires IsKind(es, p, Handing(pid, Some(run), Kept, Kept))
    ensures IsKind(es + [Exec(p, true)], p, Boot(Some(pid), true, Some(run), None, false, 0))
    ensures HandedRun(Run(es + [Exec(p, true)]).value, Slot(p, run))
  {
    RunKeepsInv(es);
    assert KindInv(Run(es).value, p);
    RunSnoc(es, Exec(p, true));
  }

  /** Whenever a new image that was handed the run lock cannot enter the config gate, that descriptor is leaked. */
  lemma SkippedGateLeaks(es: seq<Event>, p: Pid, pid: Fd, run: Fd)
    requires IsKind(es, p, Boot(Some(pid), true, Some(run), None, false, 0)) && HandedRun(Run(es).value, Slot(p, run))
    ensures IsKind(es + [RunSkip(p)], p, Boot(Some(pid), true, None, None, true, 0))
    ensures Slot(p, run) in Leaked(es + [RunSkip(p)])
  {
    RunSnoc(es, RunSkip(p));
  }

  /** ... and it is still there once the image serves: adopting the pid lock leaves other descriptors alone. */
  lemma LeakOutlivesAdoption(es: seq<Event>, p: Pid, pid: Fd, a: Slot)
    requires IsKind(es, p, Boot(Some(pid), true, None, None, true, 0)) && a in Leaked(es) && a.pid == p
    ensures IsKind(es + [PidAdopt(p, true)], p, Serving(pid, None)) && a in Leaked(es + [PidAdopt(p, true)])
  {
    RunKeepsLeakInv(es);
    assert SlotOk(Run(es).value, Leaked(es), a);
    assert Reachable(Run(es).value);
    AdoptLeavesRunSlot(Run(es).value, p, pid, a);
    RunSnoc(es, PidAdopt(p, true));
  }

  lemma AdoptLeavesRunSlot(s: State, p: Pid, pid: Fd, a: Slot)
    requires Reachable(s) && p in s.kinds && s.kinds[p] == Boot(Some(pid), true, None, None, true, 0)
    requires a.pid == p && HandedRun(s, a)
    ensures Apply(s, PidAdopt(p, true)).Some?
    ensures var n := Apply(s, PidAdopt(p, true)).value;
      p in n.kinds && n.kinds[p] == Serving(pid, None) && a in n.fds && !n.fds[a].cloexec
  {
    AdoptionSucceeds(s, p);
    ReachableInv(s);
    assert KindInv(s, p);
  }

  /** Every serving daemon with a run lock can restart into one that has leaked it. */
  lemma RestartCanLeak(es: seq<Event>, p: Pid, pid: Fd, run: Fd) returns (all: seq<Event>)
    requires IsKind(es, p, Serving(pid, Some(run)))
    ensures IsKind(all, p, Serving(pid, None)) && Slot(p, run) in Leaked(all)
  {
    StepTakeForkLock(es, p, pid, run);
    all := es + [TakeForkLock(p)];
    StepClearPid(all, p, pid, run);
    all := all + [ClearPid(p, true)];
    StepClearRun(all, p, pid, run);
    all := all + [ClearRun(p, true)];
    StepExec(all, p, pid, run);
    all := all + [Exec(p, true)];
    SkippedGateLeaks(all, p, pid, run);
    all := all + [RunSkip(p)];
    LeakOutlivesAdoption(all, p, pid, Slot(p, run));
    all := all + [PidAdopt(p, true)];
  }

  ghost predicate HasOnly(es: seq<Event>, slots: set<Slot>) {
    Run(es).Some? && Run(es).value.fds.Keys == slots
  }

  lemma StepStart() returns (es: seq<Event>)
    ensures IsKind(es, 1, Boot(None, false, None, None, false, 0)) && HasOnly(es, {})
  {
    RunSnoc([], Start(1, None, None));
    es := [] + [Start(1, None, None)];
  }

  lemma StepRunHold(es: seq<Event>)
    requires IsKind(es, 1, Boot(None, false, None, None, false, 0)) && HasOnly(es, {})
    ensures IsKind(es + [RunHold(1, 3)], 1, Boot(None, false, None, Some(3), true, 0))
    ensures HasOnly(es + [RunHold(1, 3)], {Slot(1, 3)})
  {
    RunSnoc(es, RunHold(1, 3));
    var o := Open(Run(es).value, Slot(1, 3), RunFile);
    assert forall b :: IsOpen(o, b) ==> b == Slot(1, 3);
    assert CanLock(o, Slot(1, 3), Shared);
  }

  lemma StepPidOpen(es: seq<Event>)
    requires IsKind(es, 1, Boot(None, false, None, Some(3), true, 0)) && HasOnly(es, {Slot(1, 3)})
    ensures IsKind(es + [PidOpen(1, 4)], 1, Opened(4, Some(3), 1))
    ensures HasOnly(es + [PidOpen(1, 4)], {Slot(1, 3), Slot(1, 4)})
  {
    RunSnoc(es, PidOpen(1, 4));
  }

  lemma StepPidFlock(es: seq<Event>)
    requires IsKind(es, 1, Opened(4, Some(3), 1)) && HasOnly(es, {Slot(1, 3), Slot(1, 4)})
    ensures IsKind(es + [PidFlock(1)], 1, Serving(4, Some(3)))
  {
    var s := Run(es).value;
    RunKeepsInv(es);
    assert KindInv(s, 1);
    RunSnoc(es, PidFlock(1));
    assert forall b :: IsOpen(s, b) && FileOf(s, b).file == PidFile ==> b == Slot(1, 4);
    assert CanLock(s, Slot(1, 4), Exclusive);
  }

  /** One daemon that took both locks. */
  lemma FirstDaemon() returns (es: seq<Event>)
    ensures IsKind(es, 1, Serving(4, Some(3)))
  {
    es := StepStart();
    StepRunHold(es);
    es := es + [RunHold(1, 3)];
    StepPidOpen(es);
    es := es + [PidOpen(1, 4)];
    StepPidFlock(es);
    es := es + [PidFlock(1)];
  }

  /** A child past its exec holds the run lock while its parent serves without one. */
  ghost predicate ChildKeepsRunLock(s: State, p: Pid, c: Pid, fd: Fd) {
    && p in s.kinds && s.kinds[p].Serving? && s.kinds[p].run.None?
    && c in s.kinds && s.kinds[c].Child? && s.kinds[c].execed
    && Holds(s, Slot(c, fd), RunFile, Shared)
  }

  lemma ForkedChildKeeps(es: seq<Event>, p: Pid, pid: Fd, c: Pid, fd: Fd)
    requires IsKind(es, p, Serving(pid, None)) && Slot(p, fd) in Leaked(es) && c !in Run(es).value.kinds
    ensures Run(es + [Fork(p, c)] + [ChildExec(c)]).Some?
    ensures ChildKeepsRunLock(Run(es + [Fork(p, c)] + [ChildExec(c)]).value, p, c, fd)
  {
    ChildKeepsExactlyLeaked(es, p, c, fd);
    RunTwice(es, Fork(p, c), ChildExec(c));
  }

  lemma RunTwice(es: seq<Event>, e: Event, f: Event)
    requires Run(es).Some? && Apply(Run(es).value, e).Some?
    ensures Run(es + [e] + [f]) == Apply(Apply(Run(es).value, e).value, f)
  {
    RunSnoc(es, e);
    RunSnoc(es + [e], f);
  }

  /** It does happen: in a reachable state a child keeps the run lock of a daemon whose restart skipped the gate. */
  lemma ChildCanKeepTheRunLock()
    ensures exists s, p, c, fd :: Reachable(s) && ChildKeepsRunLock(s, p, c, fd)
  {
    var first := FirstDaemon();
    var es := RestartCanLeak(first, 1, 4, 3);
    var c := AboveAll(Run(es).value.kinds.Keys);
    ForkedChildKeeps(es, 1, 4, c, 3);
    var s := Run(es + [Fork(1, c)] + [ChildExec(c)]).value;
    assert Reachable(s) && ChildKeepsRunLock(s, 1, c, 3);
  }

  lemma {:induction false} AboveAll(used: set<Pid>) returns (c: Pid)
    ensures forall p :: p in used ==> p < c
    decreases |used|
  {
    c := 0;
    if used != {} {
      var p :| p in used;
      c := AboveAll(used - {p});
      assert forall q :: q in used ==> q == p || q in used - {p};
      if c <= p { c := p + 1; }
    }
  }

  /** A new image that was handed the run lock and enters the gate adopts it, close-on-exec again. */
  lemma HandedRunIsAdopted(s: State, p: Pid, fd: Fd)
    requires Reachable(s) && p in s.kinds && s.kinds[p].Boot? && !s.kinds[p].runDone && s.kinds[p].runEnv == Some(fd)
    requires fd >= 3 && HandedRun(s, Slot(p, fd))
    ensures Apply(s, RunAdopt(p, true)).Some?
    ensures var n := Apply(s, RunAdopt(p, true)).value;
      && p in n.kinds && n.kinds[p] == s.kinds[p].(runEnv := None, run := Some(fd), runDone := true)
      && Slot(p, fd) in n.fds && n.fds[Slot(p, fd)].cloexec
  {
    ReachableInv(s);
    var a := Slot(p, fd);
    assert CanLock(s, a, Shared) by {
      forall b | IsOpen(s, b) && FileOf(s, b).file == RunFile && s.fds[b].ofd != s.fds[a].ofd
        ensures Compatible(FileOf(s, b).lock, Shared)
      {
      }
    }
  }
}
