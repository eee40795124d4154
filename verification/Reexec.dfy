/**
 captureReexecPlan and reexec of cmd/pdx/reexec.go as the loops they are. The
 LockHandoff module runs the same steps against other processes; this one ties
 the loops over the held descriptors to what every concurrent fork may see.
 */
module Reexec {
  import opened Outcomes

  const PID_LOCK_FD_ENV := "PDX_PIDLOCK_FD="
  const RUN_LOCK_FD_ENV := "PDX_RUNLOCK_FD="

  predicate IsHandOff(kv: string) {
    PID_LOCK_FD_ENV <= kv || RUN_LOCK_FD_ENV <= kv
  }

  /** The entries that are no hand-off entry, in order. */
  function WithoutHandOff(env: seq<string>): seq<string> {
    if env == [] then []
    else
      var rest := WithoutHandOff(env[..|env| - 1]);
      if IsHandOff(env[|env| - 1]) then rest else rest + [env[|env| - 1]]
  }

  method CaptureEnv(env: seq<string>) returns (kept: seq<string>)
    ensures kept == WithoutHandOff(env)
  {
    kept := [];
    for i := 0 to |env|
      invariant kept == WithoutHandOff(env[..i])
    {
      assert env[..i + 1][..i] == env[..i];
      if !IsHandOff(env[i]) {
        kept := kept + [env[i]];
      }
    }
    assert env[..|env|] == env;
  }

  lemma {:induction false} WithoutHandOffConcat(a: seq<string>, b: seq<string>)
    ensures WithoutHandOff(a + b) == WithoutHandOff(a) + WithoutHandOff(b)
  {
    if b == [] {
      assert a + b == a;
    } else {
      assert (a + b)[..|a + b| - 1] == a + b[..|b| - 1];
      WithoutHandOffConcat(a, b[..|b| - 1]);
    }
  }

  lemma {:induction false} WithoutHandOffIsClean(env: seq<string>)
    ensures forall kv :: kv in WithoutHandOff(env) <==> kv in env && !IsHandOff(kv)
    ensures forall kv :: kv in WithoutHandOff(env) <==>
              kv in env && !("PDX_PIDLOCK_FD=" <= kv) && !("PDX_RUNLOCK_FD=" <= kv)
    ensures WithoutHandOff(WithoutHandOff(env)) == WithoutHandOff(env)
  {
    if env != [] {
      var last := env[|env| - 1];
      WithoutHandOffIsClean(env[..|env| - 1]);
      assert env == env[..|env| - 1] + [last];
      if !IsHandOff(last) {
        WithoutHandOffConcat(WithoutHandOff(env[..|env| - 1]), [last]);
        assert WithoutHandOff([last]) == [last];
      }
    }
  }

  predicate AllHandOff(h: seq<string>) {
    forall kv :: kv in h ==> IsHandOff(kv)
  }

  /** The environment the n-th image of a chain of restarts captures, whatever fd numbers were handed over. */
  function CapturedAfter(boot: seq<string>, handed: seq<seq<string>>): seq<string> {
    if handed == [] then WithoutHandOff(boot)
    else WithoutHandOff(CapturedAfter(boot, handed[..|handed| - 1]) + handed[|handed| - 1])
  }

  /** Any number of restarts re-exec with the first image's environment: nothing stale piles up. */
  lemma {:induction false} RestartsKeepBootEnv(boot: seq<string>, handed: seq<seq<string>>)
    requires forall i :: 0 <= i < |handed| ==> AllHandOff(handed[i])
    ensures CapturedAfter(boot, handed) == WithoutHandOff(boot)
  {
    WithoutHandOffIsClean(boot);
    if handed != [] {
      var h := handed[|handed| - 1];
      RestartsKeepBootEnv(boot, handed[..|handed| - 1]);
      WithoutHandOffConcat(WithoutHandOff(boot), h);
      WithoutHandOffIsClean(h);
      assert AllHandOff(h);
      assert WithoutHandOff(h) == [];
    }
  }

  // ---- reexec ------------------------------------------------------------

  type Fd = nat

  /** What a fork at some instant would see. */
  datatype Instant = Instant(forkLocked: bool, inheritable: set<Fd>)

  datatype Outcome = Replaced(survivors: set<Fd>) | Failed

  class Image {
    var forkLocked: bool           // syscall.ForkLock is held
    var inheritable: set<Fd>       // descriptors without close-on-exec
    ghost var seen: seq<Instant>   // every state the process has been in

    ghost predicate Recorded()
      reads this
    {
      |seen| > 0 && seen[|seen| - 1] == Instant(forkLocked, inheritable)
    }

    constructor (inheritable: set<Fd>)
      ensures Recorded() && !forkLocked && this.inheritable == inheritable && seen == [Instant(false, inheritable)]
    {
      this.forkLocked := false;
      this.inheritable := inheritable;
      this.seen := [Instant(false, inheritable)];
    }

    method Become(forkLocked: bool, inheritable: set<Fd>)
      modifies this
      ensures Recorded() && this.forkLocked == forkLocked && this.inheritable == inheritable
      ensures seen == old(seen) + [Instant(forkLocked, inheritable)]
    {
      this.forkLocked := forkLocked;
      this.inheritable := inheritable;
      seen := seen + [Instant(forkLocked, inheritable)];
    }

    /** Under ForkLock: clear close-on-exec on each held descriptor; one that fails stays as it is. */
    method ClearAll(held: seq<Fd>, cleared: Fd -> bool)
      requires Recorded() && forkLocked
      modifies this
      ensures Recorded() && forkLocked && |seen| >= |old(seen)| && seen[..|old(seen)|] == old(seen)
      ensures forall j :: |old(seen)| <= j < |seen| ==> seen[j].forkLocked
      ensures forall f :: f in inheritable <==> f in old(inheritable) || (cleared(f) && f in held)
    {
      for i := 0 to |held|
        invariant Recorded() && forkLocked && |seen| >= |old(seen)| && seen[..|old(seen)|] == old(seen)
        invariant forall j :: |old(seen)| <= j < |seen| ==> seen[j].forkLocked
        invariant forall f :: f in inheritable <==> f in old(inheritable) || (cleared(f) && f in held[..i])
      {
        if cleared(held[i]) {
          Become(true, inheritable + {held[i]});
        }
      }
      assert held[..|held|] == held;
    }

    /** Still under ForkLock: make each held descriptor close-on-exec again. */
    method RestoreAll(held: seq<Fd>)
      requires Recorded() && forkLocked
      modifies this
      ensures Recorded() && forkLocked && |seen| >= |old(seen)| && seen[..|old(seen)|] == old(seen)
      ensures forall j :: |old(seen)| <= j < |seen| ==> seen[j].forkLocked
      ensures forall f :: f in inheritable <==> f in old(inheritable) && f !in held
    {
      for i := 0 to |held|
        invariant Recorded() && forkLocked && |seen| >= |old(seen)| && seen[..|old(seen)|] == old(seen)
        invariant forall j :: |old(seen)| <= j < |seen| ==> seen[j].forkLocked
        invariant forall f :: f in inheritable <==> f in old(inheritable) && f !in held[..i]
      {
        Become(true, inheritable - {held[i]});
      }
      assert held[..|held|] == held;
    }

    /**
     lock and runLock are the plan's two files; cleared answers each clearCloseOnExec,
     execOk the exec. No fork can see a held descriptor inheritable: at every instant
     with ForkLock free they are all close-on-exec, also after a failed exec. A
     successful exec keeps exactly the descriptors whose clear succeeded.
     */
    method Reexec(lock: Option<Fd>, runLock: Option<Fd>, cleared: Fd -> bool, execOk: bool) returns (r: Outcome)
      requires Recorded() && !forkLocked
      requires lock.Some? ==> lock.value !in inheritable
      requires runLock.Some? ==> runLock.value !in inheritable
      modifies this
      ensures |seen| >= |old(seen)| && seen[..|old(seen)|] == old(seen)
      ensures forall i :: |old(seen)| <= i < |seen| && !seen[i].forkLocked ==> seen[i].inheritable == old(inheritable)
      ensures r.Replaced? <==> execOk
      ensures r.Replaced? ==>
                forall f :: f in r.survivors <==>
                  f in old(inheritable) || (cleared(f) && (lock == Some(f) || runLock == Some(f)))
      ensures r.Failed? ==> !forkLocked && inheritable == old(inheritable)
    {
      var held: seq<Fd> := [];
      if lock.Some? { held := held + [lock.value]; }
      if runLock.Some? { held := held + [runLock.value]; }
      if |held| > 0 {
        Become(true, inheritable);
        ClearAll(held, cleared);
      }
      if execOk {
        return Replaced(inheritable);
      }
      if |held| > 0 {
        RestoreAll(held);
        assert inheritable == old(inheritable);
        Become(false, inheritable);
      }
      return Failed;
    }
  }
}
