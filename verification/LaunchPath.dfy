/**
 The launch environment of electron/local-daemon/index.ts: a PATH read from the user's shell,
 or a made-up fallback when the shell could not be asked, probed once and again on demand.
 */
module LaunchPath {
  import opened Outcomes

  datatype LaunchEnv = LaunchEnv(path: string, shell: bool)

  function AfterCached(c: Option<LaunchEnv>, probe: LaunchEnv): LaunchEnv {
    if c.Some? then c.value else probe
  }

  function AfterRefresh(c: Option<LaunchEnv>, probe: LaunchEnv): LaunchEnv {
    if !probe.shell && c.Some? && c.value.shell then c.value else probe
  }

  /** A PATH once read from the shell is not given up for a fallback. */
  ghost predicate Kept(before: Option<LaunchEnv>, after: Option<LaunchEnv>) {
    before.Some? && before.value.shell ==> after.Some? && after.value.shell
  }

  class EnvCache {
    var cache: Option<LaunchEnv>
    var promise: Option<LaunchEnv>

    ghost predicate Valid()
      reads this
    {
      cache == promise
    }

    constructor ()
      ensures Valid() && cache == None
    {
      cache, promise := None, None;
    }

    /** cachedLaunchEnv; probe is the answer should the shell be asked. */
    method Cached(probe: LaunchEnv) returns (r: LaunchEnv)
      requires Valid()
      modifies this
      ensures Valid() && cache == Some(r) && r == AfterCached(old(cache), probe) && Kept(old(cache), cache)
    {
      if promise.None? {
        promise := Some(probe);
        cache := Some(probe);
      }
      r := promise.value;
    }

    /** refreshLaunchEnv. */
    method Refresh(probe: LaunchEnv) returns (r: LaunchEnv)
      requires Valid()
      modifies this
      ensures Valid() && cache == Some(r) && r == AfterRefresh(old(cache), probe) && Kept(old(cache), cache)
    {
      if !probe.shell && cache.Some? && cache.value.shell {
        return cache.value;
      }
      cache := Some(probe);
      promise := Some(probe);
      r := probe;
    }
  }

  // ---- every sequence of uses ----------------------------------------------------

  datatype Use = Cached(probe: LaunchEnv) | Refresh(probe: LaunchEnv)

  function After(c: Option<LaunchEnv>, u: Use): LaunchEnv {
    if u.Cached? then AfterCached(c, u.probe) else AfterRefresh(c, u.probe)
  }

  function Play(uses: seq<Use>): Option<LaunchEnv> {
    if uses == [] then None else Some(After(Play(uses[..|uses| - 1]), uses[|uses| - 1]))
  }

  /** The shell is asked at use i: on every refresh, and by the first use at all. */
  predicate Asks(uses: seq<Use>, i: nat)
    requires i < |uses|
  {
    uses[i].Refresh? || i == 0
  }

  /** Use i asked the shell and was answered, and no later use was. */
  ghost predicate LastShellAnswer(uses: seq<Use>, i: int) {
    && 0 <= i < |uses| && Asks(uses, i) && uses[i].probe.shell
    && forall j :: i < j < |uses| && Asks(uses, j) ==> !uses[j].probe.shell
  }

  /** What is kept is the last PATH the shell gave. */
  lemma {:induction false} CacheIsLastShellAnswer(uses: seq<Use>, i: nat)
    requires LastShellAnswer(uses, i)
    ensures Play(uses) == Some(uses[i].probe)
  {
    var n := |uses| - 1;
    if i < n {
      var init := uses[..n];
      forall j | i < j < n && Asks(init, j) ensures !init[j].probe.shell {
        assert Asks(uses, j);
      }
      assert LastShellAnswer(init, i);
      CacheIsLastShellAnswer(init, i);
      assert Asks(uses, n) ==> !uses[n].probe.shell;
    }
  }

  /** A fallback is used only while the shell has never answered. */
  lemma {:induction false} FallbackMeansNeverAnswered(uses: seq<Use>, i: nat)
    requires Play(uses).Some? && !Play(uses).value.shell
    requires i < |uses| && Asks(uses, i)
    ensures !uses[i].probe.shell
  {
    var n := |uses| - 1;
    var init := uses[..n];
    if i < n {
      assert Asks(init, i) && init[i] == uses[i];
      FallbackMeansNeverAnswered(init, i);
    }
  }
}
