/**
 Installing, starting and restarting the local daemon (electron/local-daemon/index.ts). Every
 answer from outside - lsof, exec, fetch, the file system, probes, the clock - is an arbitrary
 value (`*`), so what is proved holds for all of them. What an operation sees and does is kept
 as a trace, and each effect must be justified by what was seen before it in the same operation.
 */
module LocalDaemon {
  import opened Outcomes
  import opened Text
  import opened Lsof
  import opened LaunchPath

  type Bytes = seq<int>

  type Digest = Bytes -> string        // sha256 in hex

  datatype Target = Target(goos: string, goarch: string)

  datatype Identity = Identity(target: Target, hash: string)

  /** The integrity headers of a download. */
  datatype Declared = Declared(len: int, sha: string, hash: string)

  /** What the managed binary answers to `pdx path --json`. */
  datatype CliState = Report(resolved: Option<string>) | Unparseable | ExecFailed | NoBinary

  datatype Address = Address(bind: string, port: int)

  /** What was decided, and about which address. */
  datatype Decision = Decision(own: Ownership, at: Address)

  datatype Operation = Install | Start | Restart | EnsureRunning

  datatype Effect =
    | Began(op: Operation)
    // the gate
    | Checked(dir: string, there: bool)                        // whether dir/pdx exists
    | Gate(cli: CliState, path: string, pass: bool)
    // an ownership pass
    | Looking                                                  // it begins
    | Candidate(named: Option<int>)                            // what the pid file names
    | Kill0(pid: int, alive: bool)
    | TxtListed(pid: int, out: string)                         // the listing of the process's own files
    | Compared(path: string, same: bool)                       // whether path is our binary
    | Mine(pid: int, path: string)                             // the process runs path
    | Decided(dec: Decision, out: string)                      // it ends, with the listing of who listens
    // a status
    | Saw(custom: bool, healthy: bool)                         // a data_dir of its own; something answers health
    | Concluded(st: Ownership)
    // a download
    | Headers(declared: Declared)
    | Ran(content: Bytes, id: Identity)                        // pdx.new with this content printed this identity
    | Unlinked(works: bool)                                    // pdx.new was to be removed
    | Swap(content: Bytes)                                     // pdx.new renamed over pdx
    // stopping and starting
    | StopRun(pid: int)                                        // `pdx stop`, meant for pid
    | Probed(pid: int, at: Address, dead: bool, refused: bool)
    | StartRun                                                 // `pdx start`
    | Answered(disk: string, live: string)                     // build hashes: on disk, and of what answers health

  datatype Failure =
    | OwnershipUnavailable
    | NotManaged(st: Ownership)
    | AlreadyRunning(pid: int)
    | PathRefused
    | Thrown

  /** What the operations are about, and how sums and numbers are read. */
  datatype Host = Host(target: Option<Target>, sha: Digest, number: Number)

  // ---- what has been seen in the operation under way -----------------------------------

  /** One ownership pass: whom it asked about, what was answered, and which process it found to be ours. */
  datatype Pass = Pass(
    candidate: Option<int>, alive: set<int>, dead: set<int>, listed: Option<(int, string)>,
    same: set<string>, differ: set<string>, mine: set<int>)

  datatype Status = Status(custom: bool, healthy: bool, answer: Option<Ownership>)

  datatype Fetched = Fetched(headers: Option<Declared>, ran: Option<Effect>)

  datatype OnPath = OnPath(there: set<string>, absent: set<string>)

  datatype Seen = Seen(
    op: Option<Operation>, dirs: OnPath, gate: bool, status: Status, new_: Fetched, starts: nat,
    pass: Pass, owner: Option<Decision>, gone: set<(int, Address)>)

  const NO_PASS := Pass(None, {}, {}, None, {}, {}, {})
  const NOTHING := Seen(None, OnPath({}, {}), false, Status(false, false, None), Fetched(None, None), 0,
                        NO_PASS, None, {})

  function Watch(s: Seen, e: Effect): Seen {
    match e
    case Began(op) => NOTHING.(op := Some(op))
    case Checked(dir, there) =>
      s.(dirs := if there then s.dirs.(there := s.dirs.there + {dir}) else s.dirs.(absent := s.dirs.absent + {dir}))
    case Gate(_, _, pass) => s.(gate := pass)
    case Looking => s.(pass := NO_PASS, owner := None, gone := {})
    case Candidate(pid) => s.(pass := s.pass.(candidate := pid))
    case Kill0(pid, alive) =>
      s.(pass := if alive then s.pass.(alive := s.pass.alive + {pid}) else s.pass.(dead := s.pass.dead + {pid}))
    case TxtListed(pid, out) => s.(pass := s.pass.(listed := Some((pid, out))))
    case Compared(path, same) =>
      s.(pass := if same then s.pass.(same := s.pass.same + {path}) else s.pass.(differ := s.pass.differ + {path}))
    case Mine(pid, _) => s.(pass := s.pass.(mine := s.pass.mine + {pid}))
    case Decided(dec, _) => s.(owner := Some(dec), gone := {})
    case Saw(custom, healthy) => s.(status := Status(custom, healthy, None), owner := None)
    // a status answers its caller; what is done next needs a decision of its own
    case Concluded(st) => s.(status := s.status.(answer := Some(st)), owner := None, gone := {})
    case Headers(d) => s.(new_ := Fetched(Some(d), None))
    case Ran(_, _) => s.(new_ := s.new_.(ran := Some(e)), owner := None, gone := {})
    case Unlinked(_) => s
    case Swap(_) => s.(new_ := Fetched(None, None), gate := false)
    case StopRun(_) => s
    case Probed(pid, at, dead, refused) => if dead && refused then s.(gone := s.gone + {(pid, at)}) else s
    case StartRun => s.(starts := s.starts + 1)
    case Answered(_, _) => s
  }

  function Summary(t: seq<Effect>): Seen {
    if t == [] then NOTHING else Watch(Summary(t[..|t| - 1]), t[|t| - 1])
  }

  lemma SummarySnoc(t: seq<Effect>, e: Effect)
    ensures Summary(t + [e]) == Watch(Summary(t), e)
  {
    assert (t + [e])[..|t|] == t;
  }

  // ---- the rules ------------------------------------------------------------------------

  /** The gate passes when `pdx` is known to resolve or there is nothing to gate; unasked, when PATH holds a `pdx`. */
  ghost predicate GateJustified(s: Seen, cli: CliState, path: string, pass: bool) {
    match cli
    case Report(resolved) => pass <==> resolved.Some?
    case NoBinary => pass
    case _ =>
      if pass then exists i :: 0 <= i < |Split(path, ':')| && UsableDir(s.dirs.there, Split(path, ':')[i])
      else forall i :: 0 <= i < |Split(path, ':')| ==> Split(path, ':')[i] == "" || Split(path, ':')[i] in s.dirs.absent
  }

  predicate UsableDir(there: set<string>, dir: string) {
    dir != "" && dir in there
  }

  /** The latest ownership decision has no foreign listener. */
  predicate NotForeign(s: Seen) {
    s.owner.Some? && !s.owner.value.own.External?
  }

  /**
   No foreign listener, and the live process it named was afterwards seen dead with the very address
   decided on refused.
   */
  predicate Released(s: Seen) {
    && NotForeign(s)
    && (AliveOf(s.owner.value.own).Some? ==> (AliveOf(s.owner.value.own).value, s.owner.value.at) in s.gone)
  }

  /** Who listens at the address, by that listing. */
  ghost function Listening(host: Host, at: Address, out: string): seq<Option<int>> {
    ListenersOn(Parsed(host.number, out), at.bind, at.port)
  }

  /** The process the pass found to be ours, if any. */
  function Ours(p: Pass): Option<int> {
    if p.candidate.Some? && p.candidate.value in p.mine then p.candidate else None
  }

  /** The pid file's process was asked after; if it lives and is not ours, none of its files is our binary. */
  ghost predicate Examined(host: Host, p: Pass) {
    p.candidate.Some? ==>
      && (p.candidate.value in p.alive || p.candidate.value in p.dead)
      && (p.candidate.value in p.alive && p.candidate.value !in p.mine ==> NoFileIsOurs(host, p))
  }

  ghost predicate NoFileIsOurs(host: Host, p: Pass) {
    && p.listed.Some? && p.candidate == Some(p.listed.value.0)
    && var paths := TxtPaths(Parsed(host.number, p.listed.value.1), p.listed.value.0);
       forall i :: 0 <= i < |paths| ==> paths[i] in p.differ
  }

  /** External exactly when somebody else listens; the live process named is exactly the one found to be ours. */
  ghost predicate DecisionJustified(host: Host, s: Seen, dec: Decision, out: string) {
    var alive, listeners := AliveOf(dec.own), Listening(host, dec.at, out);
    && (dec.own.External? <==> exists i :: 0 <= i < |listeners| && Foreign(listeners[i], alive))
    && alive == Ours(s.pass) && Examined(host, s.pass)
  }

  /** The pass under way has this listing and found these files to differ, and nothing to be ours. */
  predicate Comparing(p: Pass, pid: int, out: string, differ: seq<string>) {
    && p.candidate == Some(pid) && pid in p.alive && p.mine == {} && p.listed == Some((pid, out))
    && forall i :: 0 <= i < |differ| ==> differ[i] in p.differ
  }

  /** path is a txt file of the process, by that listing. */
  ghost predicate IsTxt(host: Host, pid: int, out: string, path: string) {
    path in TxtPaths(Parsed(host.number, out), pid)
  }

  lemma NothingIsOurs(host: Host, p: Pass, pid: int, out: string, paths: seq<string>)
    requires Comparing(p, pid, out, paths) && paths == TxtPaths(Parsed(host.number, out), pid)
    ensures Told(host, p, pid, false)
  {
  }

  /** What a pass over the files of a live process found: one that is our binary, or that none is. */
  ghost predicate Told(host: Host, p: Pass, pid: int, same: bool) {
    && p.candidate == Some(pid) && pid in p.alive
    && (if same then pid in p.mine else p.mine == {} && NoFileIsOurs(host, p))
  }

  predicate Foreign(listener: Option<int>, alive: Option<int>) {
    alive.None? || listener != alive
  }

  /** What a status may answer: external for any of four reasons, and else what was decided. */
  predicate StatusJustified(s: Seen, st: Ownership) {
    && (st.External? <==>
          || s.status.custom
          || s.owner.None?                                     // ownership could not be told
          || s.owner.value.own.External?
          || (s.status.healthy && AliveOf(s.owner.value.own).None?))
    && (!st.External? ==> st == s.owner.value.own)
  }

  ghost predicate Justified(host: Host, s: Seen, e: Effect) {
    match e
    case Gate(cli, path, pass) => GateJustified(s, cli, path, pass)
    case Mine(pid, path) =>
      && pid in s.pass.alive && path in s.pass.same
      && s.pass.listed.Some? && s.pass.listed.value.0 == pid
      && path in TxtPaths(Parsed(host.number, s.pass.listed.value.1), pid)
    case Decided(dec, out) => DecisionJustified(host, s, dec, out)
    case Concluded(st) => StatusJustified(s, st)
    case StopRun(pid) =>
      && NotForeign(s) && AliveOf(s.owner.value.own) == Some(pid)
      && (s.op == Some(Restart) ==> s.gate && s.status.answer.Some? && s.status.answer.value.Managed?)
    case Swap(content) => SwapJustified(host, s, content)
    case StartRun => s.gate && StartJustified(s)
    case _ => true
  }

  ghost predicate SwapJustified(host: Host, s: Seen, content: Bytes) {
    && s.op == Some(Install) && s.status.answer.Some? && !s.status.answer.value.External?
    && IsFetched(host, s, content)
    && Released(s)
  }

  /** The content has the declared length and sum, ran, and is the build and platform asked for. */
  ghost predicate IsFetched(host: Host, s: Seen, content: Bytes) {
    && s.new_.headers.Some? && |content| == s.new_.headers.value.len && host.sha(content) == s.new_.headers.value.sha
    && host.target.Some? && s.new_.ran == Some(Ran(content, Identity(host.target.value, s.new_.headers.value.hash)))
  }

  /**
   A start and an ensure begin nothing unless status said managed and not running; a restart begins
   only what was managed, decided on anew after the status, and released.
   */
  predicate StartJustified(s: Seen) {
    && (s.op == Some(Start) || s.op == Some(EnsureRunning) ==> s.status.answer == Some(Managed(None)))
    && (s.op == Some(Restart) ==> s.status.answer.Some? && s.status.answer.value.Managed? && Released(s))
  }

  /** Every effect of the trace was justified by what had been seen before it. */
  ghost predicate Safe(host: Host, t: seq<Effect>) {
    t == [] || (Safe(host, t[..|t| - 1]) && Justified(host, Summary(t[..|t| - 1]), t[|t| - 1]))
  }

  lemma SafeSnoc(host: Host, t: seq<Effect>, e: Effect)
    requires Safe(host, t) && Justified(host, Summary(t), e)
    ensures Safe(host, t + [e])
  {
    assert (t + [e])[..|t|] == t;
  }

  lemma {:induction false} SafeAt(host: Host, t: seq<Effect>, k: nat)
    requires Safe(host, t) && k < |t|
    ensures Justified(host, Summary(t[..k]), t[k])
  {
    if k < |t| - 1 {
      SafeAt(host, t[..|t| - 1], k);
      assert t[..|t| - 1][..k] == t[..k];
    }
  }

  /** Nothing but the ownership pass changed. */
  predicate SameButPass(before: Seen, after: Seen) {
    && before.op == after.op && before.dirs == after.dirs && before.gate == after.gate
    && before.status == after.status && before.new_ == after.new_ && before.starts == after.starts
  }

  lemma DecisionIsJustified(host: Host, s: Seen, candidate: Option<int>, ours: bool, binExists: bool, at: Address,
                            out: string)
    requires Examined(host, s.pass) && candidate == s.pass.candidate && (ours <==> Ours(s.pass).Some?)
    ensures var own := DecideOwnership(candidate, ours, Listening(host, at, out), binExists);
            DecisionJustified(host, s, Decision(own, at), out)
  {
    var listeners := Listening(host, at, out);
    OwnershipExact(candidate, ours, listeners, binExists);
    ForeignIn(listeners, AliveOf(DecideOwnership(candidate, ours, listeners, binExists)));
  }

  lemma ForeignIn(listeners: seq<Option<int>>, alive: Option<int>)
    ensures (exists i :: 0 <= i < |listeners| && Foreign(listeners[i], alive))
       <==> (exists l :: l in listeners && !(alive.Some? && l == alive))
  {
    if i :| 0 <= i < |listeners| && Foreign(listeners[i], alive) {
      assert listeners[i] in listeners;
    }
  }

  /** A trimmed hash that names a build. */
  predicate IsBuild(hash: string) {
    hash != "" && hash != "unknown"
  }

  /** The last things done: `pdx start`, after which the build on disk answered. */
  predicate ServesOurBuild(t: seq<Effect>) {
    && |t| >= 2 && t[|t| - 2].StartRun? && t[|t| - 1].Answered?
    && IsBuild(t[|t| - 1].disk) && t[|t| - 1].live == t[|t| - 1].disk
  }

  /** Some step since before put the binary in place. */
  ghost predicate SwappedSince(before: seq<Effect>, after: seq<Effect>, bin: Option<Bytes>) {
    exists k :: |before| <= k < |after| && bin.Some? && after[k] == Swap(bin.value)
  }

  /** What a start answers, by its gate and its status. */
  predicate StartSays(s: Seen, r: Result<(), Failure>) {
    if !s.gate then r == Err(PathRefused) && s.starts == 0
    else match s.status.answer
      case None => r.Err? && s.starts == 0
      case Some(Managed(None)) => s.starts <= 1 && (r.Ok? ==> s.starts == 1) && (s.starts == 0 ==> r == Err(Thrown))
      case Some(Managed(Some(pid))) => r == Err(AlreadyRunning(pid)) && s.starts == 0
      case Some(st) => r == Err(NotManaged(st)) && s.starts == 0
  }

  /** What a restart answers: refused at the gate or by the status before anything is touched. */
  predicate RestartSays(s: Seen, r: Result<(), Failure>) {
    if !s.gate then r == Err(PathRefused) && s.starts == 0
    else match s.status.answer
      case None => r.Err? && s.starts == 0
      case Some(Managed(_)) => s.starts <= 1 && (r.Ok? ==> s.starts == 1)
      case Some(st) => r == Err(NotManaged(st)) && s.starts == 0
  }

  /** From position n on there are only looks for `pdx`. */
  ghost predicate OnlyChecks(t: seq<Effect>, n: nat) {
    n <= |t| && forall j :: n <= j < |t| ==> t[j].Checked?
  }

  /** A restart begins with its gate, and only looks for `pdx` before it is through. */
  ghost predicate GateIsAt(before: seq<Effect>, after: seq<Effect>, g: int) {
    && |before| < g < |after| && after[|before|] == Began(Restart) && after[g].Gate?
    && forall j :: |before| < j < g ==> after[j].Checked?
  }

  /** The first thing a restart does is ask the gate, and a refusal is the last. */
  ghost predicate GatedFirst(before: seq<Effect>, after: seq<Effect>, r: Result<(), Failure>) {
    exists g :: GateIsAt(before, after, g) && (!after[g].pass ==> g == |after| - 1 && r == Err(PathRefused))
  }

  lemma GateStays(before: seq<Effect>, mid: seq<Effect>, after: seq<Effect>, g: int)
    requires GateIsAt(before, mid, g) && mid <= after
    ensures GateIsAt(before, after, g) && after[g] == mid[g]
  {
  }

  datatype Ensured = PathUnresolved | Absent | Elsewhere | Already | Started | Failed

  /** What ensureRunning answers, and how often it tried. */
  predicate EnsureSays(s: Seen, r: Ensured) {
    if !s.gate then r.PathUnresolved? && s.starts == 0
    else match s.status.answer
      case None => r.Failed? && s.starts == 0
      case Some(NotInstalled) => r.Absent? && s.starts == 0
      case Some(External(_, _)) => r.Elsewhere? && s.starts == 0
      case Some(Managed(Some(_))) => r.Already? && s.starts == 0
      case Some(Managed(None)) => (r.Started? && 1 <= s.starts <= 3) || (r.Failed? && (s.starts == 0 || s.starts == 3))
  }

  predicate IsHex64(s: string) {
    |s| == 64 && forall i :: 0 <= i < 64 ==> IsDigit(s[i]) || 'a' <= s[i] <= 'f'
  }

  class Daemon {
    ghost const host: Host
    const target: Option<Target>       // None: an unsupported platform
    const sha: Digest
    const number: Number
    const env: EnvCache
    var bin: Option<Bytes>             // pdx
    var next: Option<Bytes>            // pdx.new
    var clock: int
    ghost var trace: seq<Effect>

    ghost predicate Valid()
      reads this, env
    {
      host == Host(target, sha, number) && env.Valid() && Safe(host, trace)
    }

    /** The trace only grew and a shell PATH is still one. */
    ghost predicate Since(before: seq<Effect>, path: Option<LaunchEnv>)
      reads this, env
    {
      Valid() && before <= trace && Kept(path, env.cache)
    }

    constructor (target: Option<Target>, sha: Digest, number: Number, bin: Option<Bytes>)
      ensures Valid() && trace == [] && this.bin == bin && fresh(env)
    {
      this.target, this.sha, this.number, this.bin := target, sha, number, bin;
      host := Host(target, sha, number);
      env := new EnvCache();
      next, clock, trace := None, 0, [];
    }

    ghost method Emit(e: Effect)
      requires Valid() && Justified(host, Summary(trace), e)
      modifies this`trace
      ensures Valid() && trace == old(trace) + [e] && Summary(trace) == Watch(Summary(old(trace)), e)
    {
      SafeSnoc(host, trace, e);
      SummarySnoc(trace, e);
      trace := trace + [e];
    }

    method LaunchEnvNow(anew: bool) returns (r: LaunchEnv)
      requires Valid()
      modifies env
      ensures Since(old(trace), old(env.cache))
    {
      var probe: LaunchEnv := *;
      if anew { r := env.Refresh(probe); } else { r := env.Cached(probe); }
    }

    // ---- the gate ----------------------------------------------------------------------

    /** coarsePdxOnPath: whether some directory of PATH has a file of that name. */
    method CoarsePdxOnPath(path: string) returns (found: bool)
      requires Valid()
      modifies this`trace
      ensures Since(old(trace), env.cache)
      ensures var s := Summary(trace); s == Summary(old(trace)).(dirs := s.dirs)
      ensures GateJustified(Summary(trace), Unparseable, path, found)
      ensures OnlyChecks(trace, |old(trace)|)
    {
      var dirs := Split(path, ':');
      for i := 0 to |dirs|
        invariant Since(old(trace), env.cache)
        invariant Summary(trace) == Summary(old(trace)).(dirs := Summary(trace).dirs)
        invariant OnlyChecks(trace, |old(trace)|)
        invariant forall j :: 0 <= j < i ==> dirs[j] == "" || dirs[j] in Summary(trace).dirs.absent
      {
        if dirs[i] != "" {
          var there: bool := *;
          Emit(Checked(dirs[i], there));
          if there {
            assert UsableDir(Summary(trace).dirs.there, Split(path, ':')[i]);
            return true;
          }
        }
      }
      return false;
    }

    method PathGate() returns (pass: bool)
      requires Valid()
      modifies this`trace, env
      ensures Since(old(trace), old(env.cache))
      ensures var s := Summary(trace); s == Summary(old(trace)).(gate := pass, dirs := s.dirs)
      ensures |trace| > |old(trace)| && trace[|trace| - 1].Gate? && trace[|trace| - 1].pass == pass
      ensures OnlyChecks(trace[..|trace| - 1], |old(trace)|)
    {
      var launch := LaunchEnvNow(true);
      var cli: CliState := *;
      if bin.None? { cli := NoBinary; }
      match cli {
        case Report(resolved) => pass := resolved.Some?;
        case NoBinary => pass := true;
        case Unparseable => pass := CoarsePdxOnPath(launch.path);
        case ExecFailed => pass := CoarsePdxOnPath(launch.path);
      }
      ghost var looked := trace;
      Emit(Gate(cli, launch.path, pass));
      assert trace[..|trace| - 1] == looked;
    }

    // ---- ownership -----------------------------------------------------------------------

    /** One lsof call: its output, or nothing that can be trusted (out of time, not run, a strange exit code). */
    method RunLsof() returns (r: Option<string>)
    {
      r := *;
    }

    /** Whether some txt file of the live process is our binary; None when lsof could not be trusted. */
    method RunsOurBinary(pid: int) returns (r: Option<bool>)
      requires Valid() && Summary(trace).pass == NO_PASS.(candidate := Some(pid), alive := {pid})
      modifies this`trace
      ensures Since(old(trace), env.cache) && SameButPass(Summary(old(trace)), Summary(trace))
      ensures Summary(trace).owner == Summary(old(trace)).owner
      ensures r.Some? ==> Told(host, Summary(trace).pass, pid, r.value)
    {
      var out := RunLsof();
      if out.None? { return None; }
      Emit(TxtListed(pid, out.value));
      var procs := ParseLsofF0(number, out.value);
      var paths := TxtPaths(procs, pid);
      assert forall i :: 0 <= i < |paths| ==> IsTxt(host, pid, out.value, paths[i]);
      var same := CompareFiles(pid, out.value, paths);
      if !same { NothingIsOurs(host, Summary(trace).pass, pid, out.value, paths); }
      return Some(same);
    }

    /** The loop over the txt files. */
    method CompareFiles(pid: int, ghost out: string, paths: seq<string>) returns (same: bool)
      requires Valid() && Comparing(Summary(trace).pass, pid, out, [])
      requires forall i :: 0 <= i < |paths| ==> IsTxt(host, pid, out, paths[i])
      modifies this`trace
      ensures Since(old(trace), env.cache) && SameButPass(Summary(old(trace)), Summary(trace))
      ensures Summary(trace).owner == Summary(old(trace)).owner
      ensures same ==> Told(host, Summary(trace).pass, pid, true)
      ensures !same ==> Comparing(Summary(trace).pass, pid, out, paths)
    {
      for i := 0 to |paths|
        invariant Since(old(trace), env.cache) && SameButPass(Summary(old(trace)), Summary(trace))
        invariant Summary(trace).owner == Summary(old(trace)).owner
        invariant Comparing(Summary(trace).pass, pid, out, paths[..i])
      {
        assert paths[..i + 1] == paths[..i] + [paths[i]];
        same := CompareOne(pid, out, paths[i], paths[..i]);
        if same { return; }
      }
      assert paths[..|paths|] == paths;
      return false;
    }

    method CompareOne(pid: int, ghost out: string, path: string, ghost done: seq<string>) returns (same: bool)
      requires Valid() && Comparing(Summary(trace).pass, pid, out, done)
      requires IsTxt(host, pid, out, path)
      modifies this`trace
      ensures Since(old(trace), env.cache) && SameButPass(Summary(old(trace)), Summary(trace))
      ensures Summary(trace).owner == Summary(old(trace)).owner
      ensures same ==> Told(host, Summary(trace).pass, pid, true)
      ensures !same ==> Comparing(Summary(trace).pass, pid, out, done + [path])
    {
      same := *;
      Emit(Compared(path, same));
      if same { Emit(Mine(pid, path)); }
    }

    /** The pid file's process, and whether it is alive and ours; None when lsof could not be trusted. */
    method ReadCandidate() returns (candidate: Option<int>, ours: Option<bool>)
      requires Valid()
      modifies this`trace
      ensures Since(old(trace), env.cache) && SameButPass(Summary(old(trace)), Summary(trace))
      ensures Summary(trace).owner == None
      ensures ours.Some? ==>
        var p := Summary(trace).pass;
        p.candidate == candidate && Examined(host, p) && (ours.value <==> Ours(p).Some?)
    {
      Emit(Looking);
      var named: bool := *;
      if !named {
        candidate := None;
        Emit(Candidate(None));
        return candidate, Some(false);
      }
      var pid: int := *;
      candidate := Some(pid);
      Emit(Candidate(Some(pid)));
      ours := AskAfter(pid);
    }

    method AskAfter(pid: int) returns (ours: Option<bool>)
      requires Valid() && Summary(trace).pass == NO_PASS.(candidate := Some(pid))
      modifies this`trace
      ensures Since(old(trace), env.cache) && SameButPass(Summary(old(trace)), Summary(trace))
      ensures Summary(trace).owner == Summary(old(trace)).owner
      ensures ours.Some? ==>
        var p := Summary(trace).pass;
        p.candidate == Some(pid) && Examined(host, p) && (ours.value <==> Ours(p).Some?)
    {
      var alive: bool := *;
      Emit(Kill0(pid, alive));
      if !alive { return Some(false); }
      ours := RunsOurBinary(pid);
    }

    /**
     Asks lsof for the binary of each foreign listener, to name it in the reason; false when lsof could
     not be trusted.
     */
    method NameListeners(listeners: seq<Option<int>>, known: Option<int>) returns (ok: bool)
    {
      for i := 0 to |listeners| {
        if known.None? || listeners[i] != known {
          var named := RunLsof();
          if named.None? { return false; }
        }
      }
      return true;
    }

    method ResolveOwner(at: Address, binExists: bool) returns (r: Result<Ownership, Failure>)
      requires Valid()
      modifies this`trace
      ensures Since(old(trace), env.cache) && SameButPass(Summary(old(trace)), Summary(trace))
      ensures Summary(trace).owner == if r.Ok? then Some(Decision(r.value, at)) else None
      ensures r.Err? ==> r.error == OwnershipUnavailable
    {
      var candidate, same := ReadCandidate();
      if same.None? { return Err(OwnershipUnavailable); }
      var ours := same.value;
      var out := RunLsof();
      if out.None? { return Err(OwnershipUnavailable); }
      var procs := ParseLsofF0(number, out.value);
      var listeners := ListenersOn(procs, at.bind, at.port);
      var named := NameListeners(listeners, if ours then candidate else None);
      if !named { return Err(OwnershipUnavailable); }
      var own := DecideOwnership(candidate, ours, listeners, binExists);
      DecisionIsJustified(host, Summary(trace), candidate, ours, binExists, at, out.value);
      Emit(Decided(Decision(own, at), out.value));
      return Ok(own);
    }

    /** Nothing but the status and the ownership pass changed, and the answer is the one returned. */
    ghost predicate Answers(before: Seen, r: Result<Ownership, Failure>)
      reads this
    {
      var s := Summary(trace);
      && before.op == s.op && before.dirs == s.dirs && before.gate == s.gate && before.starts == s.starts
      && before.new_ == s.new_ && s.status.answer == (if r.Ok? then Some(r.value) else None)
    }

    method StatusNow() returns (r: Result<Ownership, Failure>)
      requires Valid() && Summary(trace).status.answer == None
      modifies this`trace, env
      ensures Since(old(trace), old(env.cache)) && Answers(Summary(old(trace)), r)
      ensures r.Ok? ==> target.Some?
    {
      if target.None? { return Err(Thrown); }
      var due: bool := *;
      var launch := LaunchEnvNow(due && bin.Some?);
      var readable: bool := *;
      if !readable { return Err(Thrown); }
      var st := Conclude();
      return Ok(st);
    }

    /** statusUnlocked once the config is read. */
    method Conclude() returns (st: Ownership)
      requires Valid()
      modifies this`trace
      ensures Since(old(trace), env.cache) && Answers(Summary(old(trace)), Ok(st))
    {
      var at: Address := *;            // from the config
      var running: bool := *;
      var customDir: bool := *;
      Emit(Saw(customDir, running));
      st := External(None, None);
      if !customDir {
        var own := ResolveOwner(at, bin.Some?);
        if own.Ok? && (own.value.External? || !running || AliveOf(own.value).Some?) { st := own.value; }
      }
      Emit(Concluded(st));
    }

    // ---- download and verify -----------------------------------------------------------

    /** pdx.new was to be removed, and is gone if that worked. */
    ghost predicate CleanedUp()
      reads this
    {
      |trace| > 0 && trace[|trace| - 1].Unlinked? && (trace[|trace| - 1].works ==> next == None)
    }

    method RemoveNext()
      requires Valid()
      modifies this`next, this`trace
      ensures Since(old(trace), env.cache) && Summary(trace) == Summary(old(trace)) && CleanedUp()
    {
      var works: bool := *;
      Emit(Unlinked(works));
      if works { next := None; }
    }

    /** The body into pdx.new, chunk by chunk; fails where the stream or the disk does. */
    method WriteBody() returns (written: int, ok: bool)
      modifies this`next
      ensures ok ==> next.Some? && |next.value| == written
    {
      var chunks: seq<Bytes> := *;
      var broken: int := *;
      next, written := Some([]), 0;
      for i := 0 to |chunks|
        invariant next.Some? && |next.value| == written
      {
        if i == broken { return written, false; }
        next := Some(next.value + chunks[i]);
        written := written + |chunks[i]|;
      }
      ok := *;                         // closing the file
    }

    /** What is kept in pdx.new has the declared length and sum; anything else is removed again. */
    method Download() returns (r: Result<string, Failure>)
      requires Valid()
      modifies this`trace, this`next
      ensures Since(old(trace), env.cache)
      ensures r.Ok? ==> next.Some?
      ensures r.Ok? ==>
        var d := Declared(|next.value|, sha(next.value), r.value);
        Summary(trace) == Summary(old(trace)).(new_ := Fetched(Some(d), None))
      ensures r.Err? ==> Summary(trace) == Summary(old(trace)).(new_ := Summary(trace).new_)
      ensures r.Err? ==> next == old(next) || CleanedUp()
    {
      var ok: bool := *;               // a full 200
      if !ok { return Err(Thrown); }
      var d: Declared := *;
      if d.len <= 0 || !IsHex64(d.sha) || d.hash == "" { return Err(Thrown); }
      Emit(Headers(d));
      var opens: bool := *;
      if !opens { return Err(Thrown); }
      var written, whole := WriteBody();
      var chmod: bool := *;
      if !whole || written != d.len || sha(next.value) != d.sha || !chmod {
        RemoveNext();
        return Err(Thrown);
      }
      return Ok(d.hash);
    }

    method VerifyNew(tgt: Target, expected: string) returns (ok: bool)
      requires Valid() && next.Some?
      modifies this`trace, this`next, env
      ensures Since(old(trace), old(env.cache))
      ensures ok ==> next == old(next)
      ensures !ok ==> CleanedUp()
      ensures ok ==> Summary(trace) == Watch(Summary(old(trace)), Ran(next.value, Identity(tgt, expected)))
    {
      var launch := LaunchEnvNow(false);
      var id: Option<Identity> := *;   // None: did not run, or printed no identity object
      var matches := id.Some? && id.value.target.goos == tgt.goos && id.value.target.goarch == tgt.goarch;
      if !matches || id.value.hash != expected {
        RemoveNext();
        return false;
      }
      Emit(Ran(next.value, id.value));
      return true;
    }

    // ---- stop and start ----------------------------------------------------------------

    /** Time passes: at least this much. */
    method Pass(least: int)
      requires least >= 0
      modifies this`clock
      ensures clock >= old(clock) + least
    {
      var more: int := *;
      clock := clock + least + (if more > 0 then more else 0);
    }

    /** Ends well only once the process was seen dead with the address refused; gives up after five seconds. */
    method StopDaemon(at: Address, pid: int) returns (ok: bool)
      requires Valid() && Justified(host, Summary(trace), StopRun(pid))
      modifies this`trace, this`clock, env
      ensures Since(old(trace), old(env.cache))
      ensures Summary(trace).owner == Summary(old(trace)).owner && SameButPass(Summary(old(trace)), Summary(trace))
      ensures ok ==> (pid, at) in Summary(trace).gone
      ensures (pid, at) !in Summary(old(trace)).gone && !ok ==> (pid, at) !in Summary(trace).gone
    {
      var launch := LaunchEnvNow(false);
      Emit(StopRun(pid));
      var timedOut: bool := *;
      if timedOut { return false; }
      Pass(0);
      var deadline := clock + 5000;
      while true
        invariant Since(old(trace), old(env.cache))
        invariant Summary(trace).owner == Summary(old(trace)).owner && SameButPass(Summary(old(trace)), Summary(trace))
        invariant Summary(trace).gone == Summary(old(trace)).gone
        decreases deadline - clock
      {
        Pass(0);
        if deadline - clock <= 0 { break; }
        var alive: bool := *;
        var answer: bool := *;
        var refused := !alive && answer;
        Emit(Probed(pid, at, !alive, refused));
        Pass(0);
        if !alive && refused { return true; }
        var remaining := deadline - clock;
        if remaining <= 0 { break; }
        Pass(if remaining < 500 then remaining else 500);
      }
      return false;
    }

    /** Started only when the daemon that answers reports the build of the binary on disk. */
    method StartDaemon() returns (ok: bool)
      requires Valid() && Justified(host, Summary(trace), StartRun)
      modifies this`trace, env
      ensures Since(old(trace), old(env.cache))
      ensures Summary(trace) == Summary(old(trace)).(starts := Summary(old(trace)).starts + 1)
      ensures ok <==> ServesOurBuild(trace)
    {
      var launch := LaunchEnvNow(false);
      Emit(StartRun);
      var ran: bool := *;              // in time, with exit code 0
      if !ran { return false; }
      var healthy: bool := *;
      if !healthy { return false; }
      var disk: string := *;
      var live: string := *;
      Emit(Answered(disk, live));
      if !IsBuild(disk) || !IsBuild(live) { return false; }
      return live == disk;
    }

    // ---- the operations ----------------------------------------------------------------

    /** pdx.new is ready, and status found nothing foreign before it was fetched. */
    ghost predicate Prepared()
      reads this
    {
      var s := Summary(trace);
      && s.op == Some(Install) && s.status.answer.Some? && !s.status.answer.value.External?
      && next.Some? && IsFetched(host, s, next.value)
    }

    method Prepare() returns (r: Result<(), Failure>)
      requires Valid() && Summary(trace) == NOTHING.(op := Some(Install))
      modifies this`trace, this`next, env
      ensures Since(old(trace), old(env.cache))
      ensures r.Ok? ==> Prepared()
    {
      var st := StatusNow();
      if st.Err? { return Err(st.error); }
      if st.value.External? { return Err(NotManaged(st.value)); }
      var made: bool := *;             // the directory
      if !made { return Err(Thrown); }
      var hash := Download();
      if hash.Err? { return Err(hash.error); }
      var verified := VerifyNew(target.value, hash.value);
      if !verified { return Err(Thrown); }
      var configured: bool := *;       // the initial config is written when there is none, and the config read
      if !configured { return Err(Thrown); }
      return Ok(());
    }

    method InstallDaemon() returns (r: Result<(), Failure>)
      requires Valid()
      modifies this, env
      ensures Since(old(trace), old(env.cache))
      ensures bin == old(bin) || SwappedSince(old(trace), trace, bin)
      ensures r.Ok? ==> SwappedSince(old(trace), trace, bin) && ServesOurBuild(trace)
    {
      Emit(Began(Install));
      var prepared := Prepare();
      if prepared.Err? { return prepared; }
      var released := Release(bin.Some?);
      if released.Err? { return released; }
      var renamed: bool := *;
      if !renamed { return Err(Thrown); }
      ghost var at := |trace|;
      r := SwapAndStart();
      assert trace[at] == Swap(bin.value);
    }

    method SwapAndStart() returns (r: Result<(), Failure>)
      requires Valid() && Prepared() && Released(Summary(trace))
      modifies this`trace, this`bin, this`next, env
      ensures Since(old(trace), old(env.cache))
      ensures bin.Some? && |old(trace)| < |trace| && trace[|old(trace)|] == Swap(bin.value)
      ensures r.Ok? ==> ServesOurBuild(trace)
    {
      Emit(Swap(next.value));
      bin, next := next, None;
      var pass := PathGate();
      if !pass { return Err(PathRefused); }
      var started := StartDaemon();
      return if started then Ok(()) else Err(Thrown);
    }

    /** The destructive part of both operations: ownership is decided anew, and our own live daemon stopped. */
    method Release(binExists: bool) returns (r: Result<(), Failure>)
      requires Valid()
      requires Summary(trace).op == Some(Restart) ==>
        Summary(trace).gate && Summary(trace).status.answer.Some? && Summary(trace).status.answer.value.Managed?
      modifies this`trace, this`clock, env
      ensures Since(old(trace), old(env.cache)) && SameButPass(Summary(old(trace)), Summary(trace))
      ensures r.Ok? ==> Released(Summary(trace))
    {
      var at: Address := *;            // from the config
      var own := ResolveOwner(at, binExists);
      if own.Err? { return Err(own.error); }
      if own.value.External? { return Err(NotManaged(own.value)); }
      if AliveOf(own.value).Some? {
        var stopped := StopDaemon(at, AliveOf(own.value).value);
        if !stopped { return Err(Thrown); }
      }
      return Ok(());
    }

    method StartOperation() returns (r: Result<(), Failure>)
      requires Valid()
      modifies this`trace, env
      ensures Since(old(trace), old(env.cache))
      ensures StartSays(Summary(trace), r)
      ensures r.Ok? ==> ServesOurBuild(trace)
    {
      Emit(Began(Start));
      var pass := PathGate();
      if !pass { return Err(PathRefused); }
      var st := StatusNow();
      if st.Err? { return Err(st.error); }
      if !st.value.Managed? { return Err(NotManaged(st.value)); }
      if st.value.alive.Some? { return Err(AlreadyRunning(st.value.alive.value)); }
      var readable: bool := *;         // the config
      if !readable { return Err(Thrown); }
      var started := StartDaemon();
      return if started then Ok(()) else Err(Thrown);
    }

    /** The gate comes first; refused there, nothing else happens and no daemon is stopped. */
    method RestartDaemon() returns (r: Result<(), Failure>)
      requires Valid()
      modifies this`trace, this`clock, env
      ensures Since(old(trace), old(env.cache))
      ensures GatedFirst(old(trace), trace, r)
      ensures RestartSays(Summary(trace), r)
      ensures r.Ok? ==> ServesOurBuild(trace)
    {
      var pass := BeginRestart();
      ghost var gated := trace;
      if !pass { return Err(PathRefused); }
      r := RestartGated();
      GateStays(old(trace), gated, trace, |gated| - 1);
    }

    method BeginRestart() returns (pass: bool)
      requires Valid()
      modifies this`trace, env
      ensures Since(old(trace), old(env.cache))
      ensures var s := Summary(trace); s == NOTHING.(op := Some(Restart), gate := pass, dirs := s.dirs)
      ensures GateIsAt(old(trace), trace, |trace| - 1) && trace[|trace| - 1].pass == pass
    {
      Emit(Began(Restart));
      pass := PathGate();
    }

    /** restartUnlocked once the gate has passed. */
    method RestartGated() returns (r: Result<(), Failure>)
      requires Valid()
      requires var s := Summary(trace); s == NOTHING.(op := Some(Restart), gate := true, dirs := s.dirs)
      modifies this`trace, this`clock, env
      ensures Since(old(trace), old(env.cache))
      ensures Summary(trace).gate && RestartSays(Summary(trace), r)
      ensures r.Ok? ==> ServesOurBuild(trace)
    {
      var st := StatusNow();
      if st.Err? { return Err(st.error); }
      if !st.value.Managed? { return Err(NotManaged(st.value)); }
      var readable: bool := *;         // the config
      if !readable { return Err(Thrown); }
      var released := Release(true);
      if released.Err? { return released; }
      var started := StartDaemon();
      return if started then Ok(()) else Err(Thrown);
    }

    method EnsureRunningDaemon() returns (r: Ensured)
      requires Valid()
      modifies this`trace, env
      ensures Since(old(trace), old(env.cache))
      ensures EnsureSays(Summary(trace), r)
      ensures r.Started? ==> ServesOurBuild(trace)
    {
      Emit(Began(EnsureRunning));
      var pass := PathGate();
      if !pass { return PathUnresolved; }
      var st := StatusNow();
      if st.Err? { return Failed; }
      match st.value {
        case NotInstalled => return Absent;
        case External(_, _) => return Elsewhere;
        case Managed(alive) => if alive.Some? { return Already; }
      }
      var readable: bool := *;
      if !readable { return Failed; }
      r := TryThrice();
    }

    /** Up to three starts. */
    method TryThrice() returns (r: Ensured)
      requires Valid() && Summary(trace).op == Some(EnsureRunning) && Summary(trace).gate && Summary(trace).starts == 0
      requires Summary(trace).status.answer == Some(Managed(None))
      modifies this`trace, env
      ensures Since(old(trace), old(env.cache))
      ensures Summary(trace) == Summary(old(trace)).(starts := Summary(trace).starts)
      ensures EnsureSays(Summary(trace), r) && (r.Started? ==> ServesOurBuild(trace))
    {
      for attempt := 1 to 4
        invariant Since(old(trace), old(env.cache)) && Summary(trace).starts == attempt - 1
        invariant Summary(trace) == Summary(old(trace)).(starts := Summary(trace).starts)
      {
        var started := StartDaemon();
        if started { return Started; }
      }
      return Failed;
    }
  }

  // ---- what a safe trace says -----------------------------------------------------------

  /** No operation begins after position i. */
  ghost predicate SameOperation(t: seq<Effect>, i: int) {
    forall j :: i < j < |t| && 0 <= j ==> !t[j].Began?
  }

  /** Position i holds the last headers of the operation under way. */
  ghost predicate HeadersAt(t: seq<Effect>, i: int, d: Declared) {
    0 <= i < |t| && t[i] == Headers(d) && SameOperation(t, i) && forall j :: i < j < |t| ==> !t[j].Headers?
  }

  ghost predicate RanAt(t: seq<Effect>, i: int, e: Effect) {
    0 <= i < |t| && t[i] == e && SameOperation(t, i) && forall j :: i < j < |t| ==> !t[j].Headers?
  }

  /** What makes an ownership decision one of the past: another pass, the end of a status, a new binary. */
  predicate Outdates(e: Effect) {
    e.Looking? || e.Decided? || e.Concluded? || e.Ran?
  }

  /** Position i holds the decision that still stands. */
  ghost predicate DecidedAt(t: seq<Effect>, i: int, d: Decision) {
    && 0 <= i < |t| && t[i].Decided? && t[i].dec == d && SameOperation(t, i)
    && forall j :: i < j < |t| ==> !Outdates(t[j])
  }

  ghost predicate GoneAt(t: seq<Effect>, i: int, pid: int, at: Address) {
    && 0 <= i < |t| && t[i] == Probed(pid, at, true, true) && SameOperation(t, i)
    && forall j :: i < j < |t| ==> !Outdates(t[j])
  }

  ghost predicate GateAt(t: seq<Effect>, i: int) {
    && 0 <= i < |t| && t[i].Gate? && t[i].pass && SameOperation(t, i)
    && forall j :: i < j < |t| ==> !t[j].Gate? && !t[j].Swap?
  }

  /** Position i holds the last answer of a status. */
  ghost predicate AnswerAt(t: seq<Effect>, i: int, st: Ownership) {
    0 <= i < |t| && t[i] == Concluded(st) && SameOperation(t, i) && forall j :: i < j < |t| ==> !t[j].Concluded?
  }

  ghost predicate OperationAt(t: seq<Effect>, i: int, op: Operation) {
    0 <= i < |t| && t[i] == Began(op) && SameOperation(t, i)
  }

  /** Position i of the operation under way found dir/pdx. */
  ghost predicate CheckedAt(t: seq<Effect>, i: int, dir: string, there: bool) {
    0 <= i < |t| && t[i] == Checked(dir, there) && SameOperation(t, i)
  }

  /** Position i is in the ownership pass under way. */
  ghost predicate InPass(t: seq<Effect>, i: int) {
    0 <= i < |t| && SameOperation(t, i) && forall j :: i < j < |t| ==> !t[j].Looking?
  }

  ghost predicate MineAt(t: seq<Effect>, i: int, pid: int) {
    InPass(t, i) && t[i].Mine? && t[i].pid == pid
  }

  lemma {:induction false} ListedWitness(t: seq<Effect>)
    requires Summary(t).pass.listed.Some?
    ensures var l := Summary(t).pass.listed.value; exists i :: InPass(t, i) && t[i] == TxtListed(l.0, l.1)
  {
    var n := |t| - 1;
    var init, l := t[..n], Summary(t).pass.listed.value;
    if t[n].TxtListed? {
      assert InPass(t, n);
    } else {
      ListedWitness(init);
      var i :| InPass(init, i) && init[i] == TxtListed(l.0, l.1);
      assert forall j :: 0 <= j < n ==> init[j] == t[j];
      assert InPass(t, i);
    }
  }

  lemma {:induction false} HeadersWitness(t: seq<Effect>)
    requires Summary(t).new_.headers.Some?
    ensures exists i :: HeadersAt(t, i, Summary(t).new_.headers.value)
  {
    var n := |t| - 1;
    var d, init := Summary(t).new_.headers.value, t[..n];
    if t[n].Headers? {
      assert HeadersAt(t, n, d);
    } else {
      HeadersWitness(init);
      var i :| HeadersAt(init, i, d);
      assert forall j :: 0 <= j < n ==> init[j] == t[j];
      assert HeadersAt(t, i, d);
    }
  }

  lemma {:induction false} RanWitness(t: seq<Effect>)
    requires Summary(t).new_.ran.Some?
    ensures exists i :: RanAt(t, i, Summary(t).new_.ran.value)
  {
    var n := |t| - 1;
    var e, init := Summary(t).new_.ran.value, t[..n];
    if t[n].Ran? {
      assert RanAt(t, n, e);
    } else {
      RanWitness(init);
      var i :| RanAt(init, i, e);
      assert forall j :: 0 <= j < n ==> init[j] == t[j];
      assert RanAt(t, i, e);
    }
  }

  lemma {:induction false} DecidedWitness(t: seq<Effect>)
    requires Summary(t).owner.Some?
    ensures exists i :: DecidedAt(t, i, Summary(t).owner.value)
  {
    var n := |t| - 1;
    var o, init := Summary(t).owner.value, t[..n];
    if t[n].Decided? {
      assert DecidedAt(t, n, o);
    } else {
      DecidedWitness(init);
      var i :| DecidedAt(init, i, o);
      assert forall j :: 0 <= j < n ==> init[j] == t[j];
      assert DecidedAt(t, i, o);
    }
  }

  lemma {:induction false} GoneWitness(t: seq<Effect>, pid: int, at: Address)
    requires (pid, at) in Summary(t).gone
    ensures exists i :: GoneAt(t, i, pid, at)
  {
    var n := |t| - 1;
    var init := t[..n];
    if t[n] == Probed(pid, at, true, true) {
      assert GoneAt(t, n, pid, at);
    } else {
      GoneWitness(init, pid, at);
      var i :| GoneAt(init, i, pid, at);
      assert forall j :: 0 <= j < n ==> init[j] == t[j];
      assert GoneAt(t, i, pid, at);
    }
  }

  lemma {:induction false} GateWitness(t: seq<Effect>)
    requires Summary(t).gate
    ensures exists i :: GateAt(t, i)
  {
    var n := |t| - 1;
    var init := t[..n];
    if t[n].Gate? {
      assert GateAt(t, n);
    } else {
      GateWitness(init);
      var i :| GateAt(init, i);
      assert forall j :: 0 <= j < n ==> init[j] == t[j];
      assert GateAt(t, i);
    }
  }

  lemma {:induction false} AnswerWitness(t: seq<Effect>)
    requires Summary(t).status.answer.Some?
    ensures exists i :: AnswerAt(t, i, Summary(t).status.answer.value)
  {
    var n := |t| - 1;
    var st, init := Summary(t).status.answer.value, t[..n];
    if t[n].Concluded? {
      assert AnswerAt(t, n, st);
    } else {
      AnswerWitness(init);
      var i :| AnswerAt(init, i, st);
      assert forall j :: 0 <= j < n ==> init[j] == t[j];
      assert AnswerAt(t, i, st);
    }
  }

  lemma {:induction false} MineWitness(t: seq<Effect>, pid: int)
    requires pid in Summary(t).pass.mine
    ensures exists i :: MineAt(t, i, pid)
  {
    var n := |t| - 1;
    var init := t[..n];
    if t[n].Mine? && t[n].pid == pid {
      assert MineAt(t, n, pid);
    } else {
      MineWitness(init, pid);
      var i :| MineAt(init, i, pid);
      assert forall j :: 0 <= j < n ==> init[j] == t[j];
      assert MineAt(t, i, pid);
    }
  }

  lemma {:induction false} AliveWitness(t: seq<Effect>, pid: int)
    requires pid in Summary(t).pass.alive
    ensures exists i :: InPass(t, i) && t[i] == Kill0(pid, true)
  {
    var n := |t| - 1;
    var init := t[..n];
    if t[n] == Kill0(pid, true) {
      assert InPass(t, n);
    } else {
      AliveWitness(init, pid);
      var i :| InPass(init, i) && init[i] == Kill0(pid, true);
      assert forall j :: 0 <= j < n ==> init[j] == t[j];
      assert InPass(t, i);
    }
  }

  lemma {:induction false} SameWitness(t: seq<Effect>, path: string)
    requires path in Summary(t).pass.same
    ensures exists i :: InPass(t, i) && t[i] == Compared(path, true)
  {
    var n := |t| - 1;
    var init := t[..n];
    if t[n] == Compared(path, true) {
      assert InPass(t, n);
    } else {
      SameWitness(init, path);
      var i :| InPass(init, i) && init[i] == Compared(path, true);
      assert forall j :: 0 <= j < n ==> init[j] == t[j];
      assert InPass(t, i);
    }
  }

  lemma {:induction false} CheckedWitness(t: seq<Effect>, dir: string, there: bool)
    requires dir in (if there then Summary(t).dirs.there else Summary(t).dirs.absent)
    ensures exists i :: CheckedAt(t, i, dir, there)
  {
    var n := |t| - 1;
    var init := t[..n];
    if t[n] == Checked(dir, there) {
      assert CheckedAt(t, n, dir, there);
    } else {
      CheckedWitness(init, dir, there);
      var i :| CheckedAt(init, i, dir, there);
      assert forall j :: 0 <= j < n ==> init[j] == t[j];
      assert CheckedAt(t, i, dir, there);
    }
  }

  lemma {:induction false} OperationWitness(t: seq<Effect>, i: int, op: Operation)
    requires OperationAt(t, i, op)
    ensures Summary(t).op == Some(op)
  {
    var n := |t| - 1;
    if i < n {
      var init := t[..n];
      assert forall j :: 0 <= j < n ==> init[j] == t[j];
      OperationWitness(init, i, op);
    }
  }

  /**
   Whatever the outside answers, a swap puts in place exactly the bytes that have the length and
   sum of the last download's headers, after those very bytes printed that build and this platform.
   */
  lemma SwapIsVerified(host: Host, t: seq<Effect>, k: nat, content: Bytes)
    requires Safe(host, t) && k < |t| && t[k] == Swap(content)
    ensures host.target.Some?
    ensures exists h, i, d ::
              && HeadersAt(t[..k], h, d) && h < i < k
              && |content| == d.len && host.sha(content) == d.sha
              && t[i] == Ran(content, Identity(host.target.value, d.hash))
  {
    var past := t[..k];
    var s := Summary(past);
    SafeAt(host, t, k);
    HeadersWitness(past);
    RanWitness(past);
    var d := s.new_.headers.value;
    var h :| HeadersAt(past, h, d);
    var i :| RanAt(past, i, s.new_.ran.value);
    assert past[i] == t[i];
  }

  /** The process called ours is alive, and a txt file of it by a listing of the same pass is our binary. */
  lemma MineIsSeen(host: Host, t: seq<Effect>, k: nat, pid: int, path: string)
    requires Safe(host, t) && k < |t| && t[k] == Mine(pid, path)
    ensures exists i :: InPass(t[..k], i) && t[i] == Kill0(pid, true)
    ensures exists i :: InPass(t[..k], i) && t[i] == Compared(path, true)
    ensures exists i, out ::
              && InPass(t[..k], i) && t[i] == TxtListed(pid, out)
              && path in TxtPaths(Parsed(host.number, out), pid)
  {
    var past := t[..k];
    SafeAt(host, t, k);
    AliveWitness(past, pid);
    SameWitness(past, path);
    ListedWitness(past);
    var out := Summary(past).pass.listed.value.1;
    var i :| InPass(past, i) && past[i] == Kill0(pid, true);
    var j :| InPass(past, j) && past[j] == Compared(path, true);
    var l :| InPass(past, l) && past[l] == TxtListed(pid, out);
    assert t[i] == past[i] && t[j] == past[j] && t[l] == past[l];
  }

  /**
   An ownership decision is external if and only if somebody listens at the address who is not the
   live process it names, and that process was seen to be ours in the same pass.
   */
  lemma DecisionIsSound(host: Host, t: seq<Effect>, k: nat)
    requires Safe(host, t) && k < |t| && t[k].Decided?
    ensures var d := t[k].dec;
      && (d.own.External? <==>
            exists l :: l in Listening(host, d.at, t[k].out) && !(AliveOf(d.own).Some? && l == AliveOf(d.own)))
      && (AliveOf(d.own).Some? ==> exists i :: MineAt(t[..k], i, AliveOf(d.own).value))
  {
    SafeAt(host, t, k);
    var d := t[k].dec;
    ForeignIn(Listening(host, d.at, t[k].out), AliveOf(d.own));
    if AliveOf(d.own).Some? {
      MineWitness(t[..k], AliveOf(d.own).value);
    }
  }

  /** A status that is not external answers what was decided in it, with no data directory of its own. */
  lemma StatusIsDecided(host: Host, t: seq<Effect>, k: nat, st: Ownership)
    requires Safe(host, t) && k < |t| && t[k] == Concluded(st) && !st.External?
    ensures exists o, d :: DecidedAt(t[..k], o, d) && d.own == st
  {
    SafeAt(host, t, k);
    DecidedWitness(t[..k]);
  }

  /** The decision that stands is not foreign, and the process it named was since seen dead with its address refused. */
  ghost predicate ReleasedBefore(past: seq<Effect>, o: int, d: Decision) {
    && DecidedAt(past, o, d) && !d.own.External?
    && (AliveOf(d.own).Some? ==> exists p :: o < p && GoneAt(past, p, AliveOf(d.own).value, d.at))
  }

  lemma ReleasedWitness(past: seq<Effect>)
    requires Released(Summary(past))
    ensures exists o, d :: ReleasedBefore(past, o, d)
  {
    DecidedWitness(past);
    var d := Summary(past).owner.value;
    var o :| DecidedAt(past, o, d);
    if AliveOf(d.own).Some? {
      GoneWitness(past, AliveOf(d.own).value, d.at);
      var p :| GoneAt(past, p, AliveOf(d.own).value, d.at);
      assert o < p;
    }
    assert ReleasedBefore(past, o, d);
  }

  /**
   A swap follows a decision made after the new binary ran and verified; it is not foreign, and a process
   it named was afterwards seen dead, with the very address the decision was about refused.
   */
  lemma SwapIsReleased(host: Host, t: seq<Effect>, k: nat)
    requires Safe(host, t) && k < |t| && t[k].Swap?
    ensures exists o, d :: ReleasedBefore(t[..k], o, d)
  {
    SafeAt(host, t, k);
    ReleasedWitness(t[..k]);
  }

  /** Only a process the standing decision calls ours is stopped, and in a restart only after its gate passed. */
  lemma StopIsOwnedAndGated(host: Host, t: seq<Effect>, k: nat, pid: int)
    requires Safe(host, t) && k < |t| && t[k] == StopRun(pid)
    ensures exists o, d :: DecidedAt(t[..k], o, d) && !d.own.External? && AliveOf(d.own) == Some(pid)
    ensures (exists b :: OperationAt(t[..k], b, Restart)) ==> exists g :: GateAt(t[..k], g)
  {
    var past := t[..k];
    SafeAt(host, t, k);
    DecidedWitness(past);
    if b :| OperationAt(past, b, Restart) {
      OperationWitness(past, b, Restart);
      GateWitness(past);
    }
  }

  /**
   Every start follows a passed gate of the same operation, with no swap in between, and the gate had a
   reason to pass.
   */
  lemma StartIsGated(host: Host, t: seq<Effect>, k: nat)
    requires Safe(host, t) && k < |t| && t[k].StartRun?
    ensures exists g :: GateAt(t[..k], g) && PassedBecause(t, g)
  {
    var past := t[..k];
    SafeAt(host, t, k);
    GateWitness(past);
    var g :| GateAt(past, g);
    assert past[g] == t[g];
    SafeAt(host, t, g);
    GateHasReason(t, g, Summary(t[..g]));
  }

  /** `pdx` resolves, or there is no binary to gate, or a directory of PATH was found to hold one. */
  ghost predicate PassedBecause(t: seq<Effect>, g: int) {
    0 <= g < |t| && t[g].Gate? &&
    match t[g].cli
    case Report(resolved) => resolved.Some?
    case NoBinary => true
    case _ => exists c, dir :: CheckedAt(t[..g], c, dir, true) && dir != "" && dir in Split(t[g].path, ':')
  }

  lemma GateHasReason(t: seq<Effect>, g: nat, s: Seen)
    requires g < |t| && t[g].Gate? && t[g].pass && s == Summary(t[..g]) && GateJustified(s, t[g].cli, t[g].path, true)
    ensures PassedBecause(t, g)
  {
    if t[g].cli.Unparseable? || t[g].cli.ExecFailed? {
      var dirs := Split(t[g].path, ':');
      var i :| 0 <= i < |dirs| && UsableDir(s.dirs.there, dirs[i]);
      CheckedWitness(t[..g], dirs[i], true);
      assert dirs[i] in dirs;
    }
  }

  /** The gate refuses only what is known not to resolve, or cannot be asked and was looked for everywhere on PATH. */
  lemma GateRefusesOnlyBecause(host: Host, t: seq<Effect>, k: nat)
    requires Safe(host, t) && k < |t| && t[k].Gate? && !t[k].pass
    ensures t[k].cli == Report(None) || t[k].cli.Unparseable? || t[k].cli.ExecFailed?
    ensures !t[k].cli.Report? ==> forall dir :: dir in Split(t[k].path, ':') && dir != "" ==>
              exists c :: CheckedAt(t[..k], c, dir, false)
  {
    SafeAt(host, t, k);
    if !t[k].cli.Report? {
      forall dir | dir in Split(t[k].path, ':') && dir != "" ensures exists c :: CheckedAt(t[..k], c, dir, false) {
        CheckedWitness(t[..k], dir, false);
      }
    }
  }

  /**
   A restart starts only after an ownership decision made later than its status, not external; a
   live process it named was since seen dead with the very address decided on refused.
   */
  lemma RestartStartsReleased(host: Host, t: seq<Effect>, k: nat, b: int)
    requires Safe(host, t) && k < |t| && t[k].StartRun? && OperationAt(t[..k], b, Restart)
    ensures exists c, st, o, d :: AnswerAt(t[..k], c, st) && st.Managed? && c < o && ReleasedBefore(t[..k], o, d)
  {
    var past := t[..k];
    SafeAt(host, t, k);
    OperationWitness(past, b, Restart);
    AnswerWitness(past);
    ReleasedWitness(past);
    var st := Summary(past).status.answer.value;
    var c :| AnswerAt(past, c, st);
    var o, d :| ReleasedBefore(past, o, d);
    assert c != o && !(o < c);
  }

  /** A start, and an ensure, start only when status said managed and not running. */
  lemma StartsOnlyWhatIsDown(host: Host, t: seq<Effect>, k: nat, b: int, op: Operation)
    requires Safe(host, t) && k < |t| && t[k].StartRun?
    requires OperationAt(t[..k], b, op) && (op.Start? || op.EnsureRunning?)
    ensures exists c :: AnswerAt(t[..k], c, Managed(None))
  {
    SafeAt(host, t, k);
    OperationWitness(t[..k], b, op);
    AnswerWitness(t[..k]);
  }
}
