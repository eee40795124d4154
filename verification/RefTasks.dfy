/**
 The reference tasks of the prepared clones and their content-hashed cache
 (cmd/wwd/reftasks.go). The manifest parser is a parameter; sha256 is taken as free of
 collisions, so a sum stands for its content.
 */
module RefTasks {
  import opened Outcomes
  import opened Text

  type Bytes = seq<int>

  datatype Sum = Sha256(content: Bytes)

  /** reference is None when the task has no qualify part, or an empty reference in it. */
  datatype TaskDef = TaskDef(reference: Option<string>, labels: seq<string>)

  type Manifest = map<string, TaskDef>

  type Parser = Bytes -> Option<Manifest>

  datatype RefTask = RefTask(repo: string, task: string, reference: string, needs: seq<string>)

  // ---- the tasks of one manifest --------------------------------------------------

  predicate Named(m: Manifest, t: RefTask) {
    t.repo == "" && t.task in m && m[t.task].reference == Some(t.reference) && t.needs == m[t.task].labels
  }

  ghost predicate SortedByTask(ts: seq<RefTask>) {
    forall i, j :: 0 <= i < j < |ts| ==> Less(ts[i].task, ts[j].task)
  }

  /** The tasks with a reference, each once, in the order of their names. */
  ghost predicate IsListing(m: Manifest, ts: seq<RefTask>) {
    SortedByTask(ts) && forall t :: t in ts <==> Named(m, t)
  }

  lemma {:induction false} SortedIsUnique(a: seq<RefTask>, b: seq<RefTask>)
    requires SortedByTask(a) && SortedByTask(b)
    requires forall t :: t in a <==> t in b
    ensures a == b
  {
    EmptyTogether(a, b);
    if a != [] && b != [] {
      HeadsAgree(a, b);
      TailElements(a);
      TailElements(b);
      SortedIsUnique(a[1..], b[1..]);
      assert a == [a[0]] + a[1..] && b == [b[0]] + b[1..];
    }
  }

  lemma EmptyTogether(a: seq<RefTask>, b: seq<RefTask>)
    requires forall t :: t in a <==> t in b
    ensures a == [] <==> b == []
  {
    assert a != [] ==> a[0] in b;
    assert b != [] ==> b[0] in a;
  }

  lemma HeadsAgree(a: seq<RefTask>, b: seq<RefTask>)
    requires a != [] && b != [] && SortedByTask(a) && SortedByTask(b)
    requires forall t :: t in a <==> t in b
    ensures a[0] == b[0]
  {
    assert a[0] in b && b[0] in a;
    var i :| 0 <= i < |b| && b[i] == a[0];
    var j :| 0 <= j < |a| && a[j] == b[0];
    if i > 0 && j > 0 {
      LessAsymmetric(b[0].task, b[i].task);
    }
  }

  lemma TailElements(a: seq<RefTask>)
    requires a != [] && SortedByTask(a)
    ensures SortedByTask(a[1..]) && forall t :: t in a[1..] <==> t in a && t != a[0]
  {
    forall t ensures t in a[1..] <==> t in a && t != a[0] {
      if t in a[1..] {
        var i :| 0 <= i < |a| - 1 && a[1..][i] == t;
        if t == a[0] { LessIrreflexive(t.task); }
      }
    }
  }

  /** Puts one task at its place in the order. */
  method Insert(ts: seq<RefTask>, t: RefTask) returns (out: seq<RefTask>)
    requires SortedByTask(ts) && forall i :: 0 <= i < |ts| ==> ts[i].task != t.task
    ensures SortedByTask(out) && forall x :: x in out <==> x in ts || x == t
  {
    var i := 0;
    while i < |ts| && Less(ts[i].task, t.task)
      invariant 0 <= i <= |ts|
      invariant forall j :: 0 <= j < i ==> Less(ts[j].task, t.task)
    {
      i := i + 1;
    }
    out := ts[..i] + [t] + ts[i..];
    if i < |ts| {
      LessTotal(ts[i].task, t.task);
    }
    InsertSorted(ts, t, i);
  }

  lemma LessChain(a: string, b: string, c: string)
    requires Less(a, b) && Less(b, c)
    ensures Less(a, c)
  {
    LessAsymmetric(a, b);
    LessAsymmetric(b, c);
    LessTransitive(a, b, c);
    LessTotal(a, c);
  }

  lemma InsertSorted(ts: seq<RefTask>, t: RefTask, i: nat)
    requires SortedByTask(ts) && i <= |ts|
    requires forall j :: 0 <= j < i ==> Less(ts[j].task, t.task)
    requires i < |ts| ==> Less(t.task, ts[i].task)
    ensures SortedByTask(ts[..i] + [t] + ts[i..])
  {
    var out := ts[..i] + [t] + ts[i..];
    forall j | i <= j < |ts| ensures Less(t.task, ts[j].task) {
      if j > i { LessChain(t.task, ts[i].task, ts[j].task); }
    }
    assert forall j :: i < j < |out| ==> out[j] == ts[j - 1];
    assert forall j :: 0 <= j < i ==> out[j] == ts[j];
    assert out[i] == t;
  }

  /** referenceTasks after the parse: the map's tasks in any order, then sorted by name. */
  method ListTasks(m: Manifest) returns (out: seq<RefTask>)
    ensures IsListing(m, out)
  {
    out := [];
    var todo := m.Keys;
    while todo != {}
      invariant todo <= m.Keys
      invariant SortedByTask(out)
      invariant forall t :: t in out <==> Named(m, t) && t.task !in todo
      decreases |todo|
    {
      var name :| name in todo;
      if m[name].reference.Some? {
        var t := RefTask("", name, m[name].reference.value, m[name].labels);
        forall i | 0 <= i < |out| ensures out[i].task != name {
          assert out[i] in out;
        }
        out := Insert(out, t);
      }
      todo := todo - {name};
    }
  }

  /** What a content contributes: nothing when it does not parse. */
  ghost predicate Contributes(parse: Parser, b: Bytes, ts: seq<RefTask>) {
    match parse(b)
    case None => ts == []
    case Some(m) => IsListing(m, ts)
  }

  lemma ContributionIsUnique(parse: Parser, b: Bytes, ts: seq<RefTask>, us: seq<RefTask>)
    requires Contributes(parse, b, ts) && Contributes(parse, b, us)
    ensures ts == us
  {
    if parse(b).Some? {
      SortedIsUnique(ts, us);
    }
  }

  method ReferenceTasks(parse: Parser, b: Bytes) returns (out: seq<RefTask>)
    ensures Contributes(parse, b, out)
  {
    var m := parse(b);
    if m.None? { return []; }
    out := ListTasks(m.value);
  }

  // ---- needs ------------------------------------------------------------------------

  function TaskLabel(repo: string, task: string): string {
    "task:" + repo + "/" + task
  }

  predicate OwnLabel(repo: string, task: string, n: string) {
    n == "repo:" + repo || n == TaskLabel(repo, task)
  }

  function Needs(repo: string, task: string, needs: seq<string>): seq<string> {
    if needs == [] then []
    else
      var rest := Needs(repo, task, needs[..|needs| - 1]);
      if OwnLabel(repo, task, needs[|needs| - 1]) then rest else rest + [needs[|needs| - 1]]
  }

  lemma {:induction false} NeedsDropOwn(repo: string, task: string, needs: seq<string>, n: string)
    ensures multiset(Needs(repo, task, needs))[n] == if OwnLabel(repo, task, n) then 0 else multiset(needs)[n]
    ensures (forall i :: 0 <= i < |needs| ==> !OwnLabel(repo, task, needs[i])) ==> Needs(repo, task, needs) == needs
  {
    if needs != [] {
      var init, last := needs[..|needs| - 1], needs[|needs| - 1];
      NeedsDropOwn(repo, task, init, n);
      assert needs == init + [last];
    }
  }

  /** Only the two own labels go; every other one stays, as often as it was there. */
  lemma NeedsDropOnlyOwn(repo: string, task: string, needs: seq<string>, n: string)
    ensures multiset(Needs(repo, task, needs))[n] ==
            if n == "repo:" + repo || n == "task:" + repo + "/" + task then 0 else multiset(needs)[n]
  {
    NeedsDropOwn(repo, task, needs, n);
  }

  method EnvironmentNeeds(repo: string, task: string, needs: seq<string>) returns (out: seq<string>)
    ensures out == Needs(repo, task, needs)
  {
    out := [];
    for i := 0 to |needs|
      invariant out == Needs(repo, task, needs[..i])
    {
      assert needs[..i + 1][..i] == needs[..i];
      if needs[i] == "repo:" + repo || needs[i] == TaskLabel(repo, task) {
        continue;
      }
      out := out + [needs[i]];
    }
    assert needs[..|needs|] == needs;
  }

  // ---- read over all clones -------------------------------------------------------------

  /**
   What the outside answers for one repo name in one call: whether it has a clone, whether its
   manifest is read at a ref (and what it is there), and what the working tree holds.
   */
  datatype Look = Look(
    name: string, cloned: bool, configured: bool, atRef: Option<Bytes>, disk: Option<(string, Bytes)>)

  /** The manifest a repo name stands for: the cache key and the content. */
  function ManifestOf(l: Look): Option<(string, Bytes)> {
    if !l.cloned then None
    else if l.configured then (if l.atRef.None? then None else Some(("ref:" + l.name, l.atRef.value)))
    else l.disk
  }

  /** A repo read at a ref never falls back to the working tree, and one without a clone has no manifest. */
  lemma ManifestSource(l: Look)
    ensures ManifestOf(l).Some? ==> l.cloned
    ensures l.cloned && l.configured ==> (ManifestOf(l).Some? <==> l.atRef.Some?)
    ensures l.cloned && l.configured && l.atRef.Some? ==> ManifestOf(l).value == ("ref:" + l.name, l.atRef.value)
    ensures l.cloned && !l.configured ==> ManifestOf(l) == l.disk
  {
  }

  /** Tagging names the repo and drops only the task's own labels; task and reference stay. */
  lemma TagExact(name: string, ts: seq<RefTask>, i: nat, n: string)
    requires i < |ts|
    ensures |Tag(name, ts)| == |ts|
    ensures var x, t := Tag(name, ts)[i], ts[i];
      && x.repo == name && x.task == t.task && x.reference == t.reference
      && multiset(x.needs)[n] ==
         (if n == "repo:" + name || n == "task:" + name + "/" + t.task then 0 else multiset(t.needs)[n])
  {
    NeedsDropOnlyOwn(name, ts[i].task, ts[i].needs, n);
  }

  function Tag(name: string, ts: seq<RefTask>): seq<RefTask> {
    seq(|ts|, i requires 0 <= i < |ts| => ts[i].(repo := name, needs := Needs(name, ts[i].task, ts[i].needs)))
  }

  /** out is the fresh answer: in repo order, each current manifest parsed anew and tagged with its repo. */
  ghost predicate IsFresh(parse: Parser, looks: seq<Look>, out: seq<RefTask>)
    decreases |looks|
  {
    if looks == [] then out == []
    else
      var l := looks[|looks| - 1];
      match ManifestOf(l)
      case None => IsFresh(parse, looks[..|looks| - 1], out)
      case Some(fb) => exists before, ts ::
        IsFresh(parse, looks[..|looks| - 1], before) && Contributes(parse, fb.1, ts) && out == before + Tag(l.name, ts)
  }

  lemma {:induction false} FreshIsUnique(parse: Parser, looks: seq<Look>, a: seq<RefTask>, b: seq<RefTask>)
    requires IsFresh(parse, looks, a) && IsFresh(parse, looks, b)
    ensures a == b
    decreases |looks|
  {
    if looks != [] {
      var l, init := looks[|looks| - 1], looks[..|looks| - 1];
      match ManifestOf(l) {
        case None => FreshIsUnique(parse, init, a, b);
        case Some(fb) =>
          var x, ts :| IsFresh(parse, init, x) && Contributes(parse, fb.1, ts) && a == x + Tag(l.name, ts);
          var y, us :| IsFresh(parse, init, y) && Contributes(parse, fb.1, us) && b == y + Tag(l.name, us);
          FreshIsUnique(parse, init, x, y);
          ContributionIsUnique(parse, fb.1, ts, us);
      }
    }
  }

  ghost function LiveFiles(looks: seq<Look>): set<string> {
    set i | 0 <= i < |looks| && ManifestOf(looks[i]).Some? :: ManifestOf(looks[i]).value.0
  }

  datatype Cached = Cached(sum: Sum, tasks: seq<RefTask>)

  class Source {
    const parse: Parser
    const ttl: int
    var seen: map<string, Cached>
    var at: int
    var last: seq<RefTask>
    var asked: bool
    ghost var lastLooks: seq<Look>     // what the last read was answered

    ghost predicate CacheExact()
      reads this
    {
      forall f :: f in seen ==> Contributes(parse, seen[f].sum.content, seen[f].tasks)
    }

    ghost predicate Valid()
      reads this
    {
      CacheExact() && (asked ==> IsFresh(parse, lastLooks, last))
    }

    constructor (parse: Parser, ttl: int)
      ensures Valid() && this.parse == parse && this.ttl == ttl && !asked
    {
      this.parse, this.ttl, seen, at, last, asked := parse, ttl, map[], 0, [], false;
    }

    /** One repo's turn: the cached tasks when the content is the one they came from, else a new parse. */
    method Lookup(file: string, b: Bytes) returns (ts: seq<RefTask>)
      requires CacheExact()
      modifies this`seen
      ensures CacheExact() && Contributes(parse, b, ts)
      ensures seen.Keys == old(seen.Keys) + {file}
    {
      if file !in seen || seen[file].sum != Sha256(b) {
        var tasks := ReferenceTasks(parse, b);
        seen := seen[file := Cached(Sha256(b), tasks)];
      }
      ts := seen[file].tasks;
    }

    method TagAll(name: string, ts: seq<RefTask>) returns (out: seq<RefTask>)
      ensures out == Tag(name, ts)
    {
      out := [];
      for i := 0 to |ts|
        invariant out == Tag(name, ts)[..i]
      {
        var needs := EnvironmentNeeds(name, ts[i].task, ts[i].needs);
        out := out + [ts[i].(repo := name, needs := needs)];
      }
    }

    method Read(looks: seq<Look>) returns (out: seq<RefTask>)
      requires CacheExact()
      modifies this`seen
      ensures CacheExact() && IsFresh(parse, looks, out)
      ensures seen.Keys == LiveFiles(looks)
    {
      out := [];
      var live: set<string> := {};
      for i := 0 to |looks|
        invariant CacheExact() && IsFresh(parse, looks[..i], out)
        invariant live == LiveFiles(looks[..i]) && live <= seen.Keys
      {
        var l := looks[i];
        FreshStep(looks, i, out);
        LiveStep(looks, i);
        var found := ManifestOf(l);
        if found.None? { continue; }
        var (file, b) := found.value;
        live := live + {file};
        var ts := Lookup(file, b);
        var tagged := TagAll(l.name, ts);
        out := out + tagged;
      }
      assert looks[..|looks|] == looks;
      seen := map f | f in seen && f in live :: seen[f];
    }

    ghost predicate Recent(now: int)
      reads this
    {
      asked && ttl > 0 && now - at < ttl
    }

    /**
     The answer is the fresh one for what the last read saw; unless an answer younger than ttl
     is kept, that is what is there now.
     */
    method Tasks(looks: seq<Look>, now: int, after: int) returns (out: seq<RefTask>)
      requires Valid()
      modifies this
      ensures Valid() && asked && out == last && IsFresh(parse, lastLooks, out)
      ensures old(Recent(now)) ==> out == old(last) && at == old(at) && seen == old(seen) && lastLooks == old(lastLooks)
      ensures !old(Recent(now)) ==> lastLooks == looks && at == after && seen.Keys == LiveFiles(looks)
    {
      if asked && ttl > 0 && now - at < ttl {
        return last;
      }
      out := Read(looks);
      last, at, asked, lastLooks := out, after, true, looks;
    }

    lemma FreshStep(looks: seq<Look>, i: nat, before: seq<RefTask>)
      requires i < |looks| && IsFresh(parse, looks[..i], before)
      ensures ManifestOf(looks[i]).None? ==> IsFresh(parse, looks[..i + 1], before)
      ensures ManifestOf(looks[i]).Some? ==>
        forall ts :: Contributes(parse, ManifestOf(looks[i]).value.1, ts)
          ==> IsFresh(parse, looks[..i + 1], before + Tag(looks[i].name, ts))
    {
      assert looks[..i + 1][..i] == looks[..i];
    }
  }

  lemma LiveStep(looks: seq<Look>, i: nat)
    requires i < |looks|
    ensures LiveFiles(looks[..i + 1]) == LiveFiles(looks[..i])
              + (if ManifestOf(looks[i]).Some? then {ManifestOf(looks[i]).value.0} else {})
  {
    var all, init := looks[..i + 1], looks[..i];
    assert all[i] == looks[i];
    assert forall j :: 0 <= j < i ==> all[j] == init[j];
  }
}
