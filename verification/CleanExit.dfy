/**
 The clean-exit marks of wwd (cmd/wwd/cleanexit.go): a run that is asked to stop
 leaves a file named after its own start, and the next start judges from the marks
 and the last start record how the run before it ended.
 */
module CleanExit {
  import opened Outcomes
  import opened Text

  type Stamp = int                   // milliseconds since the epoch

  datatype Verdict = Empty | First | Clean | Unclean | Unknown

  datatype Record = Record(at: Stamp, prev: Verdict)

  // ---- mark files --------------------------------------------------------

  const PREFIX := "clean_exit."
  const TMP_PREFIX := "clean_exit.tmp-"

  function MarkName(at: Stamp): string {
    PREFIX + Itoa(at)
  }

  /** markRun on a name the glob `clean_exit.*` gave. */
  function MarkRun(name: string): Option<Stamp> {
    if PREFIX <= name then Atoi(name[|PREFIX|..]) else None
  }

  /** A run's own mark names that run, and a temporary file names none. */
  lemma MarkNames(at: Stamp, rest: string)
    requires MIN_INT64 <= at <= MAX_INT64
    ensures MarkRun(MarkName(at)) == Some(at) && MarkRun(TMP_PREFIX + rest) == None
  {
    AtoiItoa(at);
    assert MarkName(at)[|PREFIX|..] == Itoa(at);
    var t := (TMP_PREFIX + rest)[|PREFIX|..];
    assert t == "tmp-" + rest;
    NotANumber(t);
  }

  lemma NotANumber(s: string)
    requires s != [] && s[0] == 't'
    ensures Atoi(s) == None
  {
    NatValueIff(s);
  }

  /** The runs whose marks are among the files. */
  ghost function Marks(files: set<string>): set<Stamp> {
    set f | f in files && MarkRun(f).Some? :: MarkRun(f).value
  }

  // ---- judging -----------------------------------------------------------

  /** Some mark of a run other than own is not older than the last record. */
  ghost predicate Answered(marks: set<Stamp>, at: Stamp, own: Stamp) {
    exists m :: m in marks && m != own && m >= at
  }

  ghost function Judge(marks: set<Stamp>, last: Option<Record>, own: Stamp): Verdict {
    if last.None? then First
    else if last.value.prev.Empty? then Unknown
    else if Answered(marks, last.value.at, own) then Clean
    else Unclean
  }

  /** The calls of writeCleanExit, in order. */
  datatype Call = Create | WriteText | Sync | CloseFile | RenameOver | RemoveTmp

  datatype Answer = Works | Fails | Dies

  datatype End = Marked | Failed | Died

  predicate AllWork(a: Call -> Answer) {
    a(Create).Works? && a(WriteText).Works? && a(Sync).Works? && a(CloseFile).Works? && a(RenameOver).Works?
  }

  lemma RenamedMarks(before: set<string>, after: set<string>, at: Stamp)
    requires MarkRun(MarkName(at)) == Some(at) && after == before + {MarkName(at)}
    ensures Marks(after) == Marks(before) + {at}
  {
    assert MarkName(at) in after;
  }

  class DataDir {
    var files: set<string>

    constructor (files: set<string>)
      ensures this.files == files
    {
      this.files := files;
    }

    /**
     writeCleanExit: a temporary file, written, synced and closed, then a rename. Each call has its
     own answer, and the process may die in any of them. The mark is there exactly when every
     call up to the rename worked; a failure that could remove its temporary file leaves nothing.
     */
    method WriteCleanExit(startedAt: Stamp, tmp: string, a: Call -> Answer) returns (end: End)
      requires TMP_PREFIX <= tmp && tmp !in files && MIN_INT64 <= startedAt <= MAX_INT64
      modifies this
      ensures Marks(files) == Marks(old(files)) + (if AllWork(a) then {startedAt} else {})
      ensures end.Marked? <==> AllWork(a)
      ensures end.Failed? && (a(Create).Fails? || a(RemoveTmp).Works?) ==> files == old(files)
      ensures end.Died? ==> exists c :: a(c).Dies?
    {
      MarkNames(startedAt, tmp[|TMP_PREFIX|..]);
      assert tmp == TMP_PREFIX + tmp[|TMP_PREFIX|..];
      if a(Create).Dies? { return Died; }
      if a(Create).Fails? { return Failed; }
      files := files + {tmp};
      var failed := false;
      if a(WriteText).Dies? { return Died; }
      failed := a(WriteText).Fails?;
      if !failed {
        if a(Sync).Dies? { return Died; }
        failed := a(Sync).Fails?;
      }
      if a(CloseFile).Dies? { return Died; }
      failed := failed || a(CloseFile).Fails?;
      if !failed {
        if a(RenameOver).Dies? { return Died; }
        failed := a(RenameOver).Fails?;
        if !failed {
          files := files - {tmp} + {MarkName(startedAt)};
          RenamedMarks(old(files), files, startedAt);
          return Marked;
        }
      }
      if a(RemoveTmp).Dies? { return Died; }
      if a(RemoveTmp).Works? { files := files - {tmp}; assert files == old(files); }
      return Failed;
    }

    /**
     judgePrevExit over whatever the glob listed: deletes every other run's mark it can, keeps the
     newest one's number, and answers what Judge says of the marks that were listed.
     */
    method JudgePrevExit(listing: seq<Found>, last: Option<Record>, own: Stamp, removable: string -> bool)
        returns (v: Verdict)
      modifies this
      ensures v == Judge(ListedMarks(listing), last, own)
      ensures last.None? ==> v == First
      ensures last.Some? && last.value.prev == Empty ==> v == Unknown
      ensures last.Some? && last.value.prev != Empty ==>
        v == if exists i :: 0 <= i < |listing| && NotOlder(listing[i].name, last.value.at, own) then Clean else Unclean
      ensures files == Remaining(old(files), listing, own, removable)
    {
      var newest, found := 0, false;
      for i := 0 to |listing|
        invariant Newest(listing[..i], own, found, newest)
        invariant files == Remaining(old(files), listing[..i], own, removable)
      {
        var f := listing[i];
        assert listing[..i + 1] == listing[..i] + [f];
        var ms := MarkRun(f.name);
        RemainingSnoc(old(files), listing[..i], f, own, removable);
        NewestSnoc(listing[..i], f, own, found, newest);
        if ms.None? || ms.value == own {
          continue;
        }
        if f.here && removable(f.name) {
          files := files - {f.name};
        }
        if !found || ms.value > newest {
          newest, found := ms.value, true;
        }
      }
      assert listing[..|listing|] == listing;
      v := Settle(listing, last, own, found, newest);
    }

    /** The switch at the end of judgePrevExit. */
    static method Settle(ghost listing: seq<Found>, last: Option<Record>, own: Stamp, found: bool, newest: Stamp)
        returns (v: Verdict)
      requires Newest(listing, own, found, newest)
      ensures v == Judge(ListedMarks(listing), last, own)
      ensures last.None? ==> v == First
      ensures last.Some? && last.value.prev == Empty ==> v == Unknown
      ensures last.Some? && last.value.prev != Empty ==>
        v == if exists i :: 0 <= i < |listing| && NotOlder(listing[i].name, last.value.at, own) then Clean else Unclean
    {
      NewestDecides(listing, own, found, newest);
      if last.None? {
        return First;
      }
      ListedAnswers(listing, last.value.at, own);
      if last.value.prev.Empty? {
        v := Unknown;
      } else if !found || newest < last.value.at {
        v := Unclean;
      } else {
        v := Clean;
      }
    }

    /** removeOtherMarks, for a start whose last record could not be read. */
    method RemoveOtherMarks(listing: seq<Found>, own: Stamp, removable: string -> bool)
      modifies this
      ensures files == Remaining(old(files), listing, own, removable)
    {
      for i := 0 to |listing|
        invariant files == Remaining(old(files), listing[..i], own, removable)
      {
        var f := listing[i];
        assert listing[..i + 1] == listing[..i] + [f];
        RemainingSnoc(old(files), listing[..i], f, own, removable);
        if OthersMark(f.name, own) && f.here && removable(f.name) {
          files := files - {f.name};
        }
      }
      assert listing[..|listing|] == listing;
    }
  }

  // ---- what filepath.Glob lists --------------------------------------------------

  /**
   One path of the listing. The directory is part of the pattern, so one whose path holds a
   metacharacter may list another directory's files (here is false), or nothing at all; and an
   unreadable directory lists nothing. The names themselves always begin with the prefix.
   */
  datatype Found = Found(here: bool, name: string)

  predicate OthersMark(name: string, own: Stamp) {
    MarkRun(name).Some? && MarkRun(name).value != own
  }

  /** The runs named by the listed files. */
  ghost function ListedMarks(listing: seq<Found>): set<Stamp> {
    set i | 0 <= i < |listing| && MarkRun(listing[i].name).Some? :: MarkRun(listing[i].name).value
  }

  /** Only files of the directory are listed, as when its path holds no metacharacter. */
  ghost predicate OnlyHere(listing: seq<Found>, files: set<string>) {
    forall i :: 0 <= i < |listing| ==> listing[i].here && listing[i].name in files
  }

  /** Every mark file is listed too. */
  ghost predicate Whole(listing: seq<Found>, files: set<string>) {
    OnlyHere(listing, files) && forall f :: f in files && PREFIX <= f ==> Found(true, f) in listing
  }

  /** The name is the mark of another run, not older than at. */
  predicate NotOlder(name: string, at: Stamp, own: Stamp) {
    MarkRun(name).Some? && MarkRun(name).value != own && MarkRun(name).value >= at
  }

  lemma ListedAnswers(listing: seq<Found>, at: Stamp, own: Stamp)
    ensures Answered(ListedMarks(listing), at, own)
       <==> exists i :: 0 <= i < |listing| && NotOlder(listing[i].name, at, own)
  {
    if Answered(ListedMarks(listing), at, own) {
      var m :| m in ListedMarks(listing) && m != own && m >= at;
      var i :| 0 <= i < |listing| && MarkRun(listing[i].name) == Some(m);
      assert NotOlder(listing[i].name, at, own);
    }
    if i :| 0 <= i < |listing| && NotOlder(listing[i].name, at, own) {
      assert MarkRun(listing[i].name).value in ListedMarks(listing);
    }
  }

  lemma ListedOfHere(listing: seq<Found>, files: set<string>)
    requires OnlyHere(listing, files)
    ensures ListedMarks(listing) <= Marks(files)
    ensures Whole(listing, files) ==> ListedMarks(listing) == Marks(files)
  {
    if Whole(listing, files) {
      forall f | f in files && MarkRun(f).Some? ensures MarkRun(f).value in ListedMarks(listing) {
        assert Found(true, f) in listing;
        var i :| 0 <= i < |listing| && listing[i] == Found(true, f);
        assert MarkRun(listing[i].name).Some?;
      }
    }
  }

  /** The files left after every removable mark of another run in the listing is removed. */
  ghost function Remaining(files: set<string>, listing: seq<Found>, own: Stamp, removable: string -> bool)
    : set<string>
  {
    set f | f in files && !(Found(true, f) in listing && OthersMark(f, own) && removable(f))
  }

  lemma RemainingSnoc(files: set<string>, done: seq<Found>, x: Found, own: Stamp, removable: string -> bool)
    ensures Remaining(files, done + [x], own, removable) == Remaining(files, done, own, removable)
              - (if OthersMark(x.name, own) && x.here && removable(x.name) then {x.name} else {})
  {
    assert forall f :: Found(true, f) in done + [x] <==> Found(true, f) in done || Found(true, f) == x;
  }

  /** found and newest describe the newest mark of another run in the listing. */
  ghost predicate Newest(listing: seq<Found>, own: Stamp, found: bool, newest: Stamp) {
    && (found ==>
          exists j :: 0 <= j < |listing| && OthersMark(listing[j].name, own)
            && MarkRun(listing[j].name).value == newest)
    && (forall j :: 0 <= j < |listing| && OthersMark(listing[j].name, own)
          ==> found && MarkRun(listing[j].name).value <= newest)
  }

  lemma NewestSnoc(done: seq<Found>, x: Found, own: Stamp, found: bool, newest: Stamp)
    requires Newest(done, own, found, newest)
    ensures (!OthersMark(x.name, own) || (found && MarkRun(x.name).value <= newest))
              ==> Newest(done + [x], own, found, newest)
    ensures (OthersMark(x.name, own) && (!found || MarkRun(x.name).value > newest))
              ==> Newest(done + [x], own, true, MarkRun(x.name).value)
  {
    var all := done + [x];
    assert all[|done|] == x;
    if found {
      var j :| 0 <= j < |done| && OthersMark(done[j].name, own) && MarkRun(done[j].name).value == newest;
      assert all[j] == done[j];
    }
  }

  lemma NewestDecides(listing: seq<Found>, own: Stamp, found: bool, newest: Stamp)
    requires Newest(listing, own, found, newest)
    ensures forall at :: Answered(ListedMarks(listing), at, own) <==> found && newest >= at
  {
    var marks := ListedMarks(listing);
    forall at ensures Answered(marks, at, own) <==> found && newest >= at {
      if found {
        var j :| 0 <= j < |listing| && OthersMark(listing[j].name, own) && MarkRun(listing[j].name).value == newest;
        assert newest in marks;
      }
      if Answered(marks, at, own) {
        var m :| m in marks && m != own && m >= at;
        var j :| 0 <= j < |listing| && MarkRun(listing[j].name) == Some(m);
        assert OthersMark(listing[j].name, own);
      }
    }
  }

  /**
   Of the directory's marks only listed ones of other runs go, and all of them when all are listed and
   every removal works.
   */
  lemma RemainingMarks(files: set<string>, listing: seq<Found>, own: Stamp, removable: string -> bool)
    ensures var left := Marks(Remaining(files, listing, own, removable));
      && left <= Marks(files)
      && Marks(files) - left <= ListedMarks(listing) - {own}
      && (Whole(listing, files) && (forall f :: f in files ==> removable(f)) ==> left == Marks(files) * {own})
  {
    var left := Remaining(files, listing, own, removable);
    forall f | f in files && f !in left ensures OthersMark(f, own) && MarkRun(f).value in ListedMarks(listing) {
      var i :| 0 <= i < |listing| && listing[i] == Found(true, f);
      assert MarkRun(listing[i].name).Some?;
    }
    if Whole(listing, files) && (forall f :: f in files ==> removable(f)) {
      forall f | f in left && MarkRun(f).Some? ensures MarkRun(f).value == own {
        assert Found(true, f) in listing;
      }
    }
  }
}

/**
 Whole histories of runs on one data directory: starts with growing stamps, one run at a time,
 a stop signal or a death at any step, deletions and record writes that may fail.
 */
module StartHistory {
  import opened Outcomes
  import opened CleanExit

  datatype Phase = Started | Judged(verdict: Verdict) | Recorded

  /** taken is history: the marks this run removed when it judged. */
  datatype Live = Live(own: Stamp, phase: Phase, taken: set<Stamp>)

  /**
   plain: the data directory's path holds no metacharacter of filepath.Glob.
   marks: the mark files there are. records: the start records in the order written.
   The rest is history: every mark ever left, every mark removed, and lost, the marks removed
   since the last record by starts that ended without theirs.
   */
  datatype State = State(
    plain: bool, marks: set<Stamp>, records: seq<Record>, run: Option<Live>, clock: Stamp,
    left: set<Stamp>, deleted: set<Stamp>, lost: set<Stamp>)

  datatype Event =
    | Start(own: Stamp)
    | StopSignal(written: bool)                     // watchStop: the mark is written, or could not be
    /**
     readable: the last record could be read. listed: the runs the glob named. gone: the marks there are
     that were removed.
     */
    | JudgeStart(readable: bool, listed: set<Stamp>, gone: set<Stamp>)
    | WriteRecord
    | End                                           // exit or death

  function Last(records: seq<Record>): Option<Record> {
    if records == [] then None else Some(records[|records| - 1])
  }

  ghost function VerdictAt(s: State, own: Stamp, readable: bool, listed: set<Stamp>): Verdict {
    if readable then Judge(listed, Last(s.records), own) else Unknown
  }

  /** What the glob may name: in a plain directory some of its marks (all, unless reading it failed), else anything. */
  ghost predicate CanList(s: State, listed: set<Stamp>) {
    s.plain ==> listed <= s.marks
  }

  ghost function Apply(s: State, e: Event): Option<State> {
    match e
    case Start(own) =>
      if s.run.None? && own > s.clock then Some(s.(run := Some(Live(own, Started, {})), clock := own)) else None
    case StopSignal(written) =>
      if s.run.None? then None
      else if written then Some(s.(marks := s.marks + {s.run.value.own}, left := s.left + {s.run.value.own}))
      else Some(s)
    case JudgeStart(readable, listed, gone) =>
      if s.run.None? || !s.run.value.phase.Started? then None
      else if !CanList(s, listed) || !(gone <= s.marks * listed - {s.run.value.own}) then None
      else Some(s.(run := Some(Live(s.run.value.own, Judged(VerdictAt(s, s.run.value.own, readable, listed)), gone)),
                   marks := s.marks - gone, deleted := s.deleted + gone))
    case WriteRecord =>
      if s.run.None? || !s.run.value.phase.Judged? then None
      else Some(s.(run := Some(s.run.value.(phase := Recorded)), lost := {},
                   records := s.records + [Record(s.run.value.own, s.run.value.phase.verdict)]))
    case End =>
      if s.run.None? then None
      else Some(s.(run := None, lost := s.lost + (if s.run.value.phase.Judged? then s.run.value.taken else {})))
  }

  ghost function Run(s: State, es: seq<Event>): Option<State> {
    if es == [] then Some(s)
    else
      match Run(s, es[..|es| - 1])
      case None => None
      case Some(t) => Apply(t, es[|es| - 1])
  }

  ghost predicate Ordered(records: seq<Record>, clock: Stamp) {
    forall i :: 0 <= i < |records| ==> records[i].at <= records[|records| - 1].at <= clock
  }

  /** A data directory as some earlier wwd may have left it: any records and any marks of past runs. */
  ghost predicate Init(s: State) {
    && s.run.None? && s.lost == {} && s.deleted == {} && s.left == s.marks
    && (forall m :: m in s.marks ==> m <= s.clock)
    && Ordered(s.records, s.clock)
  }

  ghost predicate Reachable(s: State) {
    exists s0, es :: Init(s0) && Run(s0, es) == Some(s)
  }

  /** The mark is older than the last record. */
  predicate Older(m: Stamp, records: seq<Record>) {
    records != [] && m < records[|records| - 1].at
  }

  /** The marks the run under way took and may still get a record for. */
  function Open(s: State): set<Stamp> {
    if s.run.Some? && s.run.value.phase.Judged? then s.run.value.taken else {}
  }

  ghost predicate Inv(s: State) {
    && s.marks == s.left - s.deleted
    && s.deleted <= s.left && s.lost <= s.deleted && Open(s) <= s.deleted
    && (forall m :: m in s.left ==> m <= s.clock)
    && Ordered(s.records, s.clock)
    && (s.run.Some? ==> s.run.value.own == s.clock && s.clock !in s.deleted)
    && (s.run.Some? && !s.run.value.phase.Recorded? && s.records != [] ==> Last(s.records).value.at < s.clock)
    && (forall m :: m in s.deleted ==> m in s.lost || m in Open(s) || Older(m, s.records))
  }

  lemma ApplyKeepsInv(s: State, e: Event)
    requires Inv(s) && Apply(s, e).Some?
    ensures Inv(Apply(s, e).value)
  {
  }

  lemma {:induction false} RunKeepsInv(s: State, es: seq<Event>)
    requires Inv(s)
    ensures Run(s, es).Some? ==> Inv(Run(s, es).value) && s.records <= Run(s, es).value.records
  {
    if es != [] && Run(s, es).Some? {
      RunKeepsInv(s, es[..|es| - 1]);
      ApplyKeepsInv(Run(s, es[..|es| - 1]).value, es[|es| - 1]);
    }
  }

  lemma ReachableInv(s: State)
    requires Reachable(s)
    ensures Inv(s)
  {
    var s0, es :| Init(s0) && Run(s0, es) == Some(s);
    RunKeepsInv(s0, es);
  }

  // ---- the verdict -----------------------------------------------------------

  /** A start is about to judge, and the last record carries a verdict. */
  ghost predicate Judging(s: State) {
    && s.run.Some? && s.run.value.phase.Started?
    && s.records != [] && !Last(s.records).value.prev.Empty?
  }

  /** m is the mark of a run at or after the last recorded one, other than the judging one. */
  ghost predicate Answering(s: State, m: Stamp)
    requires Judging(s)
  {
    m in s.left && m != s.run.value.own && m >= Last(s.records).value.at
  }

  /** Some run at or after the last recorded one left its mark. */
  ghost predicate PreviousLeftMark(s: State)
    requires Judging(s)
  {
    exists m :: Answering(s, m)
  }

  /** The glob named a run that answers and has no mark in this directory. */
  ghost predicate Stray(s: State, listed: set<Stamp>)
    requires Judging(s)
  {
    exists m :: m in listed && m !in s.marks && m != s.run.value.own && m >= Last(s.records).value.at
  }

  /** Every mark that answers was removed by a start that went unrecorded, or was not listed. */
  ghost predicate AllMissed(s: State, listed: set<Stamp>)
    requires Judging(s)
  {
    forall m :: Answering(s, m) ==> m in s.lost || m !in listed
  }

  /**
   In every history and for every listing the verdict is clean or unclean. Unclean is wrong if and
   only if some mark answered, every such mark was lost or not listed, and nothing stray was listed;
   clean is wrong if and only if no mark answered and something stray was listed.
   */
  lemma VerdictIsExact(s: State, listed: set<Stamp>)
    requires Reachable(s) && Judging(s)
    ensures var v := VerdictAt(s, s.run.value.own, true, listed);
      && (v.Clean? || v.Unclean?)
      && (v.Unclean? && PreviousLeftMark(s) <==> PreviousLeftMark(s) && AllMissed(s, listed) && !Stray(s, listed))
      && (v.Clean? && !PreviousLeftMark(s) <==> !PreviousLeftMark(s) && Stray(s, listed))
  {
    ReachableInv(s);
    var at, own := Last(s.records).value.at, s.run.value.own;
    if Answered(listed, at, own) {
      var m :| m in listed && m != own && m >= at;
      if m in s.marks {
        assert Answering(s, m) && m !in s.lost;
      } else {
        assert Stray(s, listed);
      }
    } else {
      forall m | Answering(s, m) ensures m !in listed {
      }
    }
  }

  /** In a plain directory clean is never wrong, and unclean is wrong only by what was lost or not listed. */
  lemma PlainVerdictIsExact(s: State, listed: set<Stamp>)
    requires Reachable(s) && Judging(s) && s.plain && CanList(s, listed)
    ensures var v := VerdictAt(s, s.run.value.own, true, listed);
      && (v.Clean? ==> PreviousLeftMark(s))
      && (v.Unclean? && PreviousLeftMark(s) <==> PreviousLeftMark(s) && AllMissed(s, listed))
  {
    VerdictIsExact(s, listed);
  }

  /** With every mark listed and nothing lost the verdict is right. */
  lemma VerdictIsRightWithNothingLost(s: State)
    requires Reachable(s) && Judging(s) && s.lost == {}
    ensures VerdictAt(s, s.run.value.own, true, s.marks).Clean? <==> PreviousLeftMark(s)
  {
    VerdictIsExact(s, s.marks);
    ReachableInv(s);
    if PreviousLeftMark(s) {
      var m :| Answering(s, m);
      assert m in s.marks;
    }
  }

  /** At i a start removed m, at j that start ended, and no start was recorded since i. */
  ghost predicate LostAt(es: seq<Event>, m: Stamp, i: int, j: int) {
    && 0 <= i < j < |es|
    && es[i].JudgeStart? && m in es[i].gone && es[j].End?
    && (forall k :: i < k < j ==> !es[k].End? && !es[k].Start?)
    && (forall k :: i < k < |es| ==> !es[k].WriteRecord?)
  }

  /** At i the start under way removed m, and it has neither ended nor been recorded. */
  ghost predicate TakenAt(es: seq<Event>, m: Stamp, i: int) {
    && 0 <= i < |es| && es[i].JudgeStart? && m in es[i].gone
    && (forall k :: i < k < |es| ==> !es[k].End? && !es[k].Start? && !es[k].WriteRecord?)
  }

  lemma {:induction false} OpenIsTaken(s0: State, es: seq<Event>, m: Stamp)
    requires Init(s0) && Run(s0, es).Some? && m in Open(Run(s0, es).value)
    ensures exists i :: TakenAt(es, m, i)
  {
    var n := |es| - 1;
    var init, e := es[..n], es[n];
    assert forall k :: 0 <= k < n ==> es[k] == init[k];
    if e.JudgeStart? {
      assert TakenAt(es, m, n);
    } else {
      OpenIsTaken(s0, init, m);
      var i :| TakenAt(init, m, i);
      assert TakenAt(es, m, i);
    }
  }

  lemma {:induction false} TakenIsOpen(s0: State, es: seq<Event>, m: Stamp, i: int)
    requires Run(s0, es).Some? && TakenAt(es, m, i)
    ensures m in Open(Run(s0, es).value)
  {
    var n := |es| - 1;
    if i < n {
      var init := es[..n];
      assert forall k :: 0 <= k < n ==> es[k] == init[k];
      TakenIsOpen(s0, init, m, i);
    }
  }

  lemma {:induction false} UnrecordedIsLost(s0: State, es: seq<Event>, m: Stamp, i: int, j: int)
    requires Run(s0, es).Some? && LostAt(es, m, i, j)
    ensures m in Run(s0, es).value.lost
  {
    var n := |es| - 1;
    var init := es[..n];
    assert forall k :: 0 <= k < n ==> es[k] == init[k];
    if j < n {
      UnrecordedIsLost(s0, init, m, i, j);
    } else {
      TakenIsOpen(s0, init, m, i);
    }
  }

  /** A mark is lost if and only if some start removed it and ended, with no record written since it judged. */
  lemma LostIff(s0: State, es: seq<Event>, m: Stamp)
    requires Init(s0) && Run(s0, es).Some?
    ensures m in Run(s0, es).value.lost <==> exists i, j :: LostAt(es, m, i, j)
  {
    if m in Run(s0, es).value.lost {
      LostMeansUnrecorded(s0, es, m);
    }
    if i, j :| LostAt(es, m, i, j) {
      UnrecordedIsLost(s0, es, m, i, j);
    }
  }

  lemma {:induction false} LostMeansUnrecorded(s0: State, es: seq<Event>, m: Stamp)
    requires Init(s0) && Run(s0, es).Some? && m in Run(s0, es).value.lost
    ensures exists i, j :: LostAt(es, m, i, j)
  {
    var n := |es| - 1;
    var init, e := es[..n], es[n];
    assert forall k :: 0 <= k < n ==> es[k] == init[k];
    var before := Run(s0, init).value;
    if m in before.lost {
      LostMeansUnrecorded(s0, init, m);
      var i, j :| LostAt(init, m, i, j);
      assert LostAt(es, m, i, j);
    } else {
      OpenIsTaken(s0, init, m);
      var i :| TakenAt(init, m, i);
      assert LostAt(es, m, i, n);
    }
  }

  lemma ReachableStep(s: State, e: Event)
    requires Reachable(s) && Apply(s, e).Some?
    ensures Reachable(Apply(s, e).value)
  {
    var s0, es :| Init(s0) && Run(s0, es) == Some(s);
    assert (es + [e])[..|es|] == es;
    assert Run(s0, es + [e]) == Apply(s, e);
  }

  /** Run 1 was recorded and left its mark; run 2 removes the mark and dies unrecorded; run 3 is called unclean. */
  lemma LostRecordBlamesAPlannedStop()
    ensures exists s :: Reachable(s) && Judging(s) && s.plain && PreviousLeftMark(s)
              && VerdictAt(s, s.run.value.own, true, s.marks).Unclean?
  {
    var s0 := State(true, {1}, [Record(1, First)], None, 1, {1}, {}, {});
    assert Init(s0) && Run(s0, []) == Some(s0);
    ReachableStep(s0, Start(2));
    var s1 := Apply(s0, Start(2)).value;
    ReachableStep(s1, JudgeStart(true, {1}, {1}));
    var s2 := Apply(s1, JudgeStart(true, {1}, {1})).value;
    ReachableStep(s2, End);
    var s3 := Apply(s2, End).value;
    ReachableStep(s3, Start(3));
    var s4 := Apply(s3, Start(3)).value;
    assert s4.marks == {} && Answering(s4, 1);
    assert VerdictAt(s4, 3, true, s4.marks).Unclean?;
  }

  /** A directory such as `/srv/wwd[1]`: the mark is there, nothing was lost, and the glob looks elsewhere. */
  lemma UnlistedMarkBlamesAPlannedStop()
    ensures exists s, listed: set<Stamp> :: Reachable(s) && Judging(s) && CanList(s, listed) && s.lost == {}
              && PreviousLeftMark(s) && VerdictAt(s, s.run.value.own, true, listed).Unclean?
  {
    var s := AfterRunOne({1});
    assert Answering(s, 1);
    var none: set<Stamp> := {};
    assert CanList(s, none) && VerdictAt(s, 2, true, none).Unclean?;
  }

  /** The other way round: a crash passes for a planned stop when the glob finds another directory's mark. */
  lemma StrayMarkExcusesACrash()
    ensures exists s, listed: set<Stamp> :: Reachable(s) && Judging(s) && CanList(s, listed)
              && !PreviousLeftMark(s) && VerdictAt(s, s.run.value.own, true, listed).Clean?
  {
    var s := AfterRunOne({});
    assert !PreviousLeftMark(s);
    assert Answered({5}, 1, 2) by { assert 5 in {5}; }
    assert CanList(s, {5}) && VerdictAt(s, 2, true, {5}).Clean?;
  }

  /** Run 1 was recorded, these marks are there, and run 2 is about to judge. */
  lemma AfterRunOne(marks: set<Stamp>) returns (s: State)
    requires forall m :: m in marks ==> m <= 1
    ensures Reachable(s) && s.run == Some(Live(2, Started, {})) && s.records == [Record(1, First)]
    ensures !s.plain && s.marks == s.left == marks && s.lost == {}
  {
    var s0 := State(false, marks, [Record(1, First)], None, 1, marks, {}, {});
    assert Init(s0) && Run(s0, []) == Some(s0);
    ReachableStep(s0, Start(2));
    s := Apply(s0, Start(2)).value;
  }

  // ---- the two ordinary endings --------------------------------------------------

  /** A recorded run that is asked to stop and leaves its mark makes the next start clean, whatever came before. */
  lemma PlannedStopIsClean(s: State, q: Stamp)
    requires Reachable(s) && s.run.Some? && s.run.value.phase.Recorded? && q > s.clock
    ensures var a := Apply(s, StopSignal(true));
      && a.Some? && Apply(a.value, End).Some? && Apply(Apply(a.value, End).value, Start(q)).Some?
      && var n := Apply(Apply(a.value, End).value, Start(q)).value;
         Judging(n) && VerdictAt(n, q, true, n.marks) == Clean
  {
    ReachableInv(s);
    RecordedIsLast(s);
    var a := Apply(s, StopSignal(true)).value;
    var n := Apply(Apply(a, End).value, Start(q)).value;
    assert s.run.value.own in n.marks;
  }

  /** A recorded run that dies without a mark makes the next start unclean. */
  lemma CrashIsUnclean(s: State, q: Stamp)
    requires Reachable(s) && s.run.Some? && s.run.value.phase.Recorded? && q > s.clock && s.run.value.own !in s.marks
    ensures Apply(s, End).Some? && Apply(Apply(s, End).value, Start(q)).Some?
    ensures var n := Apply(Apply(s, End).value, Start(q)).value;
            Judging(n) && VerdictAt(n, q, true, n.marks) == Unclean
  {
    ReachableInv(s);
    RecordedIsLast(s);
  }

  /** A run's record is the last one, and carries a verdict. */
  predicate OwnRecord(s: State) {
    && (s.run.Some? && s.run.value.phase.Judged? ==> !s.run.value.phase.verdict.Empty?)
    && (s.run.Some? && s.run.value.phase.Recorded? ==>
          s.records != [] && Last(s.records).value.at == s.run.value.own && !Last(s.records).value.prev.Empty?)
  }

  lemma {:induction false} LastIsOwn(s0: State, es: seq<Event>)
    requires Init(s0)
    ensures Run(s0, es).Some? ==> OwnRecord(Run(s0, es).value)
  {
    if es != [] && Run(s0, es).Some? {
      LastIsOwn(s0, es[..|es| - 1]);
    }
  }

  lemma RecordedIsLast(s: State)
    requires Reachable(s) && s.run.Some? && s.run.value.phase.Recorded?
    ensures OwnRecord(s)
  {
    var s0, es :| Init(s0) && Run(s0, es) == Some(s);
    LastIsOwn(s0, es);
  }

  // ---- a mark counts once ------------------------------------------------

  /** A mark that can make the judging start clean. */
  ghost predicate Answers(m: Stamp, s: State)
    requires Judging(s)
  {
    m in s.marks && m != s.run.value.own && m >= Last(s.records).value.at
  }

  /**
   A mark that answered for one start answers for no later one once that start's record is
   written, whether or not its removal worked.
   */
  lemma MarkCountsOnce(s: State, es: seq<Event>, m: Stamp, i: nat)
    requires Reachable(s) && Judging(s) && Answers(m, s)
    requires Run(s, es).Some? && Judging(Run(s, es).value)
    requires i < |Run(s, es).value.records| && Run(s, es).value.records[i].at == s.run.value.own
    ensures !Answers(m, Run(s, es).value)
  {
    ReachableInv(s);
    RunKeepsInv(s, es);
  }
}
