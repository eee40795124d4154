/**
 Both halves of the log together (cmd/pdx/logrotate.go): rotWriter and rotate over pdx.log and
 pdx.log.rotating, and compress over the generation files, for any sequence of writes, rotations
 and compression attempts.
 */
module LogFiles {
  import opened Outcomes
  import opened LogRotation
  import opened LogArchive

  // ---- what the files tell, read from the oldest on -----------------------------

  function Concat(parts: seq<Bytes>): Bytes {
    if parts == [] then [] else Concat(parts[..|parts| - 1]) + parts[|parts| - 1]
  }

  /** Newest first, no segment is skipped; one may be there more than once. */
  predicate Chain(list: seq<Segment>) {
    forall i :: 0 <= i < |list| - 1 ==> list[i + 1] == list[i] || list[i + 1] + 1 == list[i]
  }

  /** The segments from the oldest to the newest, each once. */
  function Reading(list: seq<Segment>): seq<Segment> {
    if list == [] then []
    else if |list| >= 2 && list[1] == list[0] then Reading(list[1..])
    else Reading(list[1..]) + [list[0]]
  }

  function Range(lo: Segment, hi: Segment): seq<Segment>
    requires lo <= hi
  {
    seq(hi - lo, i requires 0 <= i < hi - lo => lo + i)
  }

  /** A chain reads as an unbroken range, up to its first segment. */
  lemma {:induction false} ChainReadsAsRange(list: seq<Segment>)
    requires Chain(list) && list != []
    ensures list[|list| - 1] <= list[0] && Reading(list) == Range(list[|list| - 1], list[0] + 1)
  {
    if |list| > 1 {
      var rest := list[1..];
      assert forall i :: 0 <= i < |rest| ==> rest[i] == list[i + 1];
      ChainReadsAsRange(rest);
      var last := list[|list| - 1];
      assert list[1] == list[0] || Range(last, list[0] + 1) == Range(last, list[1] + 1) + [list[0]];
    } else {
      assert Reading(list[1..]) == [];
      assert Range(list[0], list[0] + 1) == [list[0]];
    }
  }

  /** The contents of these segments, one after the other. */
  function Text(segments: seq<Bytes>, ids: seq<Segment>): Bytes
    requires forall i :: 0 <= i < |ids| ==> ids[i] < |segments|
  {
    if ids == [] then [] else Text(segments, ids[..|ids| - 1]) + segments[ids[|ids| - 1]]
  }

  lemma {:induction false} RangeText(segments: seq<Bytes>, lo: nat, hi: nat)
    requires lo <= hi <= |segments|
    ensures Text(segments, Range(lo, hi)) == Concat(segments[lo..hi])
  {
    if lo < hi {
      var r := Range(lo, hi);
      assert r[..|r| - 1] == Range(lo, hi - 1);
      RangeText(segments, lo, hi - 1);
      var s := segments[lo..hi];
      assert s[..|s| - 1] == segments[lo..hi - 1];
    }
  }

  lemma {:induction false} ConcatSplit(a: seq<Bytes>, b: seq<Bytes>)
    ensures Concat(a + b) == Concat(a) + Concat(b)
  {
    if b == [] {
      assert a + b == a;
    } else {
      var n := |b| - 1;
      assert (a + b)[..|a| + n] == a + b[..n];
      ConcatSplit(a, b[..n]);
      JoinWritten(Concat(a), Concat(b[..n]), b[n]);
    }
  }

  // ---- what an attempt does to the list ----------------------------------------------

  /** The generations newest first, behind .rotating if it is there. */
  function OnDisk(rotating: Option<Segment>, gens: Slots): seq<Segment> {
    (if rotating.Some? then [rotating.value] else []) + Listing(gens)
  }

  /** Everything from some segment on is there: the list is a chain that begins with the newest segment. */
  predicate Unbroken(list: seq<Segment>, n: nat) {
    Chain(list) && (list == [] <==> n == 0) && (list != [] ==> list[0] == n - 1)
  }

  lemma ChainOfPrefix(s: Segment, long: seq<Segment>, short: seq<Segment>)
    requires Chain([s] + long) && short <= long
    ensures Chain([s] + short) && Chain(short) && Chain([s] + ([s] + short))
  {
    var a, b := [s] + long, [s] + short;
    assert forall i :: 0 <= i < |b| ==> b[i] == a[i];
    assert forall i :: 0 <= i < |short| ==> short[i] == b[i + 1];
    var c := [s] + b;
    assert forall i :: 0 <= i < |b| ==> c[i + 1] == b[i];
  }

  lemma AttemptKeepsChain(s: Segment, before: seq<Segment>, after: seq<Segment>)
    requires Chain([s] + before) && Attempted(before, after, s)
    ensures Chain([s] + after) && (after != [] && after[0] == s ==> Chain(after))
  {
    if Trimmed(before, after) {
      ChainOfPrefix(s, before, after);
    } else {
      ChainOfPrefix(s, before, after[1..]);
      assert after == [s] + after[1..];
    }
  }

  lemma {:induction false} FirstListed(gens: Slots, s: Segment)
    requires gens != [] && gens[0] == Some(Whole(s))
    ensures Listing(gens) != [] && Listing(gens)[0] == s
  {
    assert gens == [gens[0]] + gens[1..];
    ListingConcat([gens[0]], gens[1..]);
    ListingOne(gens[0]);
  }

  lemma {:induction false} ListedIsThere(gens: Slots, i: nat)
    requires i < |gens| && gens[i].Some? && gens[i].value.Whole?
    ensures gens[i].value.of in Listing(gens)
  {
    if i < |gens| - 1 {
      ListedIsThere(gens[..|gens| - 1], i);
    }
  }

  lemma ChainIsBounded(list: seq<Segment>, n: nat, x: Segment)
    requires Unbroken(list, n) && x in list
    ensures x < n
  {
    var i :| 0 <= i < |list| && list[i] == x;
    BelowFirst(list, i);
  }

  lemma {:induction false} BelowFirst(list: seq<Segment>, i: nat)
    requires Chain(list) && i < |list|
    ensures list[i] <= list[0]
  {
    if i > 0 {
      BelowFirst(list, i - 1);
      assert list[(i - 1) + 1] == list[i - 1] || list[(i - 1) + 1] + 1 == list[i - 1];
    }
  }

  // ---- one state ------------------------------------------------------------------------

  datatype Op =
    | Write(p: Bytes, answers: seq<WriteAnswer>)
    | Rotate(o: Oracle)
    | Attempt(a: Step -> Answer)

  class Files {
    const rot: LogRotator
    const arch: Archive
    ghost const first: Bytes           // what pdx.log held at the start
    var rotations: nat                 // how many there were: the number of the next segment
    ghost var segments: seq<Bytes>     // what each rotation handed over, in order

    /** Everything the log was ever given. */
    ghost function Total(): Bytes
      reads this, rot
    {
      first + rot.written
    }

    ghost predicate Valid()
      reads this, rot, arch
    {
      && rot.Valid() && arch.Valid() && rotations == |segments|
      && rot.log.Some? && rot.AllOn(rot.log.value)
      && (rot.rotating.Some? <==> arch.rotating.Some?)
      && (rot.rotating.Some? ==>
            segments != [] && arch.rotating.value == |segments| - 1
            && rot.contents[rot.rotating.value] == segments[|segments| - 1])
      && Total() == Concat(segments) + rot.contents[rot.log.value]
      && Unbroken(OnDisk(arch.rotating, arch.gens), |segments|)
    }

    constructor (fds: seq<Fd>, writer: nat, first: Bytes, keep: nat)
      requires writer < |fds| && (forall i, j :: 0 <= i < j < |fds| ==> fds[i] != fds[j]) && keep >= 1
      ensures Valid() && Total() == first && fresh(rot) && fresh(arch)
    {
      rot := new LogRotator(fds, writer, first);
      arch := new Archive(keep);
      this.first := first;
      rotations, segments := 0, [];
      new;
      EmptyListing(arch.gens);
      assert first + [] == first && [] + first == first;
    }

    /** A write reaches the file at pdx.log, and nothing else changes. */
    method WriteLog(p: Bytes, answers: seq<WriteAnswer>) returns (n: nat)
      requires Valid()
      modifies rot
      ensures Valid() && n <= |p| && Total() == old(Total()) + p[..n]
    {
      var end;
      n, end := rot.Write(p, answers);
      JoinWritten(first, old(rot.written), p[..n]);
      JoinWritten(Concat(segments), old(rot.contents[rot.log.value]), p[..n]);
    }

    /** A rotation hands the old file over as the next segment, or leaves everything where it was. */
    method RotateLog(o: Oracle) returns (ok: bool)
      requires Valid()
      modifies this, rot, arch
      ensures Valid() && old(Total()) <= Total()
      ensures |segments| == |old(segments)| + (if ok then 1 else 0) && old(segments) <= segments
      ensures ok <==> !old(rot.stopped) && old(rot.rotating).None? && rot.AllSucceed(o)
    {
      ghost var added;
      ghost var log0, segs0 := rot.contents[rot.log.value], segments;
      ok, added := rot.Rotate(o);
      JoinWritten(first, old(rot.written), added);
      JoinWritten(Concat(segs0), log0, added);
      if ok {
        ghost var s := rot.contents[rot.rotating.value];
        segments := segs0 + [s];
        SegmentAdded(segs0, s, rot.contents[rot.log.value], log0 + added);
        NextIsNewer(arch.gens, |segs0|);
        HandOver(arch.gens, |segs0|);
        arch.Arrive(rotations);
        rotations := rotations + 1;
      }
    }

    /** One compression attempt, wherever its answers stop it. */
    method AttemptCompression(a: Step -> Answer) returns (end: End)
      requires Valid()
      modifies rot, arch
      ensures Valid() && Total() == old(Total())
      ensures end.Finished? <==> Finishes(old(arch.rotating), old(arch.gens), a)
      ensures end.Finished? ==> rot.rotating == None
    {
      ghost var before := arch.gens;
      ghost var clobbered;
      ghost var pending := arch.rotating;
      end, clobbered := arch.Compress(a);
      if pending.Some? {
        AttemptKeepsChain(pending.value, Listing(before), Listing(arch.gens));
        if end.Finished? { FirstListed(arch.gens, pending.value); }
      }
      AttemptKeepsUnbroken(pending, before, arch.rotating, arch.gens, |segments|);
      if end.Finished? {
        rot.RemoveRotated();
      }
    }

    /**
     Read from the oldest generation to .rotating and pdx.log, each segment once, the files are the
     end of everything the log was ever given: nothing is missing in between and nothing is out of order.
     */
    ghost predicate TellsTheEnd()
      requires Valid()
      reads this, rot, arch
    {
      exists lo: nat :: lo <= |segments|
        && Reading(OnDisk(arch.rotating, arch.gens)) == Range(lo, |segments|)
        && Total() == Concat(segments[..lo]) + (Text(segments, Range(lo, |segments|)) + rot.contents[rot.log.value])
    }

    lemma ValidTellsTheEnd()
      requires Valid()
      ensures TellsTheEnd()
    {
      var list, n, log := OnDisk(arch.rotating, arch.gens), |segments|, rot.contents[rot.log.value];
      var lo := 0;
      if list == [] {
        assert Range(0, 0) == [] && segments[..0] == [];
      } else {
        ChainReadsAsRange(list);
        lo := list[|list| - 1];
      }
      SuffixAt(segments, lo, log);
      assert Reading(list) == Range(lo, n);
    }

    /** Over any sequence of writes, rotations and compression attempts, whatever fails or dies in them. */
    method Play(ops: seq<Op>)
      requires Valid()
      modifies this, rot, arch
      ensures Valid() && TellsTheEnd() && old(Total()) <= Total()
    {
      for i := 0 to |ops|
        invariant Valid() && old(Total()) <= Total()
      {
        ghost var so := Total();
        match ops[i] {
          case Write(p, answers) => var n := WriteLog(p, answers);
          case Rotate(o) => var ok := RotateLog(o);
          case Attempt(a) => var end := AttemptCompression(a);
        }
        assert so <= Total();
      }
      ValidTellsTheEnd();
    }
  }

  lemma SegmentAdded(segs: seq<Bytes>, s: Bytes, log: Bytes, was: Bytes)
    requires s + log == was
    ensures Concat(segs + [s]) + log == Concat(segs) + was
  {
    assert (segs + [s])[..|segs|] == segs;
    JoinWritten(Concat(segs), s, log);
  }

  lemma NextIsNewer(gens: Slots, n: nat)
    requires Unbroken(OnDisk(None, gens), n)
    ensures NoNewer(gens, n)
  {
    assert OnDisk(None, gens) == Listing(gens);
    forall i | 0 <= i < |gens| && gens[i].Some? && gens[i].value.Whole? ensures gens[i].value.of <= n {
      ListedIsThere(gens, i);
      ChainIsBounded(Listing(gens), n, gens[i].value.of);
    }
  }

  lemma HandOver(gens: Slots, n: nat)
    requires Unbroken(OnDisk(None, gens), n)
    ensures Unbroken(OnDisk(Some(n), gens), n + 1)
  {
    assert OnDisk(None, gens) == Listing(gens);
    ChainGrows(Listing(gens), n);
  }

  lemma ChainGrows(list: seq<Segment>, n: nat)
    requires Unbroken(list, n)
    ensures Unbroken([n] + list, n + 1)
  {
    var more := [n] + list;
    forall i | 0 <= i < |more| - 1 ensures more[i + 1] == more[i] || more[i + 1] + 1 == more[i] {
      if i > 0 {
        var k := i - 1;
        assert list[k + 1] == list[k] || list[k + 1] + 1 == list[k];
      }
    }
  }

  lemma AttemptKeepsUnbroken(was: Option<Segment>, before: Slots, now: Option<Segment>, after: Slots, n: nat)
    requires Unbroken(OnDisk(was, before), n)
    requires was.None? ==> now.None? && after == before
    requires was.Some? ==> Chain([was.value] + Listing(after)) && (now == was || now == None)
    requires was.Some? && now.None? ==> Listing(after) != [] && Listing(after)[0] == was.value && Chain(Listing(after))
    ensures Unbroken(OnDisk(now, after), n)
  {
    if was.Some? {
      assert OnDisk(was, before)[0] == was.value;
      if now.None? {
        assert OnDisk(now, after) == Listing(after);
      }
    }
  }

  lemma SuffixAt(segments: seq<Bytes>, lo: nat, log: Bytes)
    requires lo <= |segments|
    ensures Concat(segments) + log == Concat(segments[..lo]) + (Text(segments, Range(lo, |segments|)) + log)
  {
    var n := |segments|;
    CutAt(segments, lo);
    ConcatSplit(segments[..lo], segments[lo..n]);
    RangeText(segments, lo, n);
    JoinWritten(Concat(segments[..lo]), Concat(segments[lo..n]), log);
  }

  lemma CutAt(segments: seq<Bytes>, lo: nat)
    requires lo <= |segments|
    ensures segments[..lo] + segments[lo..|segments|] == segments
  {
  }

  lemma {:induction false} EmptyListing(gens: Slots)
    requires forall i :: 0 <= i < |gens| ==> gens[i] == None
    ensures Listing(gens) == []
  {
    if gens != [] {
      EmptyListing(gens[..|gens| - 1]);
    }
  }
}
