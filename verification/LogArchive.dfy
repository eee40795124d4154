/**
 logRotator.compress of cmd/pdx/logrotate.go: pdx.log.rotating becomes
 pdx.log.1.gz after the older generations moved up, through a part file. Each
 file operation succeeds, fails or is where the process dies; the state it leaves
 is what the next attempt starts from.
 */
module LogArchive {
  import opened Outcomes

  /** A rotated log, numbered in the order of rotation. */
  type Segment = nat

  /** A gzip file on disk: cut short, or the complete compression of a segment. */
  datatype Gzip = Partial | Whole(of: Segment)

  /** The generation files: slot i is pdx.log.(i+1).gz. */
  type Slots = seq<Option<Gzip>>

  datatype Step = OpenSource | OpenPart | CopyAll | RemoveOldest | Shift(from: nat) | CommitPart | RemoveSource

  datatype Answer = Succeeds | Fails | Dies

  datatype End = Finished | Failed | Died

  /** Every generation is a complete compression, and a lower number is never older than a higher one. */
  ghost predicate Ordered(g: Slots) {
    && (forall i :: 0 <= i < |g| && g[i].Some? ==> g[i].value.Whole?)
    && (forall i, j :: 0 <= i < j < |g| && g[i].Some? && g[j].Some? ==> g[i].value.of >= g[j].value.of)
  }

  /** No generation is newer than s. */
  ghost predicate NoNewer(g: Slots, s: Segment) {
    forall i :: 0 <= i < |g| && g[i].Some? && g[i].value.Whole? ==> g[i].value.of <= s
  }

  /** What the whole shift puts into slot j > 0. */
  function Moved(before: Slots, j: nat, removed: bool): Option<Gzip>
    requires 0 < j < |before|
  {
    if before[j - 1].Some? then before[j - 1]
    else if j == |before| - 1 && !removed then before[j]
    else None
  }

  /** What the shift has made of before when slot i is the last it emptied (removed: the oldest was dropped first). */
  ghost predicate ShiftedTo(before: Slots, after: Slots, i: nat, removed: bool) {
    && i < |before| == |after|
    && forall j :: 0 <= j < |before| ==>
         after[j] == if j < i then before[j]
                     else if j > i then Moved(before, j, removed)
                     else if j == |before| - 1 && !removed then before[j] else None
  }

  /** What a finished compression of s leaves. */
  ghost predicate IsRotated(before: Slots, after: Slots, s: Segment, removed: bool) {
    && 0 < |before| == |after| && after[0] == Some(Whole(s))
    && forall j :: 0 < j < |before| ==> after[j] == Moved(before, j, removed)
  }

  /** Only the last slot's file can be gone: every other one is where it was or one up. */
  ghost predicate Retained(before: Slots, after: Slots) {
    && |before| == |after|
    && forall j :: 0 <= j < |before| - 1 && before[j].Some? ==> after[j] == before[j] || after[j + 1] == before[j]
  }

  lemma ShiftKeepsOrder(before: Slots, after: Slots, i: nat, removed: bool, s: Segment)
    requires Ordered(before) && NoNewer(before, s) && ShiftedTo(before, after, i, removed)
    ensures Ordered(after) && NoNewer(after, s) && Retained(before, after)
  {
    ShiftRetains(before, after, i, removed);
    ShiftSources(before, after, i, removed);
  }

  lemma ShiftRetains(before: Slots, after: Slots, i: nat, removed: bool)
    requires ShiftedTo(before, after, i, removed)
    ensures Retained(before, after)
  {
    forall j | 0 <= j < |before| - 1 && before[j].Some?
      ensures after[j] == before[j] || after[j + 1] == before[j]
    {
      assert j >= i ==> after[j + 1] == Moved(before, j + 1, removed);
    }
  }

  /** Where the content of slot j comes from. */
  function Source(before: Slots, i: nat, j: nat): nat
    requires j < |before|
  {
    if j > i && before[j - 1].Some? then j - 1 else j
  }

  lemma ShiftSources(before: Slots, after: Slots, i: nat, removed: bool)
    requires ShiftedTo(before, after, i, removed)
    ensures forall j :: 0 <= j < |after| && after[j].Some? ==> after[j] == before[Source(before, i, j)]
    ensures forall j, k :: 0 <= j < k < |after| && after[j].Some? && after[k].Some?
              ==> Source(before, i, j) < Source(before, i, k)
  {
    forall j | 0 <= j < |after| && after[j].Some?
      ensures after[j] == before[Source(before, i, j)]
    {
      SourceOf(before, after, i, removed, j);
    }
    forall j, k | 0 <= j < k < |after| && after[j].Some? && after[k].Some?
      ensures Source(before, i, j) < Source(before, i, k)
    {
      if k == j + 1 {
        SourceOf(before, after, i, removed, j);
      }
    }
  }

  lemma SourceOf(before: Slots, after: Slots, i: nat, removed: bool, j: nat)
    requires ShiftedTo(before, after, i, removed) && j < |after| && after[j].Some?
    ensures after[j] == before[Source(before, i, j)]
    ensures j < |after| - 1 ==> j < i || Source(before, i, j) == j - 1
  {
    if j > i {
      assert after[j] == Moved(before, j, removed);
    }
  }

  lemma CommitKeepsOrder(before: Slots, after: Slots, removed: bool, s: Segment)
    requires Ordered(before) && NoNewer(before, s) && ShiftedTo(before, after, 0, removed)
    ensures var done := after[0 := Some(Whole(s))];
            Ordered(done) && NoNewer(done, s) && Retained(before, done) && IsRotated(before, done, s, removed)
  {
    ShiftKeepsOrder(before, after, 0, removed, s);
    var done := after[0 := Some(Whole(s))];
    forall j | 0 <= j < |before| - 1 && before[j].Some?
      ensures done[j + 1] == before[j]
    {
      assert after[j + 1] == Moved(before, j + 1, removed);
    }
  }

  // ---- how much is lost ------------------------------------------------------

  /** The segments there are, in the order of the generation numbers (so the oldest is last). */
  function Listing(g: Slots): seq<Segment> {
    if g == [] then []
    else Listing(g[..|g| - 1]) + One(g[|g| - 1])
  }

  function One(x: Option<Gzip>): seq<Segment> {
    if x.Some? && x.value.Whole? then [x.value.of] else []
  }

  lemma {:induction false} ListingConcat(a: Slots, b: Slots)
    ensures Listing(a + b) == Listing(a) + Listing(b)
  {
    if b == [] {
      assert a + b == a;
    } else {
      var n := |b| - 1;
      assert (a + b)[..|a| + n] == a + b[..n];
      ListingConcat(a, b[..n]);
      Associate(Listing(a), Listing(b[..n]), One(b[n]));
    }
  }

  lemma Associate(a: seq<Segment>, b: seq<Segment>, c: seq<Segment>)
    ensures (a + b) + c == a + (b + c)
  {
  }

  lemma ListingOne(x: Option<Gzip>)
    ensures Listing([x]) == One(x)
  {
    assert [x][..0] == [];
    assert [] + One(x) == One(x);
  }

  /** Nothing but possibly the last, the oldest, is missing. */
  predicate Trimmed(before: seq<Segment>, after: seq<Segment>) {
    after <= before && |before| - |after| <= 1
  }

  lemma {:induction false} ListingSnoc(g: Slots, x: Option<Gzip>)
    ensures Listing(g + [x]) == Listing(g) + One(x)
  {
    assert (g + [x])[..|g|] == g;
  }

  ghost predicate AllWhole(g: Slots) {
    forall j :: 0 <= j < |g| && g[j].Some? ==> g[j].value.Whole?
  }

  /** A shift stopped anywhere loses at most the oldest generation there is. */
  lemma ShiftLosesOldest(before: Slots, after: Slots, i: nat, removed: bool)
    requires ShiftedTo(before, after, i, removed) && AllWhole(before)
    ensures Trimmed(Listing(before), Listing(after))
  {
    var n := |before| - 1;
    if i == n {
      LastSlot(before);
      LastSlot(after);
      assert after[..n] == before[..n];
    } else {
      ShiftedParts(before, after, i, removed);
      ListingOfParts(before[..i], before[i..n - 1], Moved(before, n, removed));
      assert before[..i] + before[i..n - 1] == before[..n - 1];
      LastTwoSlots(before);
      Drops(Listing(before[..n - 1]), before[n - 1], before[n], Moved(before, n, removed));
    }
  }

  lemma LastSlot(g: Slots)
    requires g != []
    ensures Listing(g) == Listing(g[..|g| - 1]) + One(g[|g| - 1])
  {
  }

  lemma LastTwoSlots(g: Slots)
    requires |g| >= 2
    ensures Listing(g) == (Listing(g[..|g| - 2]) + One(g[|g| - 2])) + One(g[|g| - 1])
  {
    var init := g[..|g| - 1];
    assert init[..|init| - 1] == g[..|g| - 2];
  }

  /** The last slot now holds what the one below it held, or else what it held itself or nothing. */
  lemma Drops(front: seq<Segment>, below: Option<Gzip>, last: Option<Gzip>, now: Option<Gzip>)
    requires (below.Some? ==> below.value.Whole? && now == below) && (below.None? ==> now == last || now == None)
    ensures Trimmed((front + One(below)) + One(last), front + One(now))
  {
    assert front + [] == front;
  }

  lemma ShiftedParts(before: Slots, after: Slots, i: nat, removed: bool)
    requires ShiftedTo(before, after, i, removed) && i < |before| - 1
    ensures var n := |before| - 1;
            after == (before[..i] + ([None] + before[i..n - 1])) + [Moved(before, n, removed)]
  {
    var n := |before| - 1;
    forall j | i < j < n ensures after[j] == before[j - 1] {
      assert after[j] == Moved(before, j, removed);
    }
  }

  lemma ListingOfParts(a: Slots, b: Slots, x: Option<Gzip>)
    ensures Listing((a + ([None] + b)) + [x]) == Listing(a + b) + One(x)
  {
    ListingSnoc(a + ([None] + b), x);
    ListingConcat(a, [None] + b);
    ListingConcat([None], b);
    ListingConcat(a, b);
    ListingOne(None);
    assert [] + Listing(b) == Listing(b);
  }

  /** After the commit the new segment is in front of what the shift left. */
  lemma CommitListing(after: Slots, s: Segment)
    requires after != [] && (after[0].None? || |after| == 1)
    ensures var done := after[0 := Some(Whole(s))];
            Listing(done) == [s] + (if |after| == 1 then [] else Listing(after))
  {
    var done, rest := after[0 := Some(Whole(s))], after[1..];
    assert done == [Some(Whole(s))] + rest && after == [after[0]] + rest;
    ListingConcat([Some(Whole(s))], rest);
    ListingConcat([after[0]], rest);
    ListingOne(Some(Whole(s)));
    if |after| == 1 {
      assert rest == [];
    } else {
      ListingOne(None);
      assert [] + Listing(rest) == Listing(rest);
    }
  }

  lemma SingleListing(g: Slots)
    ensures |g| == 1 ==> |Listing(g)| <= 1
  {
    if |g| == 1 {
      assert g == [g[0]];
      ListingOne(g[0]);
    }
  }

  /** What one attempt does to the list: at most the oldest is lost, and s may be put in front. */
  predicate Attempted(before: seq<Segment>, after: seq<Segment>, s: Segment) {
    Trimmed(before, after) || (after != [] && after[0] == s && Trimmed(before, after[1..]))
  }

  function Copies(s: Segment, k: nat): seq<Segment> {
    seq(k, i => s)
  }

  /** n attempts at s: copies of s in front of the old list, less at most n from the old end. */
  ghost predicate Survives(old_: seq<Segment>, now: seq<Segment>, s: Segment, n: nat) {
    exists k: nat :: k <= n && now <= Copies(s, k) + old_ && k + |old_| - |now| <= n
  }

  lemma SurvivesAttempt(old_: seq<Segment>, mid: seq<Segment>, now: seq<Segment>, s: Segment, n: nat)
    requires Survives(old_, mid, s, n) && Attempted(mid, now, s)
    ensures Survives(old_, now, s, n + 1)
  {
    var k: nat :| k <= n && mid <= Copies(s, k) + old_ && k + |old_| - |mid| <= n;
    if Trimmed(mid, now) {
      assert now <= Copies(s, k) + old_;
    } else {
      assert Copies(s, k + 1) == [s] + Copies(s, k);
      assert Copies(s, k + 1) + old_ == [s] + (Copies(s, k) + old_);
      assert now == [s] + now[1..];
      assert now <= Copies(s, k + 1) + old_;
    }
  }

  lemma SurvivesMore(old_: seq<Segment>, now: seq<Segment>, s: Segment, n: nat, m: nat)
    requires Survives(old_, now, s, n) && n <= m
    ensures Survives(old_, now, s, m)
  {
    var k: nat :| k <= n && now <= Copies(s, k) + old_ && k + |old_| - |now| <= n;
    assert k <= m && k + |old_| - |now| <= m;
  }

  // ---- which renames replace a file ----------------------------------------------

  /**
   The shift replaces a generation file: the oldest could not be removed though it is there, and
   the one below it is there and is renamed over it.
   */
  predicate Clobbers(gens: Slots, a: Step -> Answer) {
    && |gens| >= 2 && a(RemoveOldest).Fails?
    && gens[|gens| - 1].Some? && gens[|gens| - 2].Some? && a(Shift(|gens| - 2)).Succeeds?
  }

  predicate PartWritten(a: Step -> Answer) {
    a(OpenSource).Succeeds? && a(OpenPart).Succeeds? && a(CopyAll).Succeeds?
  }

  /** The shift gets through: the process survives it, and every generation that is there is renamed. */
  ghost predicate ShiftDone(gens: Slots, a: Step -> Answer) {
    !a(RemoveOldest).Dies? && ShiftsFrom(gens, a, 0)
  }

  ghost predicate ShiftsFrom(gens: Slots, a: Step -> Answer, i: nat) {
    forall j :: i <= j < |gens| - 1 ==> !a(Shift(j)).Dies? && (gens[j].Some? ==> a(Shift(j)).Succeeds?)
  }

  /** One round of the shift: slot i - 1 goes to slot i, if it holds anything. */
  lemma ShiftRound(before: Slots, gens: Slots, i: nat, removed: bool)
    requires ShiftedTo(before, gens, i, removed) && i > 0
    ensures gens[i - 1] == before[i - 1]
    ensures gens[i].Some? <==> i == |before| - 1 && !removed && before[i].Some?
    ensures ShiftedTo(before, if gens[i - 1].Some? then gens[i := gens[i - 1]][i - 1 := None] else gens, i - 1, removed)
  {
    var n := if gens[i - 1].Some? then gens[i := gens[i - 1]][i - 1 := None] else gens;
    forall j | 0 <= j < |before|
      ensures n[j] == if j < i - 1 then before[j] else if j > i - 1 then Moved(before, j, removed) else None
    {
    }
  }

  /** What an attempt needs to finish. */
  ghost predicate Finishes(rotating: Option<Segment>, gens: Slots, a: Step -> Answer) {
    rotating.Some? && PartWritten(a) && ShiftDone(gens, a) && a(CommitPart).Succeeds? && a(RemoveSource).Succeeds?
  }

  /** Every call of the attempt succeeds. */
  ghost predicate AllSucceed(a: Step -> Answer) {
    forall c :: a(c).Succeeds?
  }

  lemma SucceedingFinishes(rotating: Option<Segment>, gens: Slots, a: Step -> Answer)
    requires rotating.Some? && AllSucceed(a)
    ensures Finishes(rotating, gens, a)
  {
  }

  /** With a single generation it is the commit that replaces it. */
  predicate AttemptClobbers(rotating: Option<Segment>, gens: Slots, a: Step -> Answer) {
    && rotating.Some? && PartWritten(a)
    && if |gens| == 1 then a(RemoveOldest).Fails? && gens[0].Some? && a(CommitPart).Succeeds? else Clobbers(gens, a)
  }

  /** It does happen: a full pair of generations whose older one cannot be removed loses it to the rename. */
  lemma ClobberHappens(a: Step -> Answer, after: Slots)
    requires a(RemoveOldest).Fails? && a(Shift(0)).Succeeds?
    ensures Clobbers([Some(Whole(2)), Some(Whole(1))], a)
    ensures ShiftedTo([Some(Whole(2)), Some(Whole(1))], after, 0, false) ==> after == [None, Some(Whole(2))]
  {
    var before: Slots := [Some(Whole(2)), Some(Whole(1))];
    if ShiftedTo(before, after, 0, false) {
      assert after[0] == None && after[1] == Moved(before, 1, false) == Some(Whole(2));
    }
  }

  class Archive {
    const keep: nat
    var rotating: Option<Segment>    // pdx.log.rotating
    var part: Option<Gzip>           // pdx.log.1.gz.part
    var gens: Slots

    ghost predicate Valid()
      reads this
    {
      && keep >= 1 && |gens| == keep && Ordered(gens)
      && (rotating.Some? ==> NoNewer(gens, rotating.value))
    }

    constructor (keep: nat)
      requires keep >= 1
      ensures Valid() && this.keep == keep && rotating == None && forall i :: 0 <= i < |gens| ==> gens[i] == None
    {
      this.keep, rotating, part := keep, None, None;
      gens := seq(keep, i => None);
    }

    /** Open the rotated log and compress it into the part file. */
    method WritePart(a: Step -> Answer) returns (end: End)
      requires Valid()
      modifies this`part
      ensures end.Finished? <==> rotating.Some? && PartWritten(a)
      ensures end.Finished? ==> part == Some(Whole(rotating.value))
    {
      if a(OpenSource).Dies? { return Died; }
      if rotating.None? || a(OpenSource).Fails? { return Failed; }
      if a(OpenPart).Dies? { return Died; }
      if a(OpenPart).Fails? { return Failed; }
      part := Some(Partial);
      if a(CopyAll).Dies? { return Died; }
      if a(CopyAll).Fails? {
        part := None;
        return Failed;
      }
      part := Some(Whole(rotating.value));
      return Finished;
    }

    /**
     Drop the oldest (a failure to is ignored), then rename each generation one up, the
     highest first. clobbered collects the slots a rename replaced a file in: at most the oldest,
     and that exactly when it is there and could not be removed and the one below is renamed over it.
     */
    method ShiftUp(a: Step -> Answer) returns (end: End, ghost at: nat, ghost clobbered: set<nat>)
      requires keep >= 1 && |gens| == keep
      modifies this`part, this`gens
      ensures a(RemoveOldest).Dies? ==> end.Died? && gens == old(gens)
      ensures !a(RemoveOldest).Dies? ==> ShiftedTo(old(gens), gens, at, a(RemoveOldest).Succeeds?)
      ensures end.Finished? ==> at == 0 && !a(RemoveOldest).Dies? && part == old(part)
      ensures end.Finished? <==> ShiftDone(old(gens), a)
      ensures clobbered <= {keep - 1} && (clobbered != {} <==> Clobbers(old(gens), a)) && |gens| == keep
    {
      at, clobbered := keep - 1, {};
      if a(RemoveOldest).Dies? { return Died, at, clobbered; }
      if a(RemoveOldest).Succeeds? {
        gens := gens[keep - 1 := None];
      }
      var i := keep - 1;
      while i > 0
        invariant 0 <= i < keep && at == i && |gens| == keep && part == old(part)
        invariant ShiftedTo(old(gens), gens, i, a(RemoveOldest).Succeeds?)
        invariant ShiftsFrom(old(gens), a, i)
        invariant clobbered <= {keep - 1} && (clobbered != {} <==> i < keep - 1 && Clobbers(old(gens), a))
      {
        ShiftRound(old(gens), gens, i, a(RemoveOldest).Succeeds?);
        if a(Shift(i - 1)).Dies? { return Died, at, clobbered; }
        if gens[i - 1].Some? {
          if a(Shift(i - 1)).Fails? {
            part := None;
            return Failed, at, clobbered;
          }
          if gens[i].Some? { clobbered := clobbered + {i}; }
          gens := gens[i := gens[i - 1]][i - 1 := None];
        }
        i := i - 1;
        at := i;
      }
      return Finished, at, clobbered;
    }

    /**
     One attempt. Wherever it stops: every generation file is still a complete compression
     in order, at most keep of them, only the oldest can be gone, and the rotated segment is
     whole in .rotating or as generation 1. Finishing means exactly the rotation.
     */
    method Compress(a: Step -> Answer) returns (end: End, ghost clobbered: set<nat>)
      requires Valid()
      modifies this`rotating, this`part, this`gens
      ensures Valid() && Retained(old(gens), gens)
      ensures rotating == old(rotating) || rotating == None
      ensures rotating == old(rotating) || gens[0] == Some(Whole(old(rotating).value))
      ensures end.Finished? <==> Finishes(old(rotating), old(gens), a)
      ensures end.Finished? <==> old(rotating).Some? && rotating == None
      ensures end.Finished? ==> IsRotated(old(gens), gens, old(rotating).value, a(RemoveOldest).Succeeds?)
      ensures clobbered <= {keep - 1} && (clobbered != {} <==> AttemptClobbers(old(rotating), old(gens), a))
      ensures old(rotating).None? ==> gens == old(gens)
      ensures old(rotating).Some? ==> Attempted(Listing(old(gens)), Listing(gens), old(rotating).value)
    {
      clobbered := {};
      end := WritePart(a);
      if !end.Finished? { return; }
      ghost var at;
      end, at, clobbered := ShiftUp(a);
      if !end.Finished? {
        if !a(RemoveOldest).Dies? {
          ShiftKeepsOrder(old(gens), gens, at, a(RemoveOldest).Succeeds?, rotating.value);
          ShiftLosesOldest(old(gens), gens, at, a(RemoveOldest).Succeeds?);
        }
        return;
      }
      ghost var replaced;
      end, replaced := Commit(a, old(gens));
      clobbered := clobbered + replaced;
    }

    /**
     The end of an attempt, once the generations of before were shifted: rename the part file, then
     remove the source.
     */
    method Commit(a: Step -> Answer, ghost before: Slots) returns (end: End, ghost replaced: set<nat>)
      requires keep >= 1 && |gens| == keep && rotating.Some? && part == Some(Whole(rotating.value))
      requires Ordered(before) && NoNewer(before, rotating.value)
      requires ShiftedTo(before, gens, 0, a(RemoveOldest).Succeeds?)
      modifies this`rotating, this`part, this`gens
      ensures Valid() && Retained(before, gens)
      ensures end.Finished? <==> a(CommitPart).Succeeds? && a(RemoveSource).Succeeds?
      ensures rotating == if end.Finished? then None else old(rotating)
      ensures end.Finished? ==> gens[0] == Some(Whole(old(rotating).value))
      ensures end.Finished? ==> IsRotated(before, gens, old(rotating).value, a(RemoveOldest).Succeeds?)
      ensures replaced == if a(CommitPart).Succeeds? && old(gens)[0].Some? then {0} else {}
      ensures Attempted(Listing(before), Listing(gens), old(rotating).value)
    {
      replaced := {};
      ShiftKeepsOrder(before, gens, 0, a(RemoveOldest).Succeeds?, rotating.value);
      ShiftLosesOldest(before, gens, 0, a(RemoveOldest).Succeeds?);
      if a(CommitPart).Dies? { return Died, replaced; }
      if a(CommitPart).Fails? { return Failed, replaced; }
      CommitKeepsOrder(before, gens, a(RemoveOldest).Succeeds?, rotating.value);
      CommitListing(gens, rotating.value);
      SingleListing(before);
      if gens[0].Some? { replaced := {0}; }
      gens, part := gens[0 := part], None;
      if a(RemoveSource).Dies? { return Died, replaced; }
      if a(RemoveSource).Fails? { return Failed, replaced; }
      rotating := None;
      return Finished, replaced;
    }

    /**
     Any number of attempts, each left wherever its answers leave it: the segment is never lost, and n
     attempts lose at most n generations, the oldest ones.
     */
    method Retry(attempts: seq<Step -> Answer>) returns (done: bool, ghost met: seq<Slots>)
      requires Valid() && rotating.Some?
      modifies this`rotating, this`part, this`gens
      ensures Valid()
      ensures done <==> rotating == None
      ensures rotating == old(rotating) || (rotating == None && gens[0] == Some(Whole(old(rotating).value)))
      ensures Survives(Listing(old(gens)), Listing(gens), old(rotating).value, |attempts|)
      ensures |met| <= |attempts| && (met != [] ==> met[0] == old(gens))
      ensures done <==> exists i :: 0 <= i < |met| && Finishes(old(rotating), met[i], attempts[i])
      ensures !done ==> |met| == |attempts|
      ensures (exists i :: 0 <= i < |attempts| && AllSucceed(attempts[i])) ==> done
    {
      done, met := false, [];
      ghost var s := rotating.value;
      assert Copies(s, 0) + Listing(gens) == Listing(gens);
      assert Survives(Listing(gens), Listing(gens), s, 0);
      for i := 0 to |attempts|
        invariant Valid() && !done && rotating == old(rotating)
        invariant Survives(Listing(old(gens)), Listing(gens), s, i)
        invariant |met| == i && (i == 0 ==> gens == old(gens)) && (i > 0 ==> met[0] == old(gens))
        invariant forall j :: 0 <= j < i ==> !Finishes(old(rotating), met[j], attempts[j])
        invariant forall j :: 0 <= j < i ==> !AllSucceed(attempts[j])
      {
        met := met + [gens];
        ghost var clobbered, mid := {}, Listing(gens);
        var end;
        end, clobbered := Compress(attempts[i]);
        SurvivesAttempt(Listing(old(gens)), mid, Listing(gens), s, i);
        if end.Finished? {
          SurvivesMore(Listing(old(gens)), Listing(gens), s, i + 1, |attempts|);
          assert Finishes(old(rotating), met[i], attempts[i]);
          return true, met;
        }
        if AllSucceed(attempts[i]) {
          SucceedingFinishes(old(rotating), met[i], attempts[i]);
        }
      }
    }

    /** A rotation hands over the next segment; it is newer than every one before. */
    method Arrive(s: Segment)
      requires Valid() && rotating.None? && NoNewer(gens, s)
      modifies this`rotating
      ensures Valid() && rotating == Some(s)
    {
      rotating := Some(s);
    }
  }
}

/**
 The goroutines around a compression: the rotations (ticker and first check), the
 start-up retry, the stop function and the compression itself, over r.mu, the
 `stopped` flag and the `compressing` flag.
 */
module RotatorThreads {
  import opened Outcomes

  /** Who holds r.mu; tested: the rotation has read stopped == false under it. */
  datatype Holder = Rotation(tested: bool) | Starter | Stopper

  datatype State = State(
    starting: bool,          // start() has not returned its stop function yet
    mu: Option<Holder>,
    stopped: bool,
    compressing: bool,
    inFlight: nat,           // compression goroutines
    late: bool)              // a compression was started after stopped was set

  const INIT := State(true, None, false, false, 0, false)

  datatype Event =
    | StarterLocks | StarterUnlocks | StartReturns
    | RotationLocks | RotationTests | RotationUnlocks
    | Compresses             // compressAsync, from the rotation or the starter
    | StopLocks | StopSets
    | CompressionEnds

  function Apply(s: State, e: Event): Option<State> {
    match e
    case StarterLocks => if s.starting && s.mu.None? then Some(s.(mu := Some(Starter))) else None
    case StarterUnlocks => if s.mu == Some(Starter) then Some(s.(mu := None)) else None
    case StartReturns => if s.starting && s.mu != Some(Starter) then Some(s.(starting := false)) else None
    case RotationLocks => if s.mu.None? then Some(s.(mu := Some(Rotation(false)))) else None
    case RotationTests =>
      if s.mu == Some(Rotation(false))
      then Some(s.(mu := if s.stopped then None else Some(Rotation(true))))
      else None
    case RotationUnlocks => if s.mu == Some(Rotation(true)) then Some(s.(mu := None)) else None
    case Compresses =>
      if s.mu != Some(Rotation(true)) && s.mu != Some(Starter) then None
      else if s.compressing then Some(s)
      else Some(s.(compressing := true, inFlight := s.inFlight + 1, late := s.late || s.stopped))
    case StopLocks => if !s.starting && s.mu.None? then Some(s.(mu := Some(Stopper))) else None
    case StopSets => if s.mu == Some(Stopper) then Some(s.(mu := None, stopped := true)) else None
    case CompressionEnds =>
      if s.inFlight > 0 then Some(s.(compressing := false, inFlight := s.inFlight - 1)) else None
  }

  function Run(es: seq<Event>): Option<State> {
    if es == [] then Some(INIT)
    else
      match Run(es[..|es| - 1])
      case None => None
      case Some(s) => Apply(s, es[|es| - 1])
  }

  predicate Inv(s: State) {
    && !s.late
    && s.inFlight == (if s.compressing then 1 else 0)
    && (s.mu == Some(Rotation(true)) || s.starting ==> !s.stopped)
    && (s.mu == Some(Starter) ==> s.starting)
    && (s.mu == Some(Stopper) ==> !s.starting)
  }

  /** In every interleaving: one compression at a time, and none starts once stop has set its flag. */
  lemma {:induction false} NoCompressionAfterStop(es: seq<Event>)
    ensures Run(es).Some? ==> Inv(Run(es).value) && !Run(es).value.late && Run(es).value.inFlight <= 1
  {
    if es != [] && Run(es).Some? {
      NoCompressionAfterStop(es[..|es| - 1]);
    }
  }

  /**
   A rotation that found the rotator running, and the starter, do start one when none is in flight;
   each ends some time.
   */
  lemma CompressionStarts(es: seq<Event>)
    requires Run(es).Some?
    ensures var s := Run(es).value;
      && (s.mu == Some(Rotation(true)) || s.mu == Some(Starter) ==>
            Apply(s, Compresses).Some? && Apply(s, Compresses).value.inFlight == 1)
      && (s.inFlight > 0 ==> Apply(s, CompressionEnds).Some? && Apply(s, CompressionEnds).value.inFlight == 0)
      && (s.mu.None? ==> Apply(s, RotationLocks).Some?)
      && (s.mu == Some(Rotation(false)) && !s.stopped ==> Apply(s, RotationTests).value.mu == Some(Rotation(true)))
      && (s.mu.None? && !s.starting ==> Apply(s, StopLocks).Some?)
      && (s.mu == Some(Stopper) ==> Apply(s, StopSets).Some? && Apply(s, StopSets).value.stopped)
  {
    NoCompressionAfterStop(es);
  }
}
