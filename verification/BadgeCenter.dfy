/**
 The owner of the badge number and the per-window document ids (electron/badge.ts): the number
 shown follows the reports, and a report of a document that is over is refused.
 */
module BadgeCenter {
  import opened Outcomes
  import opened BadgeUnion

  /** One entry of the Map from window id to its last report; the Map keeps insertion order. */
  datatype Row = Row(window: int, report: Report)

  ghost predicate DistinctWindows(rows: seq<Row>) {
    forall i, j :: 0 <= i < j < |rows| ==> rows[i].window != rows[j].window
  }

  function Position(rows: seq<Row>, w: int): (i: nat)
    ensures i <= |rows| && (i < |rows| ==> rows[i].window == w)
    ensures forall j :: 0 <= j < i ==> rows[j].window != w
  {
    if rows == [] || rows[0].window == w then 0 else 1 + Position(rows[1..], w)
  }

  /** Map.set: an existing key keeps its place, a new one goes last. */
  function Put(rows: seq<Row>, w: int, r: Report): seq<Row> {
    var i := Position(rows, w);
    if i < |rows| then rows[i := Row(w, r)] else rows + [Row(w, r)]
  }

  /** Map.delete. */
  function Without(rows: seq<Row>, w: int): seq<Row> {
    var i := Position(rows, w);
    if i < |rows| then rows[..i] + rows[i + 1..] else rows
  }

  ghost predicate Holds(rows: seq<Row>, w: int, r: Report) {
    Row(w, r) in rows
  }

  /** Afterwards w holds exactly r, and every other window what it held. */
  lemma PutIsExact(rows: seq<Row>, w: int, r: Report, x: int, q: Report)
    requires DistinctWindows(rows)
    ensures DistinctWindows(Put(rows, w, r))
    ensures Holds(Put(rows, w, r), x, q) <==> if x == w then q == r else Holds(rows, x, q)
  {
    var i, put := Position(rows, w), Put(rows, w, r);
    forall j | 0 <= j < |put| ensures put[j] == Row(w, r) || (put[j] in rows && put[j].window != w) {
      if j != i { assert put[j] == rows[j]; }
    }
    assert put[i] == Row(w, r);
    if x != w && Row(x, q) in rows {
      var j :| 0 <= j < |rows| && rows[j] == Row(x, q);
      assert put[j] == rows[j];
    }
  }

  lemma WithoutIsExact(rows: seq<Row>, w: int, x: int, q: Report)
    requires DistinctWindows(rows)
    ensures DistinctWindows(Without(rows, w))
    ensures Holds(Without(rows, w), x, q) <==> x != w && Holds(rows, x, q)
  {
    var i, left := Position(rows, w), Without(rows, w);
    forall j | 0 <= j < |left| ensures left[j] in rows && left[j].window != w {
      assert left[j] == if j < i then rows[j] else rows[j + 1];
    }
    if x != w && Row(x, q) in rows {
      var j :| 0 <= j < |rows| && rows[j] == Row(x, q);
      assert left[if j < i then j else j - 1] == rows[j];
    }
  }

  function Reports(rows: seq<Row>): seq<Report> {
    seq(|rows|, i requires 0 <= i < |rows| => rows[i].report)
  }

  ghost function Number(rows: seq<Row>): nat {
    |Counted(AllSessions(Reports(rows)), AllCards(Reports(rows)))|
  }

  ghost predicate NeverTwiceInARow(shown: seq<nat>) {
    forall i :: 0 <= i < |shown| - 1 ==> shown[i] != shown[i + 1]
  }

  class Center {
    var rows: seq<Row>
    var applied: Option<nat>
    var shown: seq<nat>       // every number given to `apply`, in order

    /** The number on the Dock is the number of the reports; only before the first one may nothing be applied. */
    ghost predicate Valid()
      reads this
    {
      && DistinctWindows(rows)
      && NeverTwiceInARow(shown)
      && applied == (if shown == [] then None else Some(shown[|shown| - 1]))
      && (applied.Some? ==> applied.value == Number(rows))
      && (applied.None? ==> rows == [])
    }

    constructor ()
      ensures Valid() && rows == [] && shown == []
    {
      rows, applied, shown := [], None, [];
    }

    method Recompute()
      requires DistinctWindows(rows) && NeverTwiceInARow(shown)
      requires applied == (if shown == [] then None else Some(shown[|shown| - 1]))
      modifies this
      ensures Valid() && rows == old(rows) && applied == Some(Number(rows))
      ensures shown == if old(applied) == Some(Number(rows)) then old(shown) else old(shown) + [Number(rows)]
    {
      var n := BadgeCount(Reports(rows));
      if applied == Some(n) { return; }
      applied := Some(n);
      shown := shown + [n];
    }

    method Set(window: int, report: Report)
      requires Valid()
      modifies this
      ensures Valid() && applied == Some(Number(rows))
      ensures rows == Put(old(rows), window, report)
      ensures shown == if old(applied) == applied then old(shown) else old(shown) + [Number(rows)]
    {
      PutIsExact(rows, window, report, window, report);
      rows := Put(rows, window, report);
      Recompute();
    }

    method Drop(window: int)
      requires Valid()
      modifies this
      ensures Valid() && rows == Without(old(rows), window)
      ensures shown == if old(applied) == applied then old(shown) else old(shown) + [Number(rows)]
    {
      if Position(rows, window) < |rows| {
        WithoutIsExact(rows, window, window, rows[0].report);
        rows := Without(rows, window);
        Recompute();
      }
    }

    /** Start-up: applied is set even when there is nothing to report. */
    method Clear()
      requires Valid()
      modifies this
      ensures Valid() && rows == old(rows) && applied == Some(Number(rows))
      ensures shown == if old(applied) == applied then old(shown) else old(shown) + [Number(rows)]
    {
      Recompute();
    }
  }

  // ---- documents of one window ----------------------------------------------------

  const MAX_STALE_DOCS := 8

  /** current: the document of the last accepted report. stale: documents that are over, oldest first. */
  datatype Docs = Docs(current: Option<string>, stale: seq<string>)

  function LastEight(ended: seq<string>): seq<string> {
    if |ended| > MAX_STALE_DOCS then ended[|ended| - MAX_STALE_DOCS..] else ended
  }

  function Over(d: Docs): Docs {
    if d.current.None? then d else Docs(None, LastEight(d.stale + [d.current.value]))
  }

  predicate Refused(d: Docs, doc: Option<string>) {
    doc.Some? && doc.value in d.stale
  }

  function Submitted(d: Docs, doc: Option<string>): Docs {
    if doc.None? || Refused(d, doc) then d else d.(current := doc)
  }

  /** The part of main that knows one window. */
  class Window {
    const id: int
    const center: Center
    var current: Option<string>
    var stale: seq<string>

    function Known(): Docs
      reads this
    {
      Docs(current, stale)
    }

    constructor (id: int, center: Center)
      ensures this.id == id && this.center == center && Known() == Docs(None, [])
    {
      this.id, this.center, current, stale := id, center, None, [];
    }

    /** render-process-gone, or a navigation of the main frame to another document. */
    method DocumentOver()
      requires center.Valid() && |stale| <= MAX_STALE_DOCS
      modifies this, center
      ensures center.Valid() && Known() == Over(old(Known()))
      ensures center.rows == Without(old(center.rows), id)
    {
      if current.Some? {
        stale := stale + [current.value];
        if |stale| > MAX_STALE_DOCS { stale := stale[1..]; }
        current := None;
      }
      center.Drop(id);
    }

    /** submitBadgeReport: report is None when the message was malformed. */
    method Submit(report: Option<Report>, doc: Option<string>) returns (taken: bool)
      requires center.Valid()
      modifies this, center
      ensures center.Valid()
      ensures taken <==> report.Some? && !Refused(old(Known()), doc)
      ensures taken ==> Known() == Submitted(old(Known()), doc)
      ensures taken ==> center.rows == Put(old(center.rows), id, report.value)
      ensures !taken ==> Known() == old(Known()) && center.rows == old(center.rows)
      ensures !taken ==> center.applied == old(center.applied) && center.shown == old(center.shown)
    {
      if report.None? { return false; }
      if doc.Some? {
        if doc.value in stale { return false; }
        current := doc;
      }
      center.Set(id, report.value);
      return true;
    }
  }

  // ---- every sequence of reports and document ends -----------------------------------

  datatype DocEvent = Report(doc: Option<string>) | End

  function Step(d: Docs, e: DocEvent): Docs {
    match e
    case Report(doc) => Submitted(d, doc)
    case End => Over(d)
  }

  function Play(d: Docs, es: seq<DocEvent>): Docs
    decreases |es|
  {
    if es == [] then d else Play(Step(d, es[0]), es[1..])
  }

  /** The documents recorded as ended, in order. */
  function Ended(d: Docs, es: seq<DocEvent>): seq<string>
    decreases |es|
  {
    if es == [] then []
    else (if es[0].End? && d.current.Some? then [d.current.value] else []) + Ended(Step(d, es[0]), es[1..])
  }

  ghost predicate DocsInv(d: Docs) {
    && |d.stale| <= MAX_STALE_DOCS
    && (forall i, j :: 0 <= i < j < |d.stale| ==> d.stale[i] != d.stale[j])
    && (d.current.Some? ==> d.current.value !in d.stale)
  }

  lemma StepKeepsDocsInv(d: Docs, e: DocEvent)
    requires DocsInv(d)
    ensures DocsInv(Step(d, e))
  {
  }

  /** No duplicates, at most eight, and never the current document. */
  lemma {:induction false} PlayKeepsDocsInv(d: Docs, es: seq<DocEvent>)
    requires DocsInv(d)
    ensures DocsInv(Play(d, es))
    decreases |es|
  {
    if es != [] {
      StepKeepsDocsInv(d, es[0]);
      PlayKeepsDocsInv(Step(d, es[0]), es[1..]);
    }
  }

  lemma LastEightAbsorbs(a: seq<string>, b: seq<string>)
    ensures LastEight(LastEight(a) + b) == LastEight(a + b)
  {
    if |a| > MAX_STALE_DOCS {
      var cut := |a| - MAX_STALE_DOCS;
      assert a == a[..cut] + a[cut..];
      LastEightSkips(a[..cut], a[cut..], b);
    }
  }

  lemma LastEightSkips(front: seq<string>, eight: seq<string>, b: seq<string>)
    requires |eight| == MAX_STALE_DOCS
    ensures LastEight(eight + b) == LastEight((front + eight) + b)
  {
    var whole, part := (front + eight) + b, eight + b;
    assert whole[|front|..] == part;
    assert whole[|whole| - MAX_STALE_DOCS..] == part[|part| - MAX_STALE_DOCS..];
    if b == [] { assert part == eight; }
  }

  lemma ConcatAssociative(a: seq<string>, x: string, b: seq<string>)
    ensures a + [x] + b == a + ([x] + b)
  {
  }

  /** After any sequence, the refused documents are exactly the last eight that ended. */
  lemma {:induction false} StaleIsLastEight(d: Docs, es: seq<DocEvent>)
    requires |d.stale| <= MAX_STALE_DOCS
    ensures Play(d, es).stale == LastEight(d.stale + Ended(d, es))
    decreases |es|
  {
    if es == [] {
      assert d.stale + [] == d.stale;
    } else {
      var next, rest := Step(d, es[0]), Ended(Step(d, es[0]), es[1..]);
      StaleIsLastEight(next, es[1..]);
      if es[0].End? && d.current.Some? {
        LastEightAbsorbs(d.stale + [d.current.value], rest);
        ConcatAssociative(d.stale, d.current.value, rest);
      } else {
        assert d.stale + ([] + rest) == d.stale + rest;
      }
    }
  }

  /** A document that ended while current is refused until eight more have ended, and no longer. */
  lemma RefusedAfterEnd(d: Docs, es: seq<DocEvent>)
    requires |d.stale| <= MAX_STALE_DOCS && d.current.Some?
    ensures |Ended(Over(d), es)| <= 7 ==> Refused(Play(Over(d), es), d.current)
    ensures |Ended(Over(d), es)| >= 8 && d.current.value !in Ended(Over(d), es) ==>
      !Refused(Play(Over(d), es), d.current)
  {
    var doc, ended := d.current.value, Ended(Over(d), es);
    StaleIsLastEight(Over(d), es);
    LastEightAbsorbs(d.stale + [doc], ended);
    var all := d.stale + [doc] + ended;
    assert all[|d.stale|] == doc;
    if |ended| <= 7 {
      var k := if |all| > 8 then |all| - 8 else 0;
      assert LastEight(all)[|d.stale| - k] == doc;
    } else {
      assert LastEight(all) == ended[|ended| - 8..];
      forall x | x in ended[|ended| - 8..] ensures x in ended {}
    }
  }
}
