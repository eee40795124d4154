/**
 What `pdx watch wake-settings set` stores (cmd/pdx/watch_wake_path.go): the meaning of a raw text
 for a leaf of each kind, said without the functions that compute it, and the method that sets it.
 */
module WakeDocument {
  import opened Outcomes
  import opened Text
  import opened WakePath

  // ---- trimming --------------------------------------------------------------

  predicate AllSpace(s: string) {
    forall i :: 0 <= i < |s| ==> IsSpace(s[i])
  }

  /** t is s without the white space around it. */
  ghost predicate IsTrimOf(s: string, t: string) {
    Tight(t) && exists a, b :: AllSpace(a) && AllSpace(b) && s == a + (t + b)
  }

  lemma {:induction false} LeftTrimmed(s: string) returns (a: string)
    ensures AllSpace(a) && s == a + TrimLeft(s) && (TrimLeft(s) != "" ==> !IsSpace(TrimLeft(s)[0]))
  {
    if s != [] && IsSpace(s[0]) {
      var rest := LeftTrimmed(s[1..]);
      a := [s[0]] + rest;
      assert s == [s[0]] + s[1..];
    } else {
      a := "";
    }
  }

  lemma {:induction false} RightTrimmed(s: string) returns (b: string)
    ensures AllSpace(b) && s == TrimRight(s) + b
    ensures TrimRight(s) != "" ==> !IsSpace(TrimRight(s)[|TrimRight(s)| - 1])
  {
    if s != [] && IsSpace(s[|s| - 1]) {
      var n := |s| - 1;
      var rest := RightTrimmed(s[..n]);
      b := rest + [s[n]];
      Rejoin(s, TrimRight(s[..n]), rest);
    } else {
      b := "";
    }
  }

  lemma Rejoin(s: string, t: string, rest: string)
    requires s != "" && s[..|s| - 1] == t + rest
    ensures s == t + (rest + [s[|s| - 1]])
  {
    assert s == s[..|s| - 1] + [s[|s| - 1]];
  }

  lemma StartOfJoined(t: string, b: string)
    requires t != ""
    ensures (t + b)[0] == t[0]
  {
  }

  /** TrimSpace takes away exactly the white space around, for any text. */
  lemma TrimSpaceIsTrim(s: string)
    ensures IsTrimOf(s, TrimSpace(s))
  {
    var a := LeftTrimmed(s);
    var b := RightTrimmed(TrimLeft(s));
    if TrimSpace(s) != "" { StartOfJoined(TrimSpace(s), b); }
    assert s == a + (TrimSpace(s) + b);
  }

  /** There is only one such text. */
  lemma TrimIsUnique(s: string, t: string, u: string)
    requires IsTrimOf(s, t) && IsTrimOf(s, u)
    ensures t == u
  {
    var a, b :| AllSpace(a) && AllSpace(b) && s == a + (t + b);
    var c, d :| AllSpace(c) && AllSpace(d) && s == c + (u + d);
    if t == "" {
      EmptyMiddle(a, b);
      AllSpaceInside(s, a + b, c, u, d);
    } else if u == "" {
      EmptyMiddle(c, d);
      AllSpaceInside(s, c + d, a, t, b);
    } else {
      SameStart(s, a, t, b, c, u, d);
      SameEnd(s, a, t, b, c, u, d);
      MiddleOf(a, t, b);
      MiddleOf(c, u, d);
    }
  }

  lemma EmptyMiddle(a: string, b: string)
    ensures a + ("" + b) == a + b
  {
  }

  lemma MiddleOf(a: string, t: string, b: string)
    ensures (a + (t + b))[|a|..|a| + |t|] == t
  {
  }

  lemma AllSpaceInside(s: string, spaces: string, c: string, u: string, d: string)
    requires AllSpace(spaces) && s == spaces && s == c + (u + d) && Tight(u)
    ensures u == ""
  {
    Inside(c, u, d);
  }

  /** The characters of three texts one after the other. */
  lemma Inside(a: string, t: string, b: string)
    ensures var s := a + (t + b);
      && |s| == |a| + |t| + |b|
      && (forall i :: 0 <= i < |a| ==> s[i] == a[i])
      && (t != "" ==> s[|a|] == t[0] && s[|a| + |t| - 1] == t[|t| - 1])
      && (forall i :: |a| + |t| <= i < |s| ==> s[i] == b[i - |a| - |t|])
  {
  }

  lemma SameStart(s: string, a: string, t: string, b: string, c: string, u: string, d: string)
    requires AllSpace(a) && AllSpace(c) && s == a + (t + b) && s == c + (u + d)
    requires t != "" && u != "" && !IsSpace(t[0]) && !IsSpace(u[0])
    ensures |a| == |c|
  {
    Inside(a, t, b);
    Inside(c, u, d);
  }

  lemma SameEnd(s: string, a: string, t: string, b: string, c: string, u: string, d: string)
    requires AllSpace(b) && AllSpace(d) && s == a + (t + b) && s == c + (u + d)
    requires t != "" && u != "" && !IsSpace(t[|t| - 1]) && !IsSpace(u[|u| - 1])
    ensures |b| == |d|
  {
    Inside(a, t, b);
    Inside(c, u, d);
  }

  // ---- whole numbers ------------------------------------------------------------

  function IntValue(t: string): int
    requires AllDigits(Unsigned(t))
  {
    NatValueIff(Unsigned(t));
    var n: int := NatValue(Unsigned(t)).value;
    if t[0] == '-' then -n else n
  }

  /** A whole number in range: digits, perhaps signed. */
  predicate IsWhole(t: string) {
    AllDigits(Unsigned(t)) && MIN_INT64 <= IntValue(t) <= MAX_INT64
  }

  /** No plus, no leading zeros, no negative zero. */
  predicate IsPlain(t: string) {
    IsCanonical(t) || (t != "" && t[0] == '-' && t != "-0" && IsCanonical(t[1..]))
  }

  lemma AtoiIff(t: string)
    ensures Atoi(t).Some? <==> IsWhole(t)
    ensures IsWhole(t) ==> Atoi(t).value == IntValue(t)
  {
    NatValueIff(Unsigned(t));
  }

  lemma {:induction false} ItoaIsPlain(n: int)
    ensures IsPlain(Itoa(n)) && AllDigits(Unsigned(Itoa(n))) && IntValue(Itoa(n)) == n
  {
    var m := if n < 0 then -n else n;
    var d := NatText(m);
    NatRoundTrip(m);
    NoLeadingZero(m);
    NatValueIff(d);
    assert IsCanonical(d) by {
      if m == 0 { assert d == "0"; }
    }
    if n < 0 {
      assert Itoa(n)[1..] == d && Itoa(n)[0] == '-';
      assert d != "0" by { assert d[0] != '0'; }
    } else {
      assert IsDigit(d[0]);
    }
  }

  /** Two plain texts of one number are the same text. */
  lemma PlainIsUnique(t: string, u: string)
    requires IsPlain(t) && IsPlain(u) && AllDigits(Unsigned(t)) && AllDigits(Unsigned(u)) && IntValue(t) == IntValue(u)
    ensures t == u
  {
    PlainIsItoa(t);
    PlainIsItoa(u);
  }

  lemma ZeroText()
    ensures NatText(0) == "0"
  {
  }

  lemma PlainIsItoa(t: string)
    requires IsPlain(t) && AllDigits(Unsigned(t))
    ensures t == Itoa(IntValue(t))
  {
    var d := Unsigned(t);
    NatValueIff(d);
    NatTextIff(d);
    if t[0] == '-' {
      assert t == "-" + d;
      ZeroText();
    } else {
      assert IsDigit(t[0]);
    }
  }

  // ---- what a raw text means for a leaf ---------------------------------------------

  /** parts are the comma parts of raw. */
  predicate CommaParts(raw: string, parts: seq<string>) {
    parts != [] && Join(parts, ',') == raw && forall i :: 0 <= i < |parts| ==> ',' !in parts[i]
  }

  /** items are these texts, trimmed, as strings. */
  ghost predicate TrimmedInto(parts: seq<string>, items: seq<Json>) {
    |parts| == |items| && forall i :: 0 <= i < |parts| ==> items[i].Str? && IsTrimOf(parts[i], items[i].s)
  }

  ghost predicate IsList(raw: string, items: seq<Json>) {
    if raw == "" then items == []
    else exists parts :: CommaParts(raw, parts) && TrimmedInto(parts, items)
  }

  /** w is what raw means for a leaf that holds old_; element: the path ends in an index. */
  ghost predicate Means(element: bool, old_: Json, raw: string, files: string -> Option<string>, w: Json) {
    match old_
    case Bool(_) =>
      || (w == Bool(true) && (raw == "true" || raw == "on" || raw == "yes"))
      || (w == Bool(false) && (raw == "false" || raw == "off" || raw == "no"))
    case Num(_) =>
      w.Num? && IsPlain(w.text) && AllDigits(Unsigned(w.text)) &&
      exists t :: IsTrimOf(raw, t) && IsWhole(t) && IntValue(t) == IntValue(w.text)
    case Str(_) =>
      w.Str? &&
      (if raw == "" || raw[0] != '@' then w.s == raw
       else if |raw| >= 2 && raw[1] == '@' then w.s == raw[1..]
       else files(raw[1..]) == Some(w.s) && |w.s| <= 65536)
    case Arr(_) => !element && w.Arr? && IsList(raw, w.items)
    case _ => false
  }

  lemma ListIsRead(raw: string)
    ensures IsList(raw, if raw == "" then [] else Trimmed(Split(raw, ',')))
  {
    if raw != "" {
      var parts := Split(raw, ',');
      JoinSplit(raw, ',');
      forall i | 0 <= i < |parts| ensures IsTrimOf(parts[i], Trimmed(parts)[i].s) {
        TrimSpaceIsTrim(parts[i]);
      }
      assert CommaParts(raw, parts) && TrimmedInto(parts, Trimmed(parts));
    }
  }

  lemma ListIsUnique(raw: string, a: seq<Json>, b: seq<Json>)
    requires IsList(raw, a) && IsList(raw, b)
    ensures a == b
  {
    if raw != "" {
      var ps :| CommaParts(raw, ps) && TrimmedInto(ps, a);
      var qs :| CommaParts(raw, qs) && TrimmedInto(qs, b);
      SplitJoin(ps, ',');
      SplitJoin(qs, ',');
      TrimmedOnce(ps, a, b);
    }
  }

  lemma TrimmedOnce(parts: seq<string>, a: seq<Json>, b: seq<Json>)
    requires TrimmedInto(parts, a) && TrimmedInto(parts, b)
    ensures a == b
  {
    forall i | 0 <= i < |parts| ensures a[i] == b[i] {
      TrimIsUnique(parts[i], a[i].s, b[i].s);
    }
  }

  /** A raw text means at most one value. */
  lemma MeansOne(element: bool, old_: Json, raw: string, files: string -> Option<string>, w: Json, v: Json)
    requires Means(element, old_, raw, files, w) && Means(element, old_, raw, files, v)
    ensures w == v
  {
    match old_ {
      case Num(_) => NumberMeansOne(raw, w.text, v.text);
      case Arr(_) => ListIsUnique(raw, w.items, v.items);
      case _ =>
    }
  }

  lemma NumberMeansOne(raw: string, x: string, y: string)
    requires IsPlain(x) && AllDigits(Unsigned(x)) && IsPlain(y) && AllDigits(Unsigned(y))
    requires exists t :: IsTrimOf(raw, t) && IsWhole(t) && IntValue(t) == IntValue(x)
    requires exists t :: IsTrimOf(raw, t) && IsWhole(t) && IntValue(t) == IntValue(y)
    ensures x == y
  {
    var t :| IsTrimOf(raw, t) && IsWhole(t) && IntValue(t) == IntValue(x);
    var u :| IsTrimOf(raw, u) && IsWhole(u) && IntValue(u) == IntValue(y);
    TrimIsUnique(raw, t, u);
    PlainIsUnique(x, y);
  }

  lemma NumberMeans(raw: string)
    ensures Atoi(TrimSpace(raw)).Some? ==>
      var x := Itoa(Atoi(TrimSpace(raw)).value);
      && IsPlain(x) && AllDigits(Unsigned(x))
      && exists t :: IsTrimOf(raw, t) && IsWhole(t) && IntValue(t) == IntValue(x)
    ensures Atoi(TrimSpace(raw)).None? ==> !exists t :: IsTrimOf(raw, t) && IsWhole(t)
  {
    var t := TrimSpace(raw);
    TrimSpaceIsTrim(raw);
    AtoiIff(t);
    if Atoi(t).Some? {
      ItoaIsPlain(Atoi(t).value);
    } else if u :| IsTrimOf(raw, u) && IsWhole(u) {
      TrimIsUnique(raw, t, u);
    }
  }

  lemma WordPrefix(raw: string)
    ensures "@@" <= raw <==> |raw| >= 2 && raw[0] == '@' && raw[1] == '@'
    ensures "@" <= raw <==> raw != "" && raw[0] == '@'
  {
    if "@@" <= raw {
      assert raw[0] == raw[..2][0] && raw[1] == raw[..2][1];
    }
    if |raw| >= 2 && raw[0] == '@' && raw[1] == '@' {
      assert raw[..2] == "@@";
    }
    if "@" <= raw {
      assert raw[0] == raw[..1][0];
    }
    if raw != "" && raw[0] == '@' {
      assert raw[..1] == "@";
    }
  }

  /** What is computed for a leaf is what the raw text means, and nothing is exactly when it means nothing. */
  lemma NewValueMeans(last: WakeStep, element: bool, old_: Json, raw: string, files: string -> Option<string>)
    requires element <==> last.idx != []
    ensures NewValue(last, old_, raw, files).Ok? ==>
      Means(element, old_, raw, files, NewValue(last, old_, raw, files).value)
    ensures NewValue(last, old_, raw, files).Err? ==> forall w :: !Means(element, old_, raw, files, w)
  {
    match old_ {
      case Num(_) => NumberMeans(raw);
      case Str(_) => WordPrefix(raw);
      case Arr(_) => ListIsRead(raw);
      case _ =>
    }
  }

  // ---- what the command does ----------------------------------------------------------

  function LastHasIndex(steps: seq<WakeStep>): bool
    requires steps != []
  {
    steps[|steps| - 1].idx != []
  }

  /** The path is there and the raw text means something for the leaf it leads to. */
  ghost predicate CanSet(doc: Json, steps: seq<WakeStep>, raw: string, files: string -> Option<string>)
    requires steps != []
  {
    var leaf := Get(doc, Flatten(steps));
    leaf.Some? && exists w :: Means(LastHasIndex(steps), leaf.value, raw, files, w)
  }

  /** now is doc with the meaning of the raw text at the path, and nothing else different. */
  ghost predicate IsSet(doc: Json, steps: seq<WakeStep>, raw: string, files: string -> Option<string>, now: Json)
    requires steps != []
  {
    var p := Flatten(steps);
    && Get(doc, p).Some? && Get(now, p).Some?
    && Means(LastHasIndex(steps), Get(doc, p).value, raw, files, Get(now, p).value)
    && forall q :: !Overlap(p, q) ==> Get(now, q) == Get(doc, q)
  }

  /** Where the path leaves the document, and why. */
  ghost predicate LeavesAt(doc: Json, p: seq<Move>, n: int, e: Error) {
    && 0 <= n < |p| && Get(doc, p[..n]).Some? && Child(Get(doc, p[..n]).value, p[n]).None?
    && match p[n]
       case Key(_) => e == (if Get(doc, p[..n]).value.Obj? then NoSuchKey else NotAnObject)
       case Elem(_) => e == (if Get(doc, p[..n]).value.Arr? then PastTheEnd else NotAnArray)
  }

  /** Why a leaf cannot take the raw text. */
  ghost predicate Refuses(element: bool, old_: Json, raw: string, files: string -> Option<string>, e: Error) {
    match old_
    case Bool(_) => e == NotABool
    case Num(_) => e == NotANumber
    case Str(_) => raw != "" && e == (if files(raw[1..]).None? then NoFile else FileTooLarge)
    case Obj(_) => e == (if element then CannotSet else IsAnObject)
    case _ => e == CannotSet
  }

  ghost predicate Explains(doc: Json, steps: seq<WakeStep>, raw: string, files: string -> Option<string>, e: Error)
    requires steps != []
  {
    var leaf := Get(doc, Flatten(steps));
    if leaf.None? then exists n :: LeavesAt(doc, Flatten(steps), n, e)
    else Refuses(LastHasIndex(steps), leaf.value, raw, files, e)
  }

  lemma {:induction false} DescendLeaves(doc: Json, p: seq<Move>)
    requires Descend(doc, p).Err?
    ensures exists n :: LeavesAt(doc, p, n, Descend(doc, p).error)
    decreases |p|
  {
    var e := Descend(doc, p).error;
    if Child(doc, p[0]).None? {
      assert p[..0] == [];
      assert LeavesAt(doc, p, 0, e);
    } else {
      var child := Child(doc, p[0]).value;
      DescendLeaves(child, p[1..]);
      var n :| LeavesAt(child, p[1..], n, e);
      assert p[..n + 1][0] == p[0] && p[..n + 1][1..] == p[1..][..n];
      assert Get(doc, p[..n + 1]) == Get(child, p[1..][..n]);
      assert LeavesAt(doc, p, n + 1, e);
    }
  }

  lemma NewValueRefuses(last: WakeStep, old_: Json, raw: string, files: string -> Option<string>)
    requires NewValue(last, old_, raw, files).Err?
    ensures Refuses(last.idx != [], old_, raw, files, NewValue(last, old_, raw, files).error)
  {
    WordPrefix(raw);
  }

  /** An assignment succeeds exactly when it can, sets exactly what the raw text means, and otherwise says why. */
  lemma AssignSets(doc: Json, steps: seq<WakeStep>, raw: string, files: string -> Option<string>)
    requires steps != []
    ensures Assign(doc, steps, raw, files).Ok? <==> CanSet(doc, steps, raw, files)
    ensures Assign(doc, steps, raw, files).Ok? ==> IsSet(doc, steps, raw, files, Assign(doc, steps, raw, files).value)
    ensures Assign(doc, steps, raw, files).Err? ==>
      Explains(doc, steps, raw, files, Assign(doc, steps, raw, files).error)
  {
    var p, last := Flatten(steps), steps[|steps| - 1];
    DescendIsGet(doc, p);
    if Descend(doc, p).Err? {
      DescendLeaves(doc, p);
    } else {
      var leaf := Get(doc, p).value;
      var element := LastHasIndex(steps);
      NewValueMeans(last, element, leaf, raw, files);
      assert CanSet(doc, steps, raw, files) <==> exists w :: Means(element, leaf, raw, files, w);
      if NewValue(last, leaf, raw, files).Ok? {
        AssignKeepsTheRest(doc, steps, raw, files);
      } else {
        NewValueRefuses(last, leaf, raw, files);
      }
    }
  }

  lemma AssignKeepsTheRest(doc: Json, steps: seq<WakeStep>, raw: string, files: string -> Option<string>)
    requires steps != [] && Assign(doc, steps, raw, files).Ok?
    ensures var now, p := Assign(doc, steps, raw, files).value, Flatten(steps);
      && Get(doc, p).Some? && NewValue(steps[|steps| - 1], Get(doc, p).value, raw, files).Ok?
      && Get(now, p) == Some(NewValue(steps[|steps| - 1], Get(doc, p).value, raw, files).value)
      && forall q :: !Overlap(p, q) ==> Get(now, q) == Get(doc, q)
  {
    AssignChangesOnlyItsPath(doc, steps, raw, files, []);
    forall q | !Overlap(Flatten(steps), q)
      ensures Get(Assign(doc, steps, raw, files).value, q) == Get(doc, q)
    {
      AssignChangesOnlyItsPath(doc, steps, raw, files, q);
    }
  }

  lemma DescendKey(v: Json, st: WakeStep, more: seq<WakeStep>)
    ensures Descend(v, Flatten([st] + more)) ==
            if !v.Obj? then Err(NotAnObject)
            else if st.key !in v.fields then Err(NoSuchKey)
            else Descend(v.fields[st.key], Elems(st.idx) + Flatten(more))
  {
    assert ([st] + more)[1..] == more;
    var p := Flatten([st] + more);
    assert p[0] == Key(st.key) && p[1..] == Elems(st.idx) + Flatten(more);
  }

  lemma DescendElem(v: Json, i: nat, idx: seq<nat>, more: seq<Move>)
    ensures Descend(v, Elems([i] + idx) + more) ==
            if !v.Arr? then Err(NotAnArray)
            else if i >= |v.items| then Err(PastTheEnd)
            else Descend(v.items[i], Elems(idx) + more)
  {
    assert ([i] + idx)[1..] == idx;
    var p := Elems([i] + idx) + more;
    assert p[0] == Elem(i) && p[1..] == Elems(idx) + more;
  }

  class Document {
    var doc: Json

    constructor (doc: Json)
      ensures this.doc == doc
    {
      this.doc := doc;
    }

    /** Follow st's indexes from child; the value at their end, or why there is none. */
    static method Follow(start: Json, st: WakeStep, ghost more: seq<Move>) returns (r: Result<Json, Error>)
      ensures r.Ok? ==> Descend(start, Elems(st.idx) + more) == Descend(r.value, more)
      ensures r.Err? ==> Descend(start, Elems(st.idx) + more) == Err(r.error)
    {
      var child := start;
      for j := 0 to |st.idx|
        invariant Descend(start, Elems(st.idx) + more) == Descend(child, Elems(st.idx[j..]) + more)
      {
        assert st.idx[j..] == [st.idx[j]] + st.idx[j + 1..];
        DescendElem(child, st.idx[j], st.idx[j + 1..], more);
        if !child.Arr? {
          return Err(NotAnArray);
        }
        if st.idx[j] >= |child.items| {
          return Err(PastTheEnd);
        }
        child := child.items[st.idx[j]];
      }
      assert Elems([]) + more == more;
      return Ok(child);
    }

    /** applyWakePath: on any error the document is as it was. */
    method ApplyWakePath(path: string, raw: string, files: string -> Option<string>) returns (err: Option<Error>)
      modifies this
      ensures match ParsePath(path)
              case Err(e) => err == Some(e) && doc == old(doc)
              case Ok(steps) =>
                steps != [] &&
                match Assign(old(doc), steps, raw, files)
                case Err(e) => err == Some(e) && doc == old(doc)
                case Ok(d) => err == None && doc == d
      ensures err == None <==>
        ParsePath(path).Ok? && CanSet(old(doc), ParsePath(path).value, raw, files)
      ensures err == None ==> IsSet(old(doc), ParsePath(path).value, raw, files, doc)
      ensures err.Some? && ParsePath(path).Ok? ==> Explains(old(doc), ParsePath(path).value, raw, files, err.value)
    {
      var parsed := ParseWakePath(path);
      if parsed.Err? {
        return Some(parsed.error);
      }
      AssignSets(doc, parsed.value, raw, files);
      err := ApplySteps(parsed.value, raw, files);
    }

    /** The descent and the assignment, once the path is parsed. */
    method ApplySteps(steps: seq<WakeStep>, raw: string, files: string -> Option<string>) returns (err: Option<Error>)
      requires steps != []
      modifies this
      ensures match Assign(old(doc), steps, raw, files)
              case Err(e) => err == Some(e) && doc == old(doc)
              case Ok(d) => err == None && doc == d
    {
      var cur := doc;
      var i := 0;
      while i < |steps|
        invariant i <= |steps| && doc == old(doc)
        invariant Descend(doc, Flatten(steps)) == Descend(cur, Flatten(steps[i..]))
        invariant i == |steps| ==> Descend(doc, Flatten(steps)) == Ok(cur)
      {
        var st := steps[i];
        assert steps[i..] == [st] + steps[i + 1..];
        DescendKey(cur, st, steps[i + 1..]);
        if !cur.Obj? {
          return Some(NotAnObject);
        }
        if st.key !in cur.fields {
          return Some(NoSuchKey);
        }
        var end := Follow(cur.fields[st.key], st, Flatten(steps[i + 1..]));
        if end.Err? {
          return Some(end.error);
        }
        cur := end.value;
        i := i + 1;
      }
      var w := NewValue(steps[|steps| - 1], cur, raw, files);
      if w.Err? {
        return Some(w.error);
      }
      DescendIsGet(doc, Flatten(steps));
      doc := Put(doc, Flatten(steps), w.value);
      return None;
    }
  }
}
