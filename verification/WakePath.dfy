/**
 The path language of `pdx watch wake-settings set` (cmd/pdx/watch_wake_path.go):
 parsing `rules.patrol.times[0]`, reading a raw value as the type the leaf has now,
 and setting that leaf in a JSON document.
 */
module WakePath {
  import opened Outcomes
  import opened Text

  // ---- documents and steps -----------------------------------------------

  datatype Json =
    | Null
    | Bool(b: bool)
    | Num(text: string)              // json.Number keeps the literal
    | Str(s: string)
    | Arr(items: seq<Json>)
    | Obj(fields: map<string, Json>)

  datatype Kind = KNull | KBool | KNum | KStr | KArr | KObj

  function KindOf(v: Json): Kind {
    match v
    case Null => KNull case Bool(_) => KBool case Num(_) => KNum
    case Str(_) => KStr case Arr(_) => KArr case Obj(_) => KObj
  }

  /** A key of an object, then any number of [i] of an array. */
  datatype WakeStep = WakeStep(key: string, idx: seq<nat>)

  /** One move down a document. */
  datatype Move = Key(name: string) | Elem(i: nat)

  function Elems(idx: seq<nat>): seq<Move> {
    if idx == [] then [] else [Elem(idx[0])] + Elems(idx[1..])
  }

  function Moves(st: WakeStep): seq<Move> {
    [Key(st.key)] + Elems(st.idx)
  }

  function Flatten(steps: seq<WakeStep>): seq<Move> {
    if steps == [] then [] else Moves(steps[0]) + Flatten(steps[1..])
  }

  function Child(v: Json, m: Move): Option<Json> {
    match m
    case Key(name) => if v.Obj? && name in v.fields then Some(v.fields[name]) else None
    case Elem(i) => if v.Arr? && i < |v.items| then Some(v.items[i]) else None
  }

  function WithChild(v: Json, m: Move, c: Json): Json
    requires Child(v, m).Some?
  {
    match m
    case Key(name) => Obj(v.fields[name := c])
    case Elem(i) => Arr(v.items[i := c])
  }

  /** The value p leads to, if the document has one there. */
  function Get(v: Json, p: seq<Move>): Option<Json>
    decreases |p|
  {
    if p == [] then Some(v)
    else
      match Child(v, p[0])
      case None => None
      case Some(c) => Get(c, p[1..])
  }

  function Put(v: Json, p: seq<Move>, w: Json): Json
    requires Get(v, p).Some?
    decreases |p|
  {
    if p == [] then w else WithChild(v, p[0], Put(Child(v, p[0]).value, p[1..], w))
  }

  predicate Overlap(p: seq<Move>, q: seq<Move>) {
    p <= q || q <= p
  }

  // ---- what Put does to every path ---------------------------------------

  lemma {:induction false} GetConcat(v: Json, p: seq<Move>, q: seq<Move>)
    ensures Get(v, p + q) == match Get(v, p) case None => None case Some(c) => Get(c, q)
    decreases |p|
  {
    if p == [] {
      assert p + q == q;
    } else {
      assert (p + q)[0] == p[0] && (p + q)[1..] == p[1..] + q;
      if Child(v, p[0]).Some? {
        GetConcat(Child(v, p[0]).value, p[1..], q);
      }
    }
  }

  /** The path itself reads the new value. */
  lemma {:induction false} PutThere(v: Json, p: seq<Move>, w: Json)
    requires Get(v, p).Some?
    ensures Get(Put(v, p, w), p) == Some(w)
    decreases |p|
  {
    if p != [] {
      PutThere(Child(v, p[0]).value, p[1..], w);
    }
  }

  /** A path that neither leads to p nor goes through it reads as before. */
  lemma {:induction false} PutElsewhere(v: Json, p: seq<Move>, w: Json, q: seq<Move>)
    requires Get(v, p).Some? && !Overlap(p, q)
    ensures Get(Put(v, p, w), q) == Get(v, q)
    decreases |p|
  {
    if p[0] == q[0] {
      assert !Overlap(p[1..], q[1..]) by {
        assert p == [p[0]] + p[1..] && q == [q[0]] + q[1..];
      }
      PutElsewhere(Child(v, p[0]).value, p[1..], w, q[1..]);
    }
  }

  /** Every part of the document above p keeps its kind. */
  lemma {:induction false} PutKeepsKindsAbove(v: Json, p: seq<Move>, w: Json, n: nat)
    requires Get(v, p).Some? && n < |p|
    ensures Get(v, p[..n]).Some? && Get(Put(v, p, w), p[..n]).Some?
    ensures KindOf(Get(Put(v, p, w), p[..n]).value) == KindOf(Get(v, p[..n]).value)
    decreases |p|
  {
    if n > 0 {
      assert p[..n][0] == p[0] && p[..n][1..] == p[1..][..n - 1];
      PutKeepsKindsAbove(Child(v, p[0]).value, p[1..], w, n - 1);
    }
  }

  lemma {:induction false} PutsCommute(v: Json, p: seq<Move>, w: Json, q: seq<Move>, u: Json)
    requires Get(v, p).Some? && Get(v, q).Some? && !Overlap(p, q)
    ensures Get(Put(v, p, w), q).Some? && Get(Put(v, q, u), p).Some?
    ensures Put(Put(v, p, w), q, u) == Put(Put(v, q, u), p, w)
    decreases |p|
  {
    PutElsewhere(v, p, w, q);
    PutElsewhere(v, q, u, p);
    if p[0] == q[0] {
      assert !Overlap(p[1..], q[1..]) by {
        assert p == [p[0]] + p[1..] && q == [q[0]] + q[1..];
      }
      PutsCommute(Child(v, p[0]).value, p[1..], w, q[1..], u);
      ReplaceTwice(v, p[0], Put(Child(v, p[0]).value, p[1..], w), Put(Put(Child(v, p[0]).value, p[1..], w), q[1..], u));
      ReplaceTwice(v, p[0], Put(Child(v, p[0]).value, q[1..], u), Put(Put(Child(v, p[0]).value, q[1..], u), p[1..], w));
    } else {
      ReplaceApart(v, p[0], Put(Child(v, p[0]).value, p[1..], w), q[0], Put(Child(v, q[0]).value, q[1..], u));
    }
  }

  lemma ReplaceTwice(v: Json, m: Move, c: Json, d: Json)
    requires Child(v, m).Some?
    ensures Child(WithChild(v, m, c), m) == Some(c)
    ensures WithChild(WithChild(v, m, c), m, d) == WithChild(v, m, d)
  {
    match m
    case Key(name) => assert v.fields[name := c][name := d] == v.fields[name := d];
    case Elem(i) => assert v.items[i := c][i := d] == v.items[i := d];
  }

  lemma ReplaceApart(v: Json, m: Move, c: Json, n: Move, d: Json)
    requires Child(v, m).Some? && Child(v, n).Some? && m != n
    ensures Child(WithChild(v, m, c), n) == Child(v, n) && Child(WithChild(v, n, d), m) == Child(v, m)
    ensures WithChild(WithChild(v, m, c), n, d) == WithChild(WithChild(v, n, d), m, c)
  {
    match m
    case Key(a) => assert v.fields[a := c][n.name := d] == v.fields[n.name := d][a := c];
    case Elem(i) => assert v.items[i := c][n.i := d] == v.items[n.i := d][i := c];
  }

  // ---- values ------------------------------------------------------------

  datatype Error =
    | EmptyName | Unclosed | NotAnIndex | AfterBracket      // parsing
    | NotAnObject | NoSuchKey | NotAnArray | PastTheEnd     // descending
    | IsAnObject | NotABool | NotANumber | CannotSet | NoFile | FileTooLarge

  /** unicode.IsSpace. */
  predicate IsSpace(c: char) {
    || c in "\t\n\U{000B}\U{000C}\r \U{0085}\U{00A0}\U{1680}\U{2028}\U{2029}\U{202F}\U{205F}\U{3000}"
    || '\U{2000}' <= c <= '\U{200A}'
  }

  function TrimLeft(s: string): string {
    if s != [] && IsSpace(s[0]) then TrimLeft(s[1..]) else s
  }

  function TrimRight(s: string): string {
    if s != [] && IsSpace(s[|s| - 1]) then TrimRight(s[..|s| - 1]) else s
  }

  function TrimSpace(s: string): string {
    TrimRight(TrimLeft(s))
  }

  const WAKE_FILE_MAX := 65536

  /** readWakeFile over what the file system answers. */
  function ReadWakeFile(name: string, files: string -> Option<string>): Result<string, Error> {
    match files(name)
    case None => Err(NoFile)
    case Some(text) => if |text| > WAKE_FILE_MAX then Err(FileTooLarge) else Ok(text)
  }

  function WakeScalar(old_: Json, raw: string, files: string -> Option<string>): Result<Json, Error> {
    match old_
    case Bool(_) =>
      if raw in {"true", "on", "yes"} then Ok(Bool(true))
      else if raw in {"false", "off", "no"} then Ok(Bool(false))
      else Err(NotABool)
    case Num(_) =>
      (match Atoi(TrimSpace(raw))
       case None => Err(NotANumber)
       case Some(n) => Ok(Num(Itoa(n))))
    case Str(_) =>
      if "@@" <= raw then Ok(Str(raw[1..]))
      else if "@" <= raw then
        (match ReadWakeFile(raw[1..], files)
         case Ok(text) => Ok(Str(text))
         case Err(e) => Err(e))
      else Ok(Str(raw))
    case _ => Err(CannotSet)
  }

  function Trimmed(parts: seq<string>): seq<Json> {
    seq(|parts|, i requires 0 <= i < |parts| => Str(TrimSpace(parts[i])))
  }

  function WakeLeaf(old_: Json, raw: string, files: string -> Option<string>): Result<Json, Error> {
    match old_
    case Arr(_) => if raw == "" then Ok(Arr([])) else Ok(Arr(Trimmed(Split(raw, ','))))
    case Obj(_) => Err(IsAnObject)
    case _ => WakeScalar(old_, raw, files)
  }

  /** What the last step allows: an element takes a scalar, a field also a whole array. */
  function NewValue(last: WakeStep, old_: Json, raw: string, files: string -> Option<string>): Result<Json, Error> {
    if last.idx != [] then WakeScalar(old_, raw, files) else WakeLeaf(old_, raw, files)
  }

  lemma NewValueKeepsKind(last: WakeStep, old_: Json, raw: string, files: string -> Option<string>)
    ensures NewValue(last, old_, raw, files).Ok? ==> KindOf(NewValue(last, old_, raw, files).value) == KindOf(old_)
  {
  }

  predicate Tight(s: string) {
    s != [] ==> !IsSpace(s[0]) && !IsSpace(s[|s| - 1])
  }

  lemma TrimTight(s: string)
    requires Tight(s)
    ensures TrimSpace(s) == s
  {
  }

  function Strings(items: seq<string>): seq<Json> {
    seq(|items|, i requires 0 <= i < |items| => Str(items[i]))
  }

  /** A list of tight, comma-free strings survives being written with commas and read back. */
  lemma ListRoundTrip(items: seq<string>, was: seq<Json>, files: string -> Option<string>)
    requires forall i :: 0 <= i < |items| ==> Tight(items[i]) && ',' !in items[i]
    requires items != [""]
    ensures WakeLeaf(Arr(was), Join(items, ','), files) == Ok(Arr(Strings(items)))
  {
    if items == [] {
      assert Strings(items) == [];
    } else {
      SplitJoin(items, ',');
      assert Join(items, ',') != "";
      forall i | 0 <= i < |items|
        ensures Trimmed(items)[i] == Strings(items)[i]
      {
        TrimTight(items[i]);
      }
      assert Trimmed(items) == Strings(items);
    }
  }

  // ---- applyWakePath -----------------------------------------------------

  /** Why the descent to the end of p stops, if it does. */
  function Descend(v: Json, p: seq<Move>): Result<Json, Error>
    decreases |p|
  {
    if p == [] then Ok(v)
    else
      match p[0]
      case Key(name) =>
        if !v.Obj? then Err(NotAnObject)
        else if name !in v.fields then Err(NoSuchKey)
        else Descend(v.fields[name], p[1..])
      case Elem(i) =>
        if !v.Arr? then Err(NotAnArray)
        else if i >= |v.items| then Err(PastTheEnd)
        else Descend(v.items[i], p[1..])
  }

  lemma {:induction false} DescendIsGet(v: Json, p: seq<Move>)
    ensures Descend(v, p).Ok? <==> Get(v, p).Some?
    ensures Descend(v, p).Ok? ==> Descend(v, p).value == Get(v, p).value
    decreases |p|
  {
    if p != [] && Child(v, p[0]).Some? {
      DescendIsGet(Child(v, p[0]).value, p[1..]);
    }
  }

  /** The new document, or the error and no change. */
  function Assign(doc: Json, steps: seq<WakeStep>, raw: string, files: string -> Option<string>): Result<Json, Error>
    requires steps != []
  {
    var p := Flatten(steps);
    match Descend(doc, p)
    case Err(e) => Err(e)
    case Ok(old_) =>
      match NewValue(steps[|steps| - 1], old_, raw, files)
      case Err(e) => Err(e)
      case Ok(w) => DescendIsGet(doc, p); Ok(Put(doc, p, w))
  }

  /** The document after an assignment, whether it worked or not. */
  function After(doc: Json, steps: seq<WakeStep>, raw: string, files: string -> Option<string>): Json
    requires steps != []
  {
    match Assign(doc, steps, raw, files) case Ok(d) => d case Err(_) => doc
  }

  /**
   A successful assignment changes exactly the value at its path: the path reads the new value,
   of the same kind, what extends the path reads inside it, everything above keeps its kind,
   and every other path reads as before.
   */
  lemma AssignChangesOnlyItsPath(doc: Json, steps: seq<WakeStep>, raw: string, files: string -> Option<string>,
                                 q: seq<Move>)
    requires steps != [] && Assign(doc, steps, raw, files).Ok?
    ensures Get(doc, Flatten(steps)).Some?
    ensures var d, p := Assign(doc, steps, raw, files).value, Flatten(steps);
            var new_ := NewValue(steps[|steps| - 1], Get(doc, p).value, raw, files);
            && new_.Ok? && Get(d, p) == Some(new_.value) && KindOf(new_.value) == KindOf(Get(doc, p).value)
            && Get(d, p + q) == Get(new_.value, q)
            && (!Overlap(p, q) ==> Get(d, q) == Get(doc, q))
            && (q <= p && q != p ==>
                  Get(doc, q).Some? && Get(d, q).Some? && KindOf(Get(d, q).value) == KindOf(Get(doc, q).value))
  {
    var p := Flatten(steps);
    DescendIsGet(doc, p);
    var old_ := Get(doc, p).value;
    NewValueKeepsKind(steps[|steps| - 1], old_, raw, files);
    var w := NewValue(steps[|steps| - 1], old_, raw, files).value;
    PutThere(doc, p, w);
    GetConcat(Put(doc, p, w), p, q);
    if !Overlap(p, q) {
      PutElsewhere(doc, p, w, q);
    }
    if q <= p && q != p {
      assert q == p[..|q|];
      PutKeepsKindsAbove(doc, p, w, |q|);
    }
  }

  /** What an assignment answers depends only on the value at its own path. */
  lemma AssignSeesOnlyItsPath(d: Json, e: Json, steps: seq<WakeStep>, raw: string, files: string -> Option<string>)
    requires steps != [] && Get(d, Flatten(steps)) == Get(e, Flatten(steps))
    ensures Assign(d, steps, raw, files).Ok? <==> Assign(e, steps, raw, files).Ok?
  {
    DescendIsGet(d, Flatten(steps));
    DescendIsGet(e, Flatten(steps));
  }

  /** Two assignments to paths that do not overlap can be made in either order, failures included. */
  lemma AssignmentsCommute(doc: Json, s: seq<WakeStep>, x: string, t: seq<WakeStep>, y: string,
                           files: string -> Option<string>)
    requires s != [] && t != [] && !Overlap(Flatten(s), Flatten(t))
    ensures After(After(doc, s, x, files), t, y, files) == After(After(doc, t, y, files), s, x, files)
    ensures Assign(After(doc, s, x, files), t, y, files).Ok? <==> Assign(doc, t, y, files).Ok?
  {
    var p, q := Flatten(s), Flatten(t);
    var ds, dt := After(doc, s, x, files), After(doc, t, y, files);
    DescendIsGet(doc, p);
    DescendIsGet(doc, q);
    DescendIsGet(ds, q);
    DescendIsGet(dt, p);
    if Assign(doc, s, x, files).Ok? {
      AssignChangesOnlyItsPath(doc, s, x, files, q);
    }
    if Assign(doc, t, y, files).Ok? {
      AssignChangesOnlyItsPath(doc, t, y, files, p);
    }
    AssignSeesOnlyItsPath(doc, ds, t, y, files);
    AssignSeesOnlyItsPath(doc, dt, s, x, files);
    if Assign(doc, s, x, files).Ok? && Assign(doc, t, y, files).Ok? {
      PutsCommute(doc, p, NewValue(s[|s| - 1], Get(doc, p).value, x, files).value,
                  q, NewValue(t[|t| - 1], Get(doc, q).value, y, files).value);
    }
  }

  // ---- parseWakePath -----------------------------------------------------

  /** The [i] groups of a part: rest is what follows its first `[` or the `[` after a `]`. */
  function ParseIndexes(rest: string, idx: seq<nat>): Result<seq<nat>, Error>
    decreases |rest|
  {
    if rest == "" && idx != [] then Ok(idx)
    else
      match Index(rest, "]")
      case None => Err(Unclosed)
      case Some(end) =>
        match Atoi(rest[..end])
        case None => Err(NotAnIndex)
        case Some(n) =>
          if n < 0 then Err(NotAnIndex)
          else
            var more := rest[end + 1..];
            if more == "" then Ok(idx + [n])
            else if more[0] != '[' then Err(AfterBracket)
            else ParseIndexes(more[1..], idx + [n])
  }

  function ParsePart(part: string): Result<WakeStep, Error> {
    match Index(part, "[")
    case None => if part == "" then Err(EmptyName) else Ok(WakeStep(part, []))
    case Some(k) =>
      if k == 0 then Err(EmptyName)
      else
        match ParseIndexes(part[k + 1..], [])
        case Err(e) => Err(e)
        case Ok(idx) => Ok(WakeStep(part[..k], idx))
  }

  /** Left to right; the first part that does not parse decides. */
  function ParseParts(parts: seq<string>): Result<seq<WakeStep>, Error> {
    if parts == [] then Ok([])
    else
      match ParseParts(parts[..|parts| - 1])
      case Err(e) => Err(e)
      case Ok(steps) =>
        match ParsePart(parts[|parts| - 1])
        case Err(e) => Err(e)
        case Ok(st) => Ok(steps + [st])
  }

  function ParsePath(path: string): Result<seq<WakeStep>, Error> {
    ParseParts(Split(path, '.'))
  }

  // ---- which texts are paths -----------------------------------------------

  /** The digits of a number text, after its sign if it has one. */
  function Unsigned(n: string): string {
    if n != "" && (n[0] == '+' || n[0] == '-') then n[1..] else n
  }

  /**
   An index as the language allows it: digits with an optional sign, in the range of int; a minus only
   before zero.
   */
  predicate IsIndexText(n: string) {
    && AllDigits(Unsigned(n)) && NatValue(Unsigned(n)).Some?
    && NatValue(Unsigned(n)).value <= if n[0] == '-' then 0 else MAX_INT64
  }

  function IndexOf(n: string): nat
    requires IsIndexText(n)
  {
    NatValue(Unsigned(n)).value
  }

  function Groups(nums: seq<string>): string {
    if nums == [] then "" else "[" + (nums[0] + ("]" + Groups(nums[1..])))
  }

  /** One part of a path as written: a key, bracketed numbers, and perhaps a last `[` left over. */
  datatype Spelling = Spelling(key: string, nums: seq<string>, left: bool)

  predicate AllIndexTexts(nums: seq<string>) {
    forall i :: 0 <= i < |nums| ==> IsIndexText(nums[i])
  }

  predicate WellFormed(sp: Spelling) {
    sp.key != "" && '[' !in sp.key && AllIndexTexts(sp.nums) && (sp.left ==> sp.nums != [])
  }

  function LeftOver(left: bool): string {
    if left then "[" else ""
  }

  function PartText(sp: Spelling): string {
    sp.key + (Groups(sp.nums) + LeftOver(sp.left))
  }

  function Indexes(nums: seq<string>): seq<nat>
    requires AllIndexTexts(nums)
  {
    if nums == [] then [] else [IndexOf(nums[0])] + Indexes(nums[1..])
  }

  function StepOf(sp: Spelling): WakeStep
    requires WellFormed(sp)
  {
    WakeStep(sp.key, Indexes(sp.nums))
  }

  /** Atoi with a result that is not negative accepts exactly the index texts. */
  lemma IndexTextIff(n: string)
    ensures Atoi(n).Some? && Atoi(n).value >= 0 <==> IsIndexText(n)
    ensures IsIndexText(n) ==> Atoi(n).value == IndexOf(n)
  {
    NatValueIff(Unsigned(n));
  }

  lemma IndexTextPlain(n: string, c: char)
    requires IsIndexText(n) && !IsDigit(c) && c != '+' && c != '-'
    ensures c !in n
  {
    assert n != "" && n == (if Unsigned(n) == n then "" else [n[0]]) + Unsigned(n);
  }

  /** Cutting at a character that does not occur before. */
  lemma CutAt(before: string, c: char, after: string)
    requires c !in before
    ensures var s := before + ([c] + after);
            Index(s, [c]) == Some(|before|) && s[..|before|] == before && s[|before| + 1..] == after
  {
    var s := before + ([c] + after);
    assert s[|before|..|before| + 1] == [c];
    forall j | 0 <= j < |before|
      ensures !At(s, [c], j)
    {
      assert s[j..j + 1][0] == before[j];
    }
    IndexIs(s, [c], |before|);
  }

  lemma CharAt(s: string, c: char, k: nat)
    requires At(s, [c], k)
    ensures c in s
  {
    assert s[k..k + 1][0] == s[k];
  }

  lemma NoChar(s: string, c: char)
    requires c !in s
    ensures Index(s, [c]).None?
  {
    if Index(s, [c]).Some? {
      CharAt(s, c, Index(s, [c]).value);
    }
  }

  /** The other way round: where the first c is found, the text is cut there. */
  lemma FoundCut(s: string, c: char, k: nat)
    requires Index(s, [c]) == Some(k)
    ensures k < |s| && s == s[..k] + ([c] + s[k + 1..]) && c !in s[..k]
  {
    assert s[k..k + 1][0] == s[k];
    IndexIsFirst(s, [c]);
    forall j | 0 <= j < k
      ensures s[j] != c
    {
      assert s[j..j + 1] == [s[j]];
      assert !At(s, [c], j);
    }
  }

  /** One round of the loop over the groups, for a number text and what follows its `]`. */
  lemma OneGroup(n: string, after: string, done: seq<nat>)
    requires IsIndexText(n)
    ensures ParseIndexes(n + ("]" + after), done) ==
            if after == "" then Ok(done + [IndexOf(n)])
            else if after[0] != '[' then Err(AfterBracket)
            else ParseIndexes(after[1..], done + [IndexOf(n)])
  {
    IndexTextPlain(n, ']');
    CutAt(n, ']', after);
    IndexTextIff(n);
    GroupRound(n + ("]" + after), n, after, done);
  }

  lemma GroupRound(rest: string, n: string, after: string, done: seq<nat>)
    requires Index(rest, "]") == Some(|n|) && |n| < |rest| && rest[..|n|] == n && rest[|n| + 1..] == after
    requires Atoi(n).Some? && Atoi(n).value >= 0
    ensures ParseIndexes(rest, done) ==
            if after == "" then Ok(done + [Atoi(n).value])
            else if after[0] != '[' then Err(AfterBracket)
            else ParseIndexes(after[1..], done + [Atoi(n).value])
  {
  }

  lemma Shuffle(a: string, b: string, c: string, d: string)
    ensures (a + (b + (c + d)))[|a|..] == b + (c + d)
    ensures (a + (b + c)) + d == a + (b + (c + d))
  {
  }

  lemma Associate(a: seq<nat>, x: nat, b: seq<nat>)
    ensures (a + [x]) + b == a + ([x] + b)
  {
  }

  /** The groups after their first `[`. */
  function Inside(nums: seq<string>): string
    requires nums != []
  {
    nums[0] + ("]" + Groups(nums[1..]))
  }

  /** Reading spelled groups on top of those already read; a `[` left at the end is dropped. */
  lemma {:induction false} GroupsRead(nums: seq<string>, left: bool, done: seq<nat>)
    requires nums != [] && AllIndexTexts(nums)
    ensures ParseIndexes(Inside(nums) + LeftOver(left), done) == Ok(done + Indexes(nums))
    decreases |nums|
  {
    var n, more := nums[0], nums[1..];
    Shuffle(n, "]", Groups(more), LeftOver(left));
    OneGroup(n, Groups(more) + LeftOver(left), done);
    if more == [] {
      assert Indexes(nums) == [IndexOf(n)] + [] == [IndexOf(n)];
      assert Groups(more) + LeftOver(left) == LeftOver(left);
    } else {
      FirstBracket(Inside(more), LeftOver(left));
      GroupsRead(more, left, done + [IndexOf(n)]);
      Associate(done, IndexOf(n), Indexes(more));
    }
  }

  lemma FirstBracket(a: string, b: string)
    ensures ("[" + a) + b != "" && (("[" + a) + b)[0] == '[' && (("[" + a) + b)[1..] == a + b
  {
  }

  /** Every well-formed spelling is accepted, and read as its key and numbers. */
  lemma SpellingIsRead(sp: Spelling)
    requires WellFormed(sp)
    ensures ParsePart(PartText(sp)) == Ok(StepOf(sp))
  {
    if sp.nums == [] {
      assert PartText(sp) == sp.key;
      NoChar(sp.key, '[');
    } else {
      var inside := Inside(sp.nums) + LeftOver(sp.left);
      PartWithGroups(sp.key, sp.nums, sp.left);
      CutAt(sp.key, '[', inside);
      GroupsRead(sp.nums, sp.left, []);
      assert [] + Indexes(sp.nums) == Indexes(sp.nums);
    }
  }

  /** Whatever the group loop accepts is a list of index texts, and perhaps a `[` left over. */
  lemma {:induction false} GroupsComeFrom(rest: string, done: seq<nat>) returns (nums: seq<string>, left: bool)
    requires ParseIndexes(rest, done).Ok? && !(rest == "" && done != [])
    ensures nums != [] && AllIndexTexts(nums) && rest == Inside(nums) + LeftOver(left)
    decreases |rest|
  {
    var end := Index(rest, "]").value;
    var n, more := rest[..end], rest[end + 1..];
    FoundCut(rest, ']', end);
    IndexTextIff(n);
    if more == "" || more[1..] == "" {
      nums, left := [n], more != "";
      LastGroup(n, more);
    } else {
      var others;
      others, left := GroupsComeFrom(more[1..], done + [IndexOf(n)]);
      nums := [n] + others;
      FirstChar(more);
      InsideCons(n, others, left, more);
    }
  }

  lemma FirstChar(more: string)
    requires more != "" && more[0] == '['
    ensures more == "[" + more[1..]
  {
  }

  lemma LastGroup(n: string, more: string)
    requires more == "" || (more[0] == '[' && more[1..] == "")
    ensures n + ("]" + more) == Inside([n]) + LeftOver(more != "")
  {
    assert [n][1..] == [];
    if more != "" {
      assert more == "[";
    }
    Shuffle(n, "]", "", LeftOver(more != ""));
    assert "" + more == more;
  }

  lemma InsideCons(n: string, others: seq<string>, left: bool, more: string)
    requires others != [] && more == "[" + (Inside(others) + LeftOver(left))
    ensures n + ("]" + more) == Inside([n] + others) + LeftOver(left)
  {
    assert ([n] + others)[1..] == others;
    Shuffle("", "[", Inside(others), LeftOver(left));
    Shuffle(n, "]", Groups(others), LeftOver(left));
  }

  lemma AcceptedIsSpelled(t: string) returns (sp: Spelling)
    requires ParsePart(t).Ok?
    ensures WellFormed(sp) && PartText(sp) == t
  {
    if Index(t, "[").None? {
      NotFound(t, '[');
      sp := Spelling(t, [], false);
      assert PartText(sp) == t;
    } else {
      var k := Index(t, "[").value;
      assert ParseIndexes(t[k + 1..], []).Ok?;
      var nums, left := GroupsComeFrom(t[k + 1..], []);
      sp := Spelling(t[..k], nums, left);
      FoundCut(t, '[', k);
      PartWithGroups(t[..k], nums, left);
    }
  }

  lemma NotFound(t: string, c: char)
    requires Index(t, [c]).None?
    ensures c !in t
  {
    if c in t {
      var k :| 0 <= k < |t| && t[k] == c;
      assert At(t, [c], k) by { assert t[k..k + 1] == [c]; }
      IndexIsFirst(t, [c]);
    }
  }

  lemma PartWithGroups(key: string, nums: seq<string>, left: bool)
    requires nums != []
    ensures PartText(Spelling(key, nums, left)) == key + ("[" + (Inside(nums) + LeftOver(left)))
  {
    Shuffle("", "[", Inside(nums), LeftOver(left));
  }

  /**
   A part is accepted if and only if it is a key, index texts in brackets, and perhaps one `[` left
   over after them.
   */
  lemma PartAcceptedIff(t: string)
    ensures ParsePart(t).Ok? <==> exists sp :: WellFormed(sp) && PartText(sp) == t
  {
    if ParsePart(t).Ok? {
      var sp := AcceptedIsSpelled(t);
    }
    if sp :| WellFormed(sp) && PartText(sp) == t {
      SpellingIsRead(sp);
    }
  }

  // ---- why a text is no path -------------------------------------------------

  /** What follows the good groups of a part is why it is refused. */
  ghost predicate StopsAt(nums: seq<string>, tail: string, e: Error) {
    match e
    case Unclosed => exists r :: tail == "[" + r && ']' !in r && (r == "" ==> nums == [])
    case NotAnIndex => exists n, more :: tail == "[" + (n + ("]" + more)) && ']' !in n && !IsIndexText(n)
    case AfterBracket => nums != [] && tail != "" && tail[0] != '['
    case _ => false
  }

  lemma {:induction false} GroupsStop(rest: string, done: seq<nat>) returns (nums: seq<string>, tail: string)
    requires ParseIndexes(rest, done).Err? && (rest == "" ==> done == [])
    ensures AllIndexTexts(nums) && "[" + rest == Groups(nums) + tail && (tail == "[" ==> rest == "")
    ensures StopsAt(nums, tail, ParseIndexes(rest, done).error)
    decreases |rest|
  {
    if Index(rest, "]").None? || !IsIndexText(rest[..Index(rest, "]").value]) {
      nums, tail := [], "[" + rest;
      NoGroup(rest, done);
    } else {
      var n, more := FirstGroup(rest, done);
      if more[0] != '[' {
        nums, tail := [n], more;
        LastGroupThen(n, more);
      } else {
        var others;
        others, tail := GroupsStop(more[1..], done + [IndexOf(n)]);
        nums := [n] + others;
        NextGroups(n, more, others, tail, ParseIndexes(more[1..], done + [IndexOf(n)]).error);
      }
    }
  }

  lemma FirstGroup(rest: string, done: seq<nat>) returns (n: string, more: string)
    requires Index(rest, "]").Some? && IsIndexText(rest[..Index(rest, "]").value]) && ParseIndexes(rest, done).Err?
    requires rest == "" ==> done == []
    ensures IsIndexText(n) && rest == n + ("]" + more) && more != "" && |more| < |rest|
    ensures more[0] != '[' ==> ParseIndexes(rest, done) == Err(AfterBracket)
    ensures more[0] == '[' ==>
      more[1..] != "" && ParseIndexes(rest, done) == ParseIndexes(more[1..], done + [IndexOf(n)])
  {
    var end := Index(rest, "]").value;
    n, more := rest[..end], rest[end + 1..];
    FoundCut(rest, ']', end);
    OneGroup(n, more, done);
  }

  lemma LastGroupThen(n: string, more: string)
    requires more != "" && more[0] != '['
    ensures "[" + (n + ("]" + more)) == Groups([n]) + more && more != "[" && StopsAt([n], more, AfterBracket)
  {
    GroupThenTail(n, [], more);
    assert Groups([]) + more == more && [n] + [] == [n];
  }

  lemma NextGroups(n: string, more: string, others: seq<string>, tail: string, e: Error)
    requires more != "" && more[0] == '[' && more[1..] != "" && "[" + more[1..] == Groups(others) + tail
    requires StopsAt(others, tail, e) && tail != "["
    ensures "[" + (n + ("]" + more)) == Groups([n] + others) + tail && StopsAt([n] + others, tail, e)
  {
    FirstChar(more);
    GroupThenTail(n, others, tail);
    StopsLater(n, others, tail, e);
  }

  lemma NoGroup(rest: string, done: seq<nat>)
    requires ParseIndexes(rest, done).Err? && (rest == "" ==> done == [])
    requires Index(rest, "]").None? || !IsIndexText(rest[..Index(rest, "]").value])
    ensures "[" + rest == Groups([]) + ("[" + rest) && ("[" + rest == "[" ==> rest == "")
    ensures StopsAt([], "[" + rest, ParseIndexes(rest, done).error)
  {
    assert |"[" + rest| == 1 + |rest|;
    if Index(rest, "]").None? {
      NotFound(rest, ']');
    } else {
      var end := Index(rest, "]").value;
      FoundCut(rest, ']', end);
      IndexTextIff(rest[..end]);
      assert "[" + rest == "[" + (rest[..end] + ("]" + rest[end + 1..]));
    }
  }

  lemma StopsLater(n: string, others: seq<string>, tail: string, e: Error)
    requires StopsAt(others, tail, e) && tail != "["
    ensures StopsAt([n] + others, tail, e)
  {
    if e == Unclosed {
      var r :| tail == "[" + r && ']' !in r && (r == "" ==> others == []);
      assert r == "" ==> tail == "[";
    }
  }

  lemma GroupThenTail(n: string, others: seq<string>, tail: string)
    ensures "[" + (n + ("]" + (Groups(others) + tail))) == Groups([n] + others) + tail
  {
    assert ([n] + others)[1..] == others;
    Shuffle("[" + n, "]", Groups(others), tail);
    assert "[" + (n + ("]" + Groups(others))) == ("[" + n) + ("]" + Groups(others));
    assert "[" + (n + ("]" + (Groups(others) + tail))) == ("[" + n) + ("]" + (Groups(others) + tail));
  }

  /** A refused part has no name, or begins with a name and good groups and goes wrong right after them. */
  lemma PartRefusedBecause(t: string)
    requires ParsePart(t).Err?
    ensures ParsePart(t).error == EmptyName <==> t == "" || t[0] == '['
    ensures ParsePart(t).error != EmptyName ==> exists key, nums, tail ::
              && key != "" && '[' !in key && AllIndexTexts(nums) && t == key + (Groups(nums) + tail)
              && StopsAt(nums, tail, ParsePart(t).error)
  {
    if Index(t, "[").None? {
      NotFound(t, '[');
    } else {
      var k := Index(t, "[").value;
      FoundCut(t, '[', k);
      if k > 0 {
        var nums, tail := GroupsStop(t[k + 1..], []);
        assert t == t[..k] + (Groups(nums) + tail);
      }
    }
  }

  // ---- the printer ---------------------------------------------------------

  function Numerals(idx: seq<nat>): seq<string> {
    seq(|idx|, i requires 0 <= i < |idx| => Itoa(idx[i]))
  }

  function Printed(st: WakeStep): Spelling {
    Spelling(st.key, Numerals(st.idx), false)
  }

  function PrintStep(st: WakeStep): string {
    PartText(Printed(st))
  }

  function PrintSteps(steps: seq<WakeStep>): seq<string> {
    seq(|steps|, i requires 0 <= i < |steps| => PrintStep(steps[i]))
  }

  function PrintPath(steps: seq<WakeStep>): string {
    Join(PrintSteps(steps), '.')
  }

  ghost predicate Printable(st: WakeStep) {
    && st.key != "" && '.' !in st.key && '[' !in st.key
    && forall i :: 0 <= i < |st.idx| ==> st.idx[i] <= MAX_INT64
  }

  lemma NumeralIsIndexText(n: nat)
    requires n <= MAX_INT64
    ensures IsIndexText(Itoa(n)) && IndexOf(Itoa(n)) == n
  {
    NatRoundTrip(n);
    assert IsDigit(Itoa(n)[0]);
  }

  lemma NumeralsAreTexts(idx: seq<nat>)
    requires forall i :: 0 <= i < |idx| ==> idx[i] <= MAX_INT64
    ensures AllIndexTexts(Numerals(idx))
    ensures forall i :: 0 <= i < |idx| ==> IndexOf(Numerals(idx)[i]) == idx[i]
  {
    var nums := Numerals(idx);
    forall i | 0 <= i < |idx| ensures IsIndexText(nums[i]) && IndexOf(nums[i]) == idx[i] {
      NumeralIsIndexText(idx[i]);
    }
  }

  lemma NumeralsRead(idx: seq<nat>)
    requires forall i :: 0 <= i < |idx| ==> idx[i] <= MAX_INT64
    ensures AllIndexTexts(Numerals(idx)) && Indexes(Numerals(idx)) == idx
  {
    NumeralsAreTexts(idx);
    IndexesAt(Numerals(idx));
  }

  /** Not every accepted text is a printed one: a `[` after the last `]` is dropped. */
  lemma TrailingBracketAccepted(st: WakeStep)
    requires Printable(st) && st.idx != []
    ensures ParsePart(PrintStep(st) + "[") == Ok(st)
  {
    NumeralsRead(st.idx);
    SpellingIsRead(Printed(st).(left := true));
    Shuffle(st.key, Groups(Numerals(st.idx)), "", "[");
    assert Groups(Numerals(st.idx)) + "" == Groups(Numerals(st.idx));
    assert "" + "[" == "[";
  }

  /** A number written as the printer writes it: no sign, no leading zero. */
  predicate IsCanonical(n: string) {
    AllDigits(n) && (n == "0" || n[0] != '0')
  }

  predicate Canonical(sp: Spelling) {
    !sp.left && forall i :: 0 <= i < |sp.nums| ==> IsCanonical(sp.nums[i])
  }

  lemma CanonicalIff(n: string)
    requires IsIndexText(n)
    ensures Itoa(IndexOf(n)) == n <==> IsCanonical(n)
  {
    if Unsigned(n) == n {
      NatTextIff(n);
    } else {
      assert !IsDigit(n[0]);
    }
  }

  /** No two lists of numbers without `]` are spelled alike, and none as another with a `[` left over. */
  lemma {:induction false} GroupsUnique(a: seq<string>, b: seq<string>, left: bool)
    requires (forall i :: 0 <= i < |a| ==> ']' !in a[i]) && (forall i :: 0 <= i < |b| ==> ']' !in b[i])
    requires Groups(a) == Groups(b) + LeftOver(left) && (left ==> b != [])
    ensures a == b && !left
    decreases |a|
  {
    if b == [] {
      assert Groups(a) == "";
    } else {
      FirstBracket(Inside(b), LeftOver(left));
      assert a != [];
      var ra, rb := a[1..], b[1..];
      LoneBracket(ra);
      assert Inside(a) == Groups(a)[1..];
      assert a == [a[0]] + ra && b == [b[0]] + rb;
      Shuffle(b[0], "]", Groups(rb), LeftOver(left));
      CutAt(a[0], ']', Groups(ra));
      CutAt(b[0], ']', Groups(rb) + LeftOver(left));
      if rb != [] || !left {
        GroupsUnique(ra, rb, left);
      }
    }
  }

  lemma LoneBracket(a: seq<string>)
    ensures Groups(a) != "[" && Groups(a) != "" + "["
  {
    if a != [] {
      assert |Groups(a)| >= 2;
    }
  }

  /**
   The printer gives an accepted text back if and only if its numbers have no sign and no leading zero
   and no `[` is left over.
   */
  lemma PrintedIff(sp: Spelling)
    requires WellFormed(sp)
    ensures PrintStep(StepOf(sp)) == PartText(sp) <==> Canonical(sp)
  {
    var idx := Indexes(sp.nums);
    var nums := Numerals(idx);
    IndexesAt(sp.nums);
    forall i | 0 <= i < |nums|
      ensures (nums[i] == sp.nums[i] <==> IsCanonical(sp.nums[i])) && ']' !in nums[i] && ']' !in sp.nums[i]
    {
      CanonicalIff(sp.nums[i]);
      IndexTextPlain(sp.nums[i], ']');
      NumeralIsIndexText(idx[i]);
      IndexTextPlain(nums[i], ']');
    }
    if Canonical(sp) {
      assert nums == sp.nums;
    }
    if PrintStep(StepOf(sp)) == PartText(sp) {
      SameTail(sp.key, Groups(nums) + "", Groups(sp.nums) + LeftOver(sp.left));
      assert Groups(nums) + "" == Groups(nums);
      GroupsUnique(nums, sp.nums, sp.left);
    }
  }

  lemma SameTail(a: string, b: string, c: string)
    requires a + b == a + c
    ensures b == c
  {
    assert (a + b)[|a|..] == b && (a + c)[|a|..] == c;
  }

  lemma {:induction false} IndexesAt(nums: seq<string>)
    requires AllIndexTexts(nums)
    ensures |Indexes(nums)| == |nums|
    ensures forall i :: 0 <= i < |nums| ==> Indexes(nums)[i] == IndexOf(nums[i]) <= MAX_INT64
  {
    if nums != [] {
      IndexesAt(nums[1..]);
    }
  }

  /** Texts beside the printed ones, all read as a[1]: `a[+1]`, `a[01]` and `a[1][`. */
  lemma UnprintedTexts(sp: Spelling)
    requires sp in {Spelling("a", ["+1"], false), Spelling("a", ["01"], false), Spelling("a", ["1"], true)}
    ensures ParsePart(PartText(sp)) == Ok(WakeStep("a", [1])) && PrintStep(WakeStep("a", [1])) != PartText(sp)
  {
    var n := sp.nums[0];
    assert sp.nums == [n] && [n][1..] == [];
    OneNumber(n);
    assert Indexes([n]) == [1] + [] == [1];
    SpellingIsRead(sp);
    PrintedIff(sp);
    assert !Canonical(sp) by { if !sp.left { assert !IsCanonical(sp.nums[0]); } }
  }

  lemma OneNumber(n: string)
    requires n == "+1" || n == "01" || n == "1"
    ensures IsIndexText(n) && IndexOf(n) == 1
  {
    assert NatValue("1") == Some(1);
    assert "01"[..1] == "0" && NatValue("0") == Some(0) && NatValue("01") == Some(1);
    assert "+1"[1..] == "1";
  }

  // ---- whole paths -----------------------------------------------------------

  predicate AllWellFormed(sps: seq<Spelling>) {
    forall i :: 0 <= i < |sps| ==> WellFormed(sps[i]) && '.' !in sps[i].key
  }

  function PartTexts(sps: seq<Spelling>): seq<string> {
    seq(|sps|, i requires 0 <= i < |sps| => PartText(sps[i]))
  }

  function PathText(sps: seq<Spelling>): string {
    Join(PartTexts(sps), '.')
  }

  function StepsOf(sps: seq<Spelling>): seq<WakeStep>
    requires AllWellFormed(sps)
  {
    seq(|sps|, i requires 0 <= i < |sps| => StepOf(sps[i]))
  }

  lemma {:induction false} GroupsHaveNoDot(nums: seq<string>)
    requires AllIndexTexts(nums)
    ensures '.' !in Groups(nums)
  {
    if nums != [] {
      IndexTextPlain(nums[0], '.');
      GroupsHaveNoDot(nums[1..]);
    }
  }

  lemma PartsHaveNoDot(sps: seq<Spelling>)
    requires AllWellFormed(sps)
    ensures forall i :: 0 <= i < |sps| ==> '.' !in PartTexts(sps)[i]
  {
    forall i | 0 <= i < |sps| ensures '.' !in PartTexts(sps)[i] {
      GroupsHaveNoDot(sps[i].nums);
    }
  }

  lemma {:induction false} PartsRead(sps: seq<Spelling>)
    requires AllWellFormed(sps)
    ensures ParseParts(PartTexts(sps)) == Ok(StepsOf(sps))
  {
    if sps != [] {
      var n := |sps| - 1;
      PartsRead(sps[..n]);
      SpellingIsRead(sps[n]);
      PartsSnoc(sps);
      ParseSnoc(PartTexts(sps), StepsOf(sps[..n]), StepOf(sps[n]));
    } else {
      assert PartTexts(sps) == [] && StepsOf(sps) == [];
    }
  }

  lemma ParseSnoc(parts: seq<string>, steps: seq<WakeStep>, st: WakeStep)
    requires parts != [] && ParseParts(parts[..|parts| - 1]) == Ok(steps) && ParsePart(parts[|parts| - 1]) == Ok(st)
    ensures ParseParts(parts) == Ok(steps + [st])
  {
  }

  lemma PartsSnoc(sps: seq<Spelling>)
    requires sps != [] && AllWellFormed(sps)
    ensures var n := |sps| - 1;
      && PartTexts(sps)[..n] == PartTexts(sps[..n]) && PartTexts(sps)[n] == PartText(sps[n])
      && StepsOf(sps[..n]) + [StepOf(sps[n])] == StepsOf(sps)
  {
  }

  /** Every spelled path is accepted and read as its steps. */
  lemma PathIsRead(sps: seq<Spelling>)
    requires sps != [] && AllWellFormed(sps)
    ensures ParsePath(PathText(sps)) == Ok(StepsOf(sps))
  {
    PartsHaveNoDot(sps);
    SplitJoin(PartTexts(sps), '.');
    PartsRead(sps);
  }

  lemma {:induction false} PartsAreSpelled(parts: seq<string>) returns (sps: seq<Spelling>)
    requires ParseParts(parts).Ok? && forall i :: 0 <= i < |parts| ==> '.' !in parts[i]
    ensures AllWellFormed(sps) && PartTexts(sps) == parts
  {
    sps := [];
    if parts != [] {
      var n := |parts| - 1;
      var init := PartsAreSpelled(parts[..n]);
      var sp := AcceptedIsSpelled(parts[n]);
      KeyHasNoDot(sp);
      sps := init + [sp];
      PartsExtend(init, sp, parts);
    }
  }

  lemma PartsExtend(init: seq<Spelling>, sp: Spelling, parts: seq<string>)
    requires AllWellFormed(init) && WellFormed(sp) && '.' !in sp.key
    requires parts != [] && PartTexts(init) == parts[..|parts| - 1] && PartText(sp) == parts[|parts| - 1]
    ensures AllWellFormed(init + [sp]) && PartTexts(init + [sp]) == parts
  {
    TextsSnoc(init, sp);
    assert parts == parts[..|parts| - 1] + [parts[|parts| - 1]];
  }

  lemma KeyHasNoDot(sp: Spelling)
    requires '.' !in PartText(sp)
    ensures '.' !in sp.key
  {
    assert forall i :: 0 <= i < |sp.key| ==> sp.key[i] == PartText(sp)[i];
  }

  lemma TextsSnoc(init: seq<Spelling>, sp: Spelling)
    ensures PartTexts(init + [sp]) == PartTexts(init) + [PartText(sp)]
  {
  }

  ghost predicate IsPath(t: string) {
    exists sps :: sps != [] && AllWellFormed(sps) && PathText(sps) == t
  }

  /** A text is a path if and only if it is a dotted list of such parts. */
  lemma PathAcceptedIff(t: string)
    ensures ParsePath(t).Ok? <==> IsPath(t)
  {
    if ParsePath(t).Ok? {
      var sps := PartsAreSpelled(Split(t, '.'));
      JoinSplit(t, '.');
      assert |PartTexts(sps)| == |sps|;
      assert sps != [] && AllWellFormed(sps) && PathText(sps) == t;
    }
    if sps :| sps != [] && AllWellFormed(sps) && PathText(sps) == t {
      PathIsRead(sps);
    }
  }

  /** Printing what was read gives the text back if and only if every part was written as the printer writes it. */
  lemma PathPrintedIff(sps: seq<Spelling>)
    requires sps != [] && AllWellFormed(sps)
    ensures PrintPath(StepsOf(sps)) == PathText(sps) <==> forall i :: 0 <= i < |sps| ==> Canonical(sps[i])
  {
    var steps, texts := StepsOf(sps), PartTexts(sps);
    var prints := PrintSteps(steps);
    forall i | 0 <= i < |sps| ensures (prints[i] == texts[i] <==> Canonical(sps[i])) && '.' !in prints[i] {
      PrintedIff(sps[i]);
      IndexesAt(sps[i].nums);
      NumeralsRead(steps[i].idx);
      GroupsHaveNoDot(Numerals(steps[i].idx));
    }
    if PrintPath(steps) == PathText(sps) {
      PartsHaveNoDot(sps);
      SplitJoin(prints, '.');
      SplitJoin(texts, '.');
      assert prints == texts;
    } else {
      assert prints != texts;
    }
  }

  /** Parsing the printed form of any non-empty list of printable steps gives the list back. */
  lemma PathRoundTrip(steps: seq<WakeStep>)
    requires steps != [] && forall i :: 0 <= i < |steps| ==> Printable(steps[i])
    ensures ParsePath(PrintPath(steps)) == Ok(steps)
  {
    var sps := seq(|steps|, i requires 0 <= i < |steps| => Printed(steps[i]));
    forall i | 0 <= i < |steps| ensures WellFormed(sps[i]) && StepOf(sps[i]) == steps[i] {
      NumeralsRead(steps[i].idx);
    }
    PathIsRead(sps);
    assert PartTexts(sps) == PrintSteps(steps) && StepsOf(sps) == steps;
  }

  /** Every accepted path has at least one step, so "empty path" is never reported for it. */
  lemma {:induction false} ParsedIsNonEmpty(parts: seq<string>)
    ensures ParseParts(parts).Ok? ==> |ParseParts(parts).value| == |parts|
  {
    if parts != [] {
      ParsedIsNonEmpty(parts[..|parts| - 1]);
    }
  }

  // ---- the loops ---------------------------------------------------------

  /** The inner loop of parseWakePath, from the text after the part's first `[`. */
  method ParseGroups(first: string) returns (r: Result<seq<nat>, Error>)
    ensures r == ParseIndexes(first, [])
  {
    var rest := first;
    var idx: seq<nat> := [];
    while rest != "" || idx == []
      invariant ParseIndexes(rest, idx) == ParseIndexes(first, [])
      decreases |rest|, if idx == [] then 1 else 0
    {
      var end := Index(rest, "]");
      if end.None? {
        return Err(Unclosed);
      }
      var n := Atoi(rest[..end.value]);
      if n.None? || n.value < 0 {
        return Err(NotAnIndex);
      }
      idx := idx + [n.value];
      rest := rest[end.value + 1..];
      if rest == "" {
        break;
      }
      if rest[0] != '[' {
        return Err(AfterBracket);
      }
      rest := rest[1..];
    }
    return Ok(idx);
  }

  /** The body of the outer loop: one part. */
  method ParseOnePart(part: string) returns (r: Result<WakeStep, Error>)
    ensures r == ParsePart(part)
  {
    var bracket := Index(part, "[");
    var key := if bracket.None? then part else part[..bracket.value];
    if key == "" {
      return Err(EmptyName);
    }
    if bracket.None? {
      return Ok(WakeStep(key, []));
    }
    var idx := ParseGroups(part[bracket.value + 1..]);
    if idx.Err? {
      return Err(idx.error);
    }
    return Ok(WakeStep(key, idx.value));
  }

  method ParseWakePath(path: string) returns (r: Result<seq<WakeStep>, Error>)
    ensures r == ParsePath(path) && (r.Ok? <==> IsPath(path))
    ensures r.Ok? ==> r.value != []
  {
    PathAcceptedIff(path);
    var parts := Split(path, '.');
    var steps: seq<WakeStep> := [];
    ParsedIsNonEmpty(parts);
    for i := 0 to |parts|
      invariant ParseParts(parts[..i]) == Ok(steps)
    {
      assert parts[..i + 1][..i] == parts[..i];
      var st := ParseOnePart(parts[i]);
      if st.Err? {
        FirstErrorDecides(parts, i, st.error);
        return Err(st.error);
      }
      steps := steps + [st.value];
    }
    assert parts[..|parts|] == parts;
    return Ok(steps);
  }

  lemma {:induction false} FirstErrorDecides(parts: seq<string>, i: nat, e: Error)
    requires i < |parts| && ParseParts(parts[..i]).Ok? && ParsePart(parts[i]) == Err(e)
    ensures ParseParts(parts) == Err(e)
  {
    if i < |parts| - 1 {
      var shorter := parts[..|parts| - 1];
      assert shorter[..i] == parts[..i];
      FirstErrorDecides(shorter, i, e);
    }
  }
}
