/**
 The machine format of `lsof -F0pfn` and the ownership decision drawn from it
 (electron/local-daemon/lsof.ts). Fields are a tag letter and a value, ended by NUL;
 newlines end a set. JavaScript's Number is a parameter (None stands for NaN).
 */
module Lsof {
  import opened Outcomes
  import opened Text

  datatype File = File(fd: string, name: string)

  datatype Process = Process(pid: Option<int>, files: seq<File>)

  type Number = string -> Option<int>

  const NUL := '\0'
  const NEWLINE := '\n'

  predicate IsSeparator(c: char) { c == NUL || c == NEWLINE }

  // ---- fields ---------------------------------------------------------------

  function NonEmpty(parts: seq<string>): seq<string> {
    if parts == [] then []
    else (if parts[0] == "" then [] else [parts[0]]) + NonEmpty(parts[1..])
  }

  function SetFields(sets: seq<string>): seq<string> {
    if sets == [] then [] else NonEmpty(Split(sets[0], NUL)) + SetFields(sets[1..])
  }

  /** The fields of an output, in order: split at newlines, each part at NULs, the empty ones skipped. */
  function Fields(output: string): seq<string> {
    SetFields(Split(output, NEWLINE))
  }

  predicate IsField(f: string) {
    f != "" && NUL !in f && NEWLINE !in f
  }

  lemma {:induction false} NonEmptyIsNonEmpty(parts: seq<string>, i: nat)
    requires i < |NonEmpty(parts)|
    ensures NonEmpty(parts)[i] != ""
  {
    var k := if parts[0] == "" then 0 else 1;
    if i >= k {
      NonEmptyIsNonEmpty(parts[1..], i - k);
    }
  }

  lemma SingleField(f: string)
    requires IsField(f)
    ensures NonEmpty(Split(f, NUL)) == [f]
  {
    SplitOne(f, NUL);
    assert [f][1..] == [];
  }

  lemma SplitTail(first: string, rest: seq<string>)
    ensures ([first] + rest)[1..] == rest
  {
  }

  lemma {:induction false} SplitAfterPrefix(p: string, rest: string, c: char)
    requires c !in p
    ensures Split(p + rest, c) == [p + Split(rest, c)[0]] + Split(rest, c)[1..]
  {
    if p == [] {
      assert p + rest == rest && p + Split(rest, c)[0] == Split(rest, c)[0];
    } else {
      assert (p + rest)[1..] == p[1..] + rest;
      SplitAfterPrefix(p[1..], rest, c);
      SplitTail(p[1..] + Split(rest, c)[0], Split(rest, c)[1..]);
      assert [p[0]] + (p[1..] + Split(rest, c)[0]) == p + Split(rest, c)[0];
    }
  }

  lemma FieldThenNewline(f: string, rest: string)
    requires IsField(f)
    ensures Fields(f + [NEWLINE] + rest) == [f] + Fields(rest)
  {
    SplitCons(f, NEWLINE, rest);
    SplitTail(f, Split(rest, NEWLINE));
    SingleField(f);
  }

  lemma FieldThenNul(f: string, rest: string)
    requires IsField(f)
    ensures Fields(f + [NUL] + rest) == [f] + Fields(rest)
  {
    var sets := Split(rest, NEWLINE);
    SplitAfterPrefix(f + [NUL], rest, NEWLINE);
    SplitTail(f + [NUL] + sets[0], sets[1..]);
    SplitCons(f, NUL, sets[0]);
    SplitTail(f, Split(sets[0], NUL));
    Associate([f], NonEmpty(Split(sets[0], NUL)), SetFields(sets[1..]));
  }

  lemma Associate(a: seq<string>, b: seq<string>, c: seq<string>)
    ensures a + b + c == a + (b + c)
  {
  }

  lemma SeparatorFirst(c: char, rest: string)
    requires IsSeparator(c)
    ensures Fields([c] + rest) == Fields(rest)
  {
    var sets := Split(rest, NEWLINE);
    assert ([c] + rest)[1..] == rest;
    if c == NEWLINE {
      SplitTail("", sets);
      assert NonEmpty(Split("", NUL)) == [];
    } else {
      SplitTail([c] + sets[0], sets[1..]);
      assert ([c] + sets[0])[1..] == sets[0];
      SplitTail("", Split(sets[0], NUL));
    }
  }

  /** Fields laid out one after the other, each followed by some separators. */
  function Layout(fields: seq<string>, gaps: seq<string>): string
    requires |fields| == |gaps|
  {
    if fields == [] then "" else fields[0] + gaps[0] + Layout(fields[1..], gaps[1..])
  }

  lemma {:induction false} GapThenRest(gap: string, rest: string)
    requires forall i :: 0 <= i < |gap| ==> IsSeparator(gap[i])
    ensures Fields(gap + rest) == Fields(rest)
  {
    if gap == [] {
      assert gap + rest == rest;
    } else {
      assert gap + rest == [gap[0]] + (gap[1..] + rest);
      SeparatorFirst(gap[0], gap[1..] + rest);
      GapThenRest(gap[1..], rest);
    }
  }

  /** However NULs and newlines are placed between them, the same fields are read. */
  lemma {:induction false} FieldsOfLayout(fields: seq<string>, gaps: seq<string>)
    requires |fields| == |gaps|
    requires forall i :: 0 <= i < |fields| ==> IsField(fields[i])
    requires forall i :: 0 <= i < |gaps| ==> gaps[i] != "" && forall j :: 0 <= j < |gaps[i]| ==> IsSeparator(gaps[i][j])
    ensures Fields(Layout(fields, gaps)) == fields
  {
    if fields == [] {
      assert Split("", NEWLINE) == [""] && [""][1..] == [] && Split("", NUL) == [""];
    } else {
      var f, gap, rest := fields[0], gaps[0], Layout(fields[1..], gaps[1..]);
      FieldsOfLayout(fields[1..], gaps[1..]);
      FieldThenGap(f, gap, rest);
      assert fields == [f] + fields[1..];
    }
  }

  lemma FieldThenGap(f: string, gap: string, rest: string)
    requires IsField(f) && gap != ""
    requires forall j :: 0 <= j < |gap| ==> IsSeparator(gap[j])
    ensures Fields(f + gap + rest) == [f] + Fields(rest)
  {
    assert f + gap + rest == f + [gap[0]] + (gap[1..] + rest);
    if gap[0] == NUL {
      FieldThenNul(f, gap[1..] + rest);
    } else {
      FieldThenNewline(f, gap[1..] + rest);
    }
    GapThenRest(gap[1..], rest);
  }

  // ---- processes ------------------------------------------------------------------

  function WithLast(procs: seq<Process>, p: Process): seq<Process>
    requires procs != []
  {
    procs[|procs| - 1 := p]
  }

  /** One field: a new process, a new file of the current process, or the current file's name. */
  function Add(number: Number, procs: seq<Process>, field: string): seq<Process>
    requires field != ""
  {
    var value := field[1..];
    if field[0] == 'p' then procs + [Process(number(value), [])]
    else if procs == [] then procs
    else
      var cur := procs[|procs| - 1];
      if field[0] == 'f' then WithLast(procs, cur.(files := cur.files + [File(value, "")]))
      else if field[0] == 'n' && cur.files != [] then
        WithLast(procs, cur.(files := cur.files[|cur.files| - 1 := cur.files[|cur.files| - 1].(name := value)]))
      else procs
  }

  function AddAll(number: Number, procs: seq<Process>, fields: seq<string>): seq<Process>
    requires forall i :: 0 <= i < |fields| ==> fields[i] != ""
    decreases |fields|
  {
    if fields == [] then procs else AddAll(number, Add(number, procs, fields[0]), fields[1..])
  }

  lemma {:induction false} AddAllConcat(number: Number, procs: seq<Process>, a: seq<string>, b: seq<string>)
    requires forall i :: 0 <= i < |a| ==> a[i] != ""
    requires forall i :: 0 <= i < |b| ==> b[i] != ""
    ensures AddAll(number, procs, a + b) == AddAll(number, AddAll(number, procs, a), b)
    decreases |a|
  {
    if a == [] {
      assert a + b == b;
    } else {
      assert (a + b)[0] == a[0] && (a + b)[1..] == a[1..] + b;
      AddAllConcat(number, Add(number, procs, a[0]), a[1..], b);
    }
  }

  lemma {:induction false} SetFieldsAreNonEmpty(sets: seq<string>)
    ensures forall i :: 0 <= i < |SetFields(sets)| ==> SetFields(sets)[i] != ""
  {
    if sets != [] {
      SetFieldsAreNonEmpty(sets[1..]);
      var parts := Split(sets[0], NUL);
      forall i | 0 <= i < |NonEmpty(parts)| ensures NonEmpty(parts)[i] != "" {
        NonEmptyIsNonEmpty(parts, i);
      }
    }
  }

  ghost function Parsed(number: Number, output: string): seq<Process> {
    SetFieldsAreNonEmpty(Split(output, NEWLINE));
    AddAll(number, [], Fields(output))
  }

  /**
   parseLsofF0. cur is the last process read and file its last file, so the list alone carries
   the state of both loops.
   */
  method ParseLsofF0(number: Number, output: string) returns (procs: seq<Process>)
    ensures procs == Parsed(number, output)
  {
    procs := [];
    var sets := Split(output, NEWLINE);
    SetFieldsAreNonEmpty(sets);
    for i := 0 to |sets|
      invariant NoEmpty(SetFields(sets[i..]))
      invariant AddAll(number, procs, SetFields(sets[i..])) == Parsed(number, output)
    {
      var parts := Split(sets[i], NUL);
      assert sets[i..][1..] == sets[i + 1..];
      SetFieldsAreNonEmpty(sets[i + 1..]);
      ghost var rest := SetFields(sets[i + 1..]);
      assert SetFields(sets[i..]) == NonEmpty(parts) + rest;
      procs := AddSet(number, procs, parts, rest);
    }
    assert sets[|sets|..] == [];
  }

  ghost predicate NoEmpty(fields: seq<string>) {
    forall i :: 0 <= i < |fields| ==> fields[i] != ""
  }

  /** The inner loop: the fields of one set. */
  method AddSet(number: Number, procs: seq<Process>, parts: seq<string>, ghost rest: seq<string>)
      returns (out: seq<Process>)
    requires NoEmpty(NonEmpty(parts) + rest) && NoEmpty(rest)
    ensures AddAll(number, out, rest) == AddAll(number, procs, NonEmpty(parts) + rest)
  {
    out := procs;
    assert parts[0..] == parts;
    for j := 0 to |parts|
      invariant NoEmpty(NonEmpty(parts[j..]) + rest)
      invariant AddAll(number, out, NonEmpty(parts[j..]) + rest) == AddAll(number, procs, NonEmpty(parts) + rest)
    {
      NextPart(parts, j, rest);
      if parts[j] == "" { continue; }
      out := Add(number, out, parts[j]);
    }
    assert parts[|parts|..] == [] && [] + rest == rest;
  }

  lemma NextPart(parts: seq<string>, j: nat, rest: seq<string>)
    requires j < |parts| && NoEmpty(NonEmpty(parts[j..]) + rest)
    ensures NoEmpty(NonEmpty(parts[j + 1..]) + rest)
    ensures parts[j] == "" ==> NonEmpty(parts[j..]) == NonEmpty(parts[j + 1..])
    ensures parts[j] != "" ==> var all := NonEmpty(parts[j..]) + rest;
              all != [] && all[0] == parts[j] && all[1..] == NonEmpty(parts[j + 1..]) + rest
  {
    assert parts[j..][1..] == parts[j + 1..];
    var tail := NonEmpty(parts[j + 1..]) + rest;
    var all := NonEmpty(parts[j..]) + rest;
    if parts[j] != "" {
      assert all == [parts[j]] + tail;
      assert forall i :: 0 <= i < |tail| ==> tail[i] == all[i + 1];
    } else {
      assert all == tail;
    }
  }

  // ---- print, then parse -------------------------------------------------------------

  function FileFields(files: seq<File>): seq<string> {
    if files == [] then []
    else FileFields(files[..|files| - 1]) + ["f" + files[|files| - 1].fd, "n" + files[|files| - 1].name]
  }

  function ProcessFields(p: Process): seq<string>
    requires Printable(p)
  {
    ["p" + NatText(p.pid.value)] + FileFields(p.files)
  }

  predicate Printable(p: Process) {
    && p.pid.Some? && p.pid.value >= 0
    && forall i :: 0 <= i < |p.files| ==> Plain(p.files[i].fd) && Plain(p.files[i].name)
  }

  predicate Plain(s: string) { NUL !in s && NEWLINE !in s }

  function AllFields(procs: seq<Process>): seq<string>
    requires forall i :: 0 <= i < |procs| ==> Printable(procs[i])
  {
    if procs == [] then [] else AllFields(procs[..|procs| - 1]) + ProcessFields(procs[|procs| - 1])
  }

  lemma {:induction false} FileFieldsAreFields(files: seq<File>, i: nat)
    requires forall j :: 0 <= j < |files| ==> Plain(files[j].fd) && Plain(files[j].name)
    requires i < |FileFields(files)|
    ensures IsField(FileFields(files)[i])
  {
    if i < |FileFields(files)| - 2 {
      FileFieldsAreFields(files[..|files| - 1], i);
    }
  }

  lemma {:induction false} DigitsArePlain(n: nat)
    ensures Plain(NatText(n))
  {
    if n >= 10 {
      DigitsArePlain(n / 10);
    }
  }

  lemma {:induction false} AllFieldsAreFields(procs: seq<Process>, i: nat)
    requires forall j :: 0 <= j < |procs| ==> Printable(procs[j])
    requires i < |AllFields(procs)|
    ensures IsField(AllFields(procs)[i])
  {
    var init, p := procs[..|procs| - 1], procs[|procs| - 1];
    var n := |AllFields(init)|;
    if i < n {
      AllFieldsAreFields(init, i);
    } else if i == n {
      DigitsArePlain(p.pid.value);
    } else {
      FileFieldsAreFields(p.files, i - n - 1);
    }
  }

  lemma {:induction false} AddFiles(number: Number, procs: seq<Process>, pid: Option<int>, files: seq<File>)
    requires forall j :: 0 <= j < |files| ==> Plain(files[j].fd) && Plain(files[j].name)
    requires NoEmpty(FileFields(files))
    ensures AddAll(number, procs + [Process(pid, [])], FileFields(files)) == procs + [Process(pid, files)]
  {
    if files != [] {
      var init, f := files[..|files| - 1], files[|files| - 1];
      forall i | 0 <= i < |FileFields(init)| ensures FileFields(init)[i] != "" {
        FileFieldsAreFields(init, i);
      }
      AddFiles(number, procs, pid, init);
      AddAllConcat(number, procs + [Process(pid, [])], FileFields(init), ["f" + f.fd, "n" + f.name]);
      AddOneFile(number, procs, Process(pid, init), f);
      assert files == init + [f];
    }
  }

  lemma AddOneFile(number: Number, procs: seq<Process>, p: Process, f: File)
    ensures AddAll(number, procs + [p], ["f" + f.fd, "n" + f.name]) == procs + [p.(files := p.files + [f])]
  {
    var fields := ["f" + f.fd, "n" + f.name];
    assert fields[0][1..] == f.fd && fields[1][1..] == f.name;
    var named, unnamed := p.files + [f], p.files + [File(f.fd, "")];
    var mid := procs + [p.(files := unnamed)];
    assert Add(number, procs + [p], fields[0]) == mid;
    assert unnamed[|unnamed| - 1 := f] == named;
    assert mid[|mid| - 1] == p.(files := unnamed);
    assert Add(number, mid, fields[1]) == procs + [p.(files := named)];
    assert fields[1..] == [fields[1]] && [fields[1]][1..] == [];
    assert AddAll(number, procs + [p], fields) == AddAll(number, mid, [fields[1]]);
    assert AddAll(number, mid, [fields[1]]) == AddAll(number, Add(number, mid, fields[1]), []);
  }

  lemma AddProcess(number: Number, procs: seq<Process>, p: Process)
    requires Printable(p) && number(NatText(p.pid.value)) == p.pid
    requires NoEmpty(ProcessFields(p)) && NoEmpty(FileFields(p.files))
    ensures AddAll(number, procs, ProcessFields(p)) == procs + [p]
  {
    var all := ProcessFields(p);
    assert all[0][1..] == NatText(p.pid.value) && all[1..] == FileFields(p.files);
    AddFiles(number, procs, p.pid, p.files);
  }

  lemma {:induction false} AddProcesses(number: Number, procs: seq<Process>)
    requires forall i :: 0 <= i < |procs| ==> Printable(procs[i]) && number(NatText(procs[i].pid.value)) == procs[i].pid
    requires NoEmpty(AllFields(procs))
    ensures AddAll(number, [], AllFields(procs)) == procs
  {
    if procs != [] {
      var init, p := procs[..|procs| - 1], procs[|procs| - 1];
      forall i | 0 <= i < |AllFields(init)| ensures AllFields(init)[i] != "" {
        AllFieldsAreFields(init, i);
      }
      forall i | 0 <= i < |FileFields(p.files)| ensures FileFields(p.files)[i] != "" {
        FileFieldsAreFields(p.files, i);
      }
      AddProcesses(number, init);
      AddAllConcat(number, [], AllFields(init), ProcessFields(p));
      AddProcess(number, init, p);
      assert procs == init + [p];
    }
  }

  /** Whatever processes and files there are, and however the sets are ended, the listing reads back as it was. */
  lemma ListingRoundTrip(number: Number, procs: seq<Process>, gaps: seq<string>)
    requires forall i :: 0 <= i < |procs| ==> Printable(procs[i]) && number(NatText(procs[i].pid.value)) == procs[i].pid
    requires |gaps| == |AllFields(procs)|
    requires forall i :: 0 <= i < |gaps| ==> gaps[i] != "" && forall j :: 0 <= j < |gaps[i]| ==> IsSeparator(gaps[i][j])
    ensures Parsed(number, Layout(AllFields(procs), gaps)) == procs
  {
    forall i | 0 <= i < |AllFields(procs)| ensures IsField(AllFields(procs)[i]) {
      AllFieldsAreFields(procs, i);
    }
    FieldsOfLayout(AllFields(procs), gaps);
    AddProcesses(number, procs);
  }

  /** The tags that mean something. */
  predicate Known(field: string) {
    field != "" && (field[0] == 'p' || field[0] == 'f' || field[0] == 'n')
  }

  function KnownOnly(fields: seq<string>): seq<string> {
    if fields == [] then [] else (if Known(fields[0]) then [fields[0]] else []) + KnownOnly(fields[1..])
  }

  /** Fields of any other tag may stand anywhere and change nothing. */
  lemma {:induction false} OtherTagsAreIgnored(number: Number, procs: seq<Process>, fields: seq<string>)
    requires NoEmpty(fields)
    ensures NoEmpty(KnownOnly(fields)) && AddAll(number, procs, fields) == AddAll(number, procs, KnownOnly(fields))
    decreases |fields|
  {
    if fields != [] {
      var f, rest := fields[0], fields[1..];
      OtherTagsAreIgnored(number, Add(number, procs, f), rest);
      if Known(f) {
        assert ([f] + KnownOnly(rest))[1..] == KnownOnly(rest);
      } else {
        assert [] + KnownOnly(rest) == KnownOnly(rest);
      }
    }
  }

  /** Files before any process, and names before any file, belong to nobody. */
  lemma OrphansAreIgnored(number: Number, procs: seq<Process>, value: string)
    ensures Add(number, [], "f" + value) == [] && Add(number, [], "n" + value) == []
    ensures procs != [] && procs[|procs| - 1].files == [] ==> Add(number, procs, "n" + value) == procs
  {
  }

  // ---- whose process ------------------------------------------------------------------

  function TxtNames(files: seq<File>): seq<string> {
    if files == [] then [] else (if files[0].fd == "txt" then [files[0].name] else []) + TxtNames(files[1..])
  }

  function TxtPaths(procs: seq<Process>, pid: int): seq<string> {
    if procs == [] then []
    else (if procs[0].pid == Some(pid) then TxtNames(procs[0].files) else []) + TxtPaths(procs[1..], pid)
  }

  lemma {:induction false} TxtNamesExact(files: seq<File>, name: string)
    ensures name in TxtNames(files) <==> File("txt", name) in files
  {
    if files != [] {
      TxtNamesExact(files[1..], name);
    }
  }

  /** The names of the txt files of exactly that process. */
  lemma {:induction false} TxtPathsExact(procs: seq<Process>, pid: int, name: string)
    ensures name in TxtPaths(procs, pid)
       <==> exists i :: 0 <= i < |procs| && procs[i].pid == Some(pid) && File("txt", name) in procs[i].files
  {
    if procs != [] {
      TxtPathsExact(procs[1..], pid, name);
      TxtNamesExact(procs[0].files, name);
      assert forall i :: 1 <= i < |procs| ==> procs[i] == procs[1..][i - 1];
    }
  }

  predicate Listens(p: Process, bind: string, port: int) {
    exists i :: 0 <= i < |p.files| &&
      (p.files[i].name == bind + ":" + Itoa(port) || p.files[i].name == "*:" + Itoa(port))
  }

  function ListenersOn(procs: seq<Process>, bind: string, port: int): seq<Option<int>> {
    if procs == [] then []
    else (if Listens(procs[0], bind, port) then [procs[0].pid] else []) + ListenersOn(procs[1..], bind, port)
  }

  lemma {:induction false} ListenersExact(procs: seq<Process>, bind: string, port: int, pid: Option<int>)
    ensures pid in ListenersOn(procs, bind, port)
       <==> exists i, j ::
              && 0 <= i < |procs| && procs[i].pid == pid && 0 <= j < |procs[i].files|
              && (procs[i].files[j].name == bind + ":" + Itoa(port) || procs[i].files[j].name == "*:" + Itoa(port))
  {
    if procs != [] {
      ListenersExact(procs[1..], bind, port, pid);
      assert forall i :: 1 <= i < |procs| ==> procs[i] == procs[1..][i - 1];
    }
  }

  // ---- the decision -----------------------------------------------------------------------

  datatype Ownership =
    | Managed(alive: Option<int>)
    | External(foreign: Option<int>, alive: Option<int>)
    | NotInstalled

  function FirstForeign(listeners: seq<Option<int>>, alive: Option<int>): Option<Option<int>> {
    if listeners == [] then None
    else if alive.None? || listeners[0] != alive then Some(listeners[0])
    else FirstForeign(listeners[1..], alive)
  }

  /** decideOwnership: a foreign listener wins over everything. */
  function DecideOwnership(candidate: Option<int>, ours: bool, listeners: seq<Option<int>>, binExists: bool)
    : Ownership
  {
    var alive := if ours then candidate else None;
    match FirstForeign(listeners, alive)
    case Some(foreign) => External(foreign, alive)
    case None => if alive.Some? || binExists then Managed(alive) else NotInstalled
  }

  /** The live process an ownership names. */
  function AliveOf(o: Ownership): Option<int> {
    if o.NotInstalled? then None else o.alive
  }

  lemma {:induction false} FirstForeignExact(listeners: seq<Option<int>>, alive: Option<int>)
    ensures FirstForeign(listeners, alive).None? <==> forall l :: l in listeners ==> alive.Some? && l == alive
    ensures FirstForeign(listeners, alive).Some? ==>
      var f := FirstForeign(listeners, alive).value; f in listeners && !(alive.Some? && f == alive)
  {
    if listeners != [] {
      FirstForeignExact(listeners[1..], alive);
      assert listeners[0] in listeners;
      assert forall l :: l in listeners <==> l == listeners[0] || l in listeners[1..];
      if FirstForeign(listeners, alive).None? {
        assert FirstForeign(listeners[1..], alive).None?;
      }
    }
  }

  /**
   External exactly when some listener is not our own live process; otherwise not installed
   exactly when there is neither a live process of ours nor a binary; and the live process
   named is the candidate, only when it is ours.
   */
  lemma OwnershipExact(candidate: Option<int>, ours: bool, listeners: seq<Option<int>>, binExists: bool)
    ensures var o := DecideOwnership(candidate, ours, listeners, binExists);
      && (o.External? <==> exists l :: l in listeners && !(ours && candidate.Some? && l == candidate))
      && (o.External? ==> o.foreign in listeners && !(ours && candidate.Some? && o.foreign == candidate))
      && (o.NotInstalled? <==> !o.External? && !binExists && !(ours && candidate.Some?))
      && AliveOf(o) == (if ours then candidate else None)
  {
    FirstForeignExact(listeners, if ours then candidate else None);
  }
}
