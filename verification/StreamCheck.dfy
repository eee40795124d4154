/**
 The buffer loop of streamCheck in electron/updater.ts: text arrives in chunks,
 frames end at a blank line, and each `data: ` line of a frame is decoded and
 handed over. It reads the subset of section 9.2 ("Server-sent events") of the
 WHATWG HTML Standard that has LF line ends and single-line data fields.
 */
module StreamCheck {
  import opened Outcomes
  import opened Text

  const SEPARATOR := "\n\n"
  const DATA_FIELD := "data: "

  function Concat(chunks: seq<string>): string {
    if chunks == [] then "" else Concat(chunks[..|chunks| - 1]) + chunks[|chunks| - 1]
  }

  /** One batch split of a whole text: the frames before each separator, and what is left. */
  datatype Framing = Framing(frames: seq<string>, rest: string)

  function Batch(text: string): Framing
    decreases |text|
  {
    match Index(text, SEPARATOR)
    case None => Framing([], text)
    case Some(k) =>
      var tail := Batch(text[k + 2..]);
      Framing([text[..k]] + tail.frames, tail.rest)
  }

  /** The payloads of a frame's `data: ` lines that decode. */
  function LineEvents<E>(lines: seq<string>, decode: string -> Option<E>): seq<E> {
    if lines == [] then []
    else
      var line := lines[|lines| - 1];
      LineEvents(lines[..|lines| - 1], decode) +
      (if DATA_FIELD <= line && decode(line[6..]).Some? then [decode(line[6..]).value] else [])
  }

  function FrameEvents<E>(frames: seq<string>, decode: string -> Option<E>): seq<E> {
    if frames == [] then []
    else FrameEvents(frames[..|frames| - 1], decode) + LineEvents(Split(frames[|frames| - 1], '\n'), decode)
  }

  // ---- an independent description of a framing ---------------------------

  function Rebuild(f: Framing): string
    decreases |f.frames|
  {
    if f.frames == [] then f.rest else f.frames[0] + SEPARATOR + Rebuild(Framing(f.frames[1..], f.rest))
  }

  /** No separator begins inside the frame, also not one that ends in the frame's own terminator. */
  ghost predicate Closed(frame: string) {
    NoneBefore(frame + SEPARATOR, SEPARATOR, |frame|)
  }

  /** f cuts text at its separators, each as early as possible, and leaves no separator behind. */
  ghost predicate IsFraming(text: string, f: Framing) {
    && Rebuild(f) == text
    && (forall i :: 0 <= i < |f.frames| ==> Closed(f.frames[i]))
    && NoneBefore(f.rest, SEPARATOR, |f.rest|)
  }

  /** A separator's place depends only on the text up to its end. */
  lemma AtPrefix(a: string, b: string, k: nat)
    requires k + 2 <= |a|
    ensures At(a + b, SEPARATOR, k) == At(a, SEPARATOR, k)
  {
    assert (a + b)[k..k + 2] == a[k..k + 2];
  }

  lemma FirstIsClosed(text: string, k: nat)
    requires Index(text, SEPARATOR) == Some(k)
    ensures Closed(text[..k]) && text == text[..k] + SEPARATOR + text[k + 2..]
  {
    var f := text[..k] + SEPARATOR;
    assert text == f + text[k + 2..];
    IndexIsFirst(text, SEPARATOR);
    forall j | 0 <= j < k
      ensures !At(f, SEPARATOR, j)
    {
      AtPrefix(f, text[k + 2..], j);
    }
  }

  lemma {:induction false} BatchIsFraming(text: string)
    ensures IsFraming(text, Batch(text))
    decreases |text|
  {
    match Index(text, SEPARATOR)
    case None => IndexIsFirst(text, SEPARATOR);
    case Some(k) =>
      FirstIsClosed(text, k);
      BatchIsFraming(text[k + 2..]);
      var tail := Batch(text[k + 2..]);
      assert Batch(text).frames[1..] == tail.frames;
  }

  /** There is only one such cut: the batch split. */
  lemma {:induction false} FramingIsUnique(text: string, f: Framing)
    requires IsFraming(text, f)
    ensures f == Batch(text)
    decreases |f.frames|
  {
    if f.frames == [] {
      assert text == f.rest;
    } else {
      var frame := f.frames[0];
      var g := Framing(f.frames[1..], f.rest);
      var rest := Rebuild(g);
      forall j | 0 <= j < |frame|
        ensures !At(text, SEPARATOR, j)
      {
        AtPrefix(frame + SEPARATOR, rest, j);
      }
      assert text[|frame|..|frame| + 2] == SEPARATOR;
      IndexIs(text, SEPARATOR, |frame|);
      assert text[|frame| + 2..] == rest && text[..|frame|] == frame;
      FramingIsUnique(rest, g);
      assert f.frames == [frame] + g.frames;
    }
  }

  // ---- chunk independence ------------------------------------------------

  /** Reading more text after a prefix was cut goes on from what the prefix left over. */
  lemma {:induction false} BatchExtends(a: string, b: string)
    ensures Batch(a + b).frames == Batch(a).frames + Batch(Batch(a).rest + b).frames
    ensures Batch(a + b).rest == Batch(Batch(a).rest + b).rest
    decreases |a|
  {
    if Index(a, SEPARATOR).None? {
      BatchRest(a);
      assert [] + Batch(a + b).frames == Batch(a + b).frames;
    } else {
      var k := Index(a, SEPARATOR).value;
      var rest := a[k + 2..];
      BatchExtends(rest, b);
      IndexOfPrefix(a, b, k);
      SliceConcat(a, b, k, k + 2);
      BatchExtendsStep(a, a + b, k, Batch(rest), Batch(Batch(rest).rest + b));
    }
  }

  lemma BatchExtendsStep(a: string, ab: string, k: nat, ra: Framing, more: Framing)
    requires Index(a, SEPARATOR) == Some(k) && Index(ab, SEPARATOR) == Some(k) && ab[..k] == a[..k]
    requires Batch(a[k + 2..]) == ra && Batch(ab[k + 2..]) == Framing(ra.frames + more.frames, more.rest)
    ensures Batch(a) == Framing([a[..k]] + ra.frames, ra.rest)
    ensures Batch(ab) == Framing(([a[..k]] + ra.frames) + more.frames, more.rest)
  {
    BatchStep(a, k);
    BatchStep(ab, k);
    Associate([a[..k]], ra.frames, more.frames);
  }

  lemma Associate<T>(a: seq<T>, b: seq<T>, c: seq<T>)
    ensures a + (b + c) == (a + b) + c
  {
  }

  lemma BatchRest(text: string)
    requires Index(text, SEPARATOR).None?
    ensures Batch(text) == Framing([], text)
  {
  }

  lemma SliceConcat(a: string, b: string, j: nat, k: nat)
    requires j <= |a| && k <= |a|
    ensures (a + b)[..j] == a[..j] && (a + b)[k..] == a[k..] + b
  {
  }

  lemma IndexOfPrefix(a: string, b: string, k: nat)
    requires Index(a, SEPARATOR) == Some(k)
    ensures Index(a + b, SEPARATOR) == Some(k)
  {
    AtPrefix(a, b, k);
    IndexIsFirst(a, SEPARATOR);
    forall j | 0 <= j < k
      ensures !At(a + b, SEPARATOR, j)
    {
      AtPrefix(a, b, j);
    }
    IndexIs(a + b, SEPARATOR, k);
  }

  lemma BatchStep(text: string, k: nat)
    requires Index(text, SEPARATOR) == Some(k)
    ensures Batch(text) == Framing([text[..k]] + Batch(text[k + 2..]).frames, Batch(text[k + 2..]).rest)
  {
  }

  lemma {:induction false} FrameEventsConcat<E>(a: seq<string>, b: seq<string>, decode: string -> Option<E>)
    ensures FrameEvents(a + b, decode) == FrameEvents(a, decode) + FrameEvents(b, decode)
  {
    if b == [] {
      assert a + b == a;
    } else {
      var init, frame := b[..|b| - 1], b[|b| - 1];
      FrameEventsConcat(a, init, decode);
      assert a + b == (a + init) + [frame];
      OneMoreFrame(a + init, frame, decode);
      Associate(FrameEvents(a, decode), FrameEvents(init, decode), LineEvents(Split(frame, '\n'), decode));
    }
  }

  // ---- what is handed over, line by line ----------------------------------------

  predicate IsData(line: string) {
    && |line| >= 6 && line[0] == 'd' && line[1] == 'a' && line[2] == 't' && line[3] == 'a'
    && line[4] == ':' && line[5] == ' '
  }

  /** The decoding of what follows the six characters of a data line, if it is one and decodes. */
  function Payload<E>(line: string, decode: string -> Option<E>): Option<E> {
    if IsData(line) then decode(line[6..]) else None
  }

  /** ps are the positions of exactly the lines with a payload, in order, and the events are those payloads. */
  ghost predicate Selects<E>(lines: seq<string>, decode: string -> Option<E>, events: seq<E>, ps: seq<int>) {
    && |events| == |ps|
    && (forall i :: 0 <= i < |ps| ==> 0 <= ps[i] < |lines| && Payload(lines[ps[i]], decode) == Some(events[i]))
    && (forall i, j :: 0 <= i < j < |ps| ==> ps[i] < ps[j])
    && (forall k :: 0 <= k < |lines| && Payload(lines[k], decode).Some? ==> k in ps)
  }

  ghost predicate HandsOver<E>(lines: seq<string>, decode: string -> Option<E>, events: seq<E>) {
    exists ps :: Selects(lines, decode, events, ps)
  }

  /** lines are the lines of a frame. */
  predicate LinesOf(frame: string, lines: seq<string>) {
    Join(lines, '\n') == frame && forall i :: 0 <= i < |lines| ==> '\n' !in lines[i]
  }

  lemma DataPrefix(line: string)
    ensures IsData(line) <==> DATA_FIELD <= line
  {
    if IsData(line) {
      assert line[..6] == DATA_FIELD;
    }
    if DATA_FIELD <= line {
      assert line[..6] == DATA_FIELD;
      assert line[0] == line[..6][0] && line[1] == line[..6][1] && line[2] == line[..6][2];
      assert line[3] == line[..6][3] && line[4] == line[..6][4] && line[5] == line[..6][5];
    }
  }

  lemma {:induction false} LineEventsAreHandedOver<E>(lines: seq<string>, decode: string -> Option<E>)
    ensures HandsOver(lines, decode, LineEvents(lines, decode))
  {
    if lines == [] {
      assert Selects(lines, decode, [], []);
    } else {
      var n := |lines| - 1;
      LineEventsAreHandedOver(lines[..n], decode);
      LastLine(lines, decode);
      WithLastLine(lines, decode, LineEvents(lines[..n], decode));
    }
  }

  lemma WithLastLine<E>(lines: seq<string>, decode: string -> Option<E>, events: seq<E>)
    requires lines != [] && HandsOver(lines[..|lines| - 1], decode, events)
    ensures HandsOver(lines, decode, events + AsSeq(Payload(lines[|lines| - 1], decode)))
  {
    SplitLast(lines);
    OneMoreLine(lines[..|lines| - 1], lines[|lines| - 1], decode, events);
  }

  lemma SplitLast(lines: seq<string>)
    requires lines != []
    ensures lines[..|lines| - 1] + [lines[|lines| - 1]] == lines
  {
  }

  function AsSeq<E>(o: Option<E>): seq<E> {
    if o.Some? then [o.value] else []
  }

  lemma LastLine<E>(lines: seq<string>, decode: string -> Option<E>)
    requires lines != []
    ensures LineEvents(lines, decode) ==
            LineEvents(lines[..|lines| - 1], decode) + AsSeq(Payload(lines[|lines| - 1], decode))
  {
    DataPrefix(lines[|lines| - 1]);
  }

  lemma OneMoreLine<E>(lines: seq<string>, line: string, decode: string -> Option<E>, events: seq<E>)
    requires HandsOver(lines, decode, events)
    ensures HandsOver(lines + [line], decode, events + AsSeq(Payload(line, decode)))
  {
    var ps :| Selects(lines, decode, events, ps);
    OneMorePosition(lines, line, decode, events, ps);
  }

  lemma OneMorePosition<E>(lines: seq<string>, line: string, decode: string -> Option<E>, events: seq<E>, ps: seq<int>)
    requires Selects(lines, decode, events, ps)
    ensures HandsOver(lines + [line], decode, events + AsSeq(Payload(line, decode)))
  {
    var all, p := lines + [line], Payload(line, decode);
    assert forall k :: 0 <= k < |lines| ==> all[k] == lines[k];
    assert all[|lines|] == line;
    if p.Some? {
      var qs := ps + [|lines|];
      assert qs[|ps|] == |lines|;
      assert forall k :: k in ps ==> k in qs;
      assert Selects(all, decode, events + [p.value], qs);
    } else {
      assert events + [] == events;
      assert Selects(all, decode, events, ps);
    }
  }

  function Flat(lists: seq<seq<string>>): seq<string> {
    if lists == [] then [] else Flat(lists[..|lists| - 1]) + lists[|lists| - 1]
  }

  function AllLines(frames: seq<string>): seq<seq<string>> {
    seq(|frames|, i requires 0 <= i < |frames| => Split(frames[i], '\n'))
  }

  lemma {:induction false} LineEventsConcat<E>(a: seq<string>, b: seq<string>, decode: string -> Option<E>)
    ensures LineEvents(a + b, decode) == LineEvents(a, decode) + LineEvents(b, decode)
  {
    if b == [] {
      assert a + b == a;
    } else {
      var init, last := b[..|b| - 1], b[|b| - 1];
      LineEventsConcat(a, init, decode);
      LineEventsSnoc(a + init, last, decode);
      LineEventsSnoc(init, last, decode);
      assert b == init + [last] && a + b == (a + init) + [last];
      Associate(LineEvents(a, decode), LineEvents(init, decode), LineEvents([last], decode));
    }
  }

  lemma LineEventsSnoc<E>(lines: seq<string>, line: string, decode: string -> Option<E>)
    ensures LineEvents(lines + [line], decode) == LineEvents(lines, decode) + LineEvents([line], decode)
  {
    assert (lines + [line])[..|lines|] == lines && [line][..0] == [];
  }

  lemma {:induction false} FrameEventsAreLineEvents<E>(frames: seq<string>, decode: string -> Option<E>)
    ensures FrameEvents(frames, decode) == LineEvents(Flat(AllLines(frames)), decode)
  {
    if frames != [] {
      var n := |frames| - 1;
      FrameEventsAreLineEvents(frames[..n], decode);
      assert AllLines(frames)[..n] == AllLines(frames[..n]);
      LineEventsConcat(Flat(AllLines(frames[..n])), Split(frames[n], '\n'), decode);
    }
  }

  lemma SplitIsLines(frame: string)
    ensures LinesOf(frame, Split(frame, '\n'))
  {
    JoinSplit(frame, '\n');
  }

  ghost predicate FrameDelivers<E>(frame: string, decode: string -> Option<E>, events: seq<E>) {
    exists lines :: LinesOf(frame, lines) && HandsOver(lines, decode, events)
  }

  lemma FrameEventsAreHandedOver<E>(frame: string, decode: string -> Option<E>)
    ensures FrameDelivers(frame, decode, LineEvents(Split(frame, '\n'), decode))
  {
    SplitIsLines(frame);
    LineEventsAreHandedOver(Split(frame, '\n'), decode);
  }

  /** The frames of a text and the lines of each frame, whose data payloads are handed over. */
  ghost predicate Delivers<E>(text: string, decode: string -> Option<E>, events: seq<E>, rest: string) {
    exists frames, lists: seq<seq<string>> ::
      && IsFraming(text, Framing(frames, rest)) && |lists| == |frames|
      && (forall i :: 0 <= i < |frames| ==> LinesOf(frames[i], lists[i]))
      && HandsOver(Flat(lists), decode, events)
  }

  lemma BatchDelivers<E>(text: string, decode: string -> Option<E>)
    ensures Delivers(text, decode, FrameEvents(Batch(text).frames, decode), Batch(text).rest)
  {
    var frames, lists := Batch(text).frames, AllLines(Batch(text).frames);
    BatchIsFraming(text);
    forall i | 0 <= i < |frames| ensures LinesOf(frames[i], lists[i]) {
      SplitIsLines(frames[i]);
    }
    FrameEventsAreLineEvents(frames, decode);
    LineEventsAreHandedOver(Flat(lists), decode);
  }

  lemma OneMoreFrame<E>(done: seq<string>, frame: string, decode: string -> Option<E>)
    ensures FrameEvents(done + [frame], decode) == FrameEvents(done, decode) + LineEvents(Split(frame, '\n'), decode)
  {
    assert (done + [frame])[..|done|] == done;
  }

  /** The `for (const line of chunk.split('\n'))` loop. */
  method FrameLines<E>(frame: string, decode: string -> Option<E>) returns (events: seq<E>)
    ensures events == LineEvents(Split(frame, '\n'), decode)
    ensures FrameDelivers(frame, decode, events)
  {
    FrameEventsAreHandedOver(frame, decode);
    events := EachLine(Split(frame, '\n'), decode);
  }

  method EachLine<E>(lines: seq<string>, decode: string -> Option<E>) returns (events: seq<E>)
    ensures events == LineEvents(lines, decode)
  {
    events := [];
    for i := 0 to |lines|
      invariant events == LineEvents(lines[..i], decode)
    {
      assert lines[..i + 1][..i] == lines[..i];
      if !(DATA_FIELD <= lines[i]) {
        continue;
      }
      var e := decode(lines[i][6..]);
      if e.Some? {
        events := events + [e.value];
      }
    }
    assert lines[..|lines|] == lines;
  }

  /** The inner loop: hand over every complete frame of the buffer. */
  method Drain<E>(input: string, decode: string -> Option<E>) returns (events: seq<E>, buffer: string)
    ensures events == FrameEvents(Batch(input).frames, decode) && buffer == Batch(input).rest
  {
    buffer, events := input, [];
    ghost var done: seq<string> := [];
    var idx := Index(buffer, SEPARATOR);
    while idx.Some?
      invariant idx == Index(buffer, SEPARATOR)
      invariant Batch(input) == Framing(done + Batch(buffer).frames, Batch(buffer).rest)
      invariant events == FrameEvents(done, decode)
      decreases |buffer|
    {
      var chunk := buffer[..idx.value];
      BatchStep(buffer, idx.value);
      buffer := buffer[idx.value + 2..];
      Associate(done, [chunk], Batch(buffer).frames);
      var es := FrameLines(chunk, decode);
      OneMoreFrame(done, chunk, decode);
      events, done := events + es, done + [chunk];
      idx := Index(buffer, SEPARATOR);
    }
    BatchRest(buffer);
    assert done + [] == done;
  }

  /**
   For every way of cutting a text into chunks the loop hands over what one batch split of
   the whole text would, and keeps what that split leaves.
   */
  method Stream<E>(chunks: seq<string>, decode: string -> Option<E>) returns (events: seq<E>, buffer: string)
    ensures events == FrameEvents(Batch(Concat(chunks)).frames, decode)
    ensures buffer == Batch(Concat(chunks)).rest && NoneBefore(buffer, SEPARATOR, |buffer|)
    ensures Delivers(Concat(chunks), decode, events, buffer)
  {
    buffer, events := "", [];
    for i := 0 to |chunks|
      invariant events == FrameEvents(Batch(Concat(chunks[..i])).frames, decode)
      invariant buffer == Batch(Concat(chunks[..i])).rest
    {
      ghost var before := Concat(chunks[..i]);
      assert chunks[..i + 1][..i] == chunks[..i];
      BatchExtends(before, chunks[i]);
      var es;
      es, buffer := Drain(buffer + chunks[i], decode);
      FrameEventsConcat(Batch(before).frames, Batch(Batch(before).rest + chunks[i]).frames, decode);
      events := events + es;
    }
    assert chunks[..|chunks|] == chunks;
    BatchIsFraming(Concat(chunks));
    BatchDelivers(Concat(chunks), decode);
  }
}
