/**
 Server-Sent Events (WHATWG HTML, section 9.2) as this system speaks them: one printer in the
 daemon (src/transports.ts) and three readers written independently of each other: the Governor's
 line reader (governor/src/event_bridge.rs), `stavr tail`'s incremental line reader (src/tail.ts)
 and `stavr ask`'s blank-line splitter (src/steward-ask-cli.ts).
 */
module SseFraming {
  import opened Wrappers
  import opened Strings

  // ---------------------------------------------------------------- whitespace

  /** The characters each trimming function removes: ECMAScript WhiteSpace and LineTerminator, Unicode
      White_Space as Rust knows it, and the line ends `trim_end_matches` is given. */
  datatype Space = Js | Rust | LineEnd {
    predicate Has(c: char) {
      match this
      case Js => '\U{9}' <= c <= '\U{D}' || c == ' ' || c == '\U{FEFF}' || CommonSpace(c)
      case Rust => '\U{9}' <= c <= '\U{D}' || c == ' ' || c == '\U{85}' || CommonSpace(c)
      case LineEnd => c == '\r' || c == '\n'
    }
  }

  predicate CommonSpace(c: char) {
    c == '\U{A0}' || c == '\U{1680}' || '\U{2000}' <= c <= '\U{200A}'
    || c == '\U{2028}' || c == '\U{2029}' || c == '\U{202F}' || c == '\U{205F}' || c == '\U{3000}'
  }

  function TrimStart(s: string, space: Space): string {
    if s != [] && space.Has(s[0]) then TrimStart(s[1..], space) else s
  }

  function TrimEnd(s: string, space: Space): string {
    if s != [] && space.Has(Last(s)) then TrimEnd(Front(s), space) else s
  }

  function JsTrim(s: string): string { TrimEnd(TrimStart(s, Js), Js) }
  function JsTrimStart(s: string): string { TrimStart(s, Js) }
  function RustTrimStart(s: string): string { TrimStart(s, Rust) }

  /** A line without its trailing carriage returns and line feeds. */
  function StripLineEnd(line: string): string { TrimEnd(line, LineEnd) }

  function StripAll(lines: seq<string>): (r: seq<string>)
    ensures |r| == |lines|
    ensures forall i :: 0 <= i < |lines| ==> r[i] == StripLineEnd(lines[i])
  {
    if lines == [] then [] else [StripLineEnd(lines[0])] + StripAll(lines[1..])
  }

  // ---------------------------------------------------------------- one block of fields

  /** What a reader has gathered since the last blank line: the text after the last `event:` and
      the texts after each `data:`. */
  datatype Block = Block(name: Option<string>, data: seq<string>)

  const EMPTY: Block := Block(None, [])

  function AddLine(b: Block, line: string): Block {
    if "event:" <= line then b.(name := Some(line[6..]))
    else if "data:" <= line then b.(data := b.data + [line[5..]])
    else b
  }

  function AddLines(b: Block, lines: seq<string>): Block
    decreases |lines|
  {
    if lines == [] then b else AddLines(AddLine(b, lines[0]), lines[1..])
  }

  function TrimAll(parts: seq<string>, space: Space): (r: seq<string>)
    ensures |r| == |parts|
    ensures forall i :: 0 <= i < |parts| ==> r[i] == TrimStart(parts[i], space)
  {
    if parts == [] then [] else [TrimStart(parts[0], space)] + TrimAll(parts[1..], space)
  }

  datatype SseEvent = SseEvent(name: string, data: string)
  datatype AskEvent = AskEvent(event: Option<string>, data: string)

  function RustEvent(b: Block): SseEvent
    requires b.name.Some?
  {
    SseEvent(RustTrimStart(b.name.value), Join(TrimAll(b.data, Rust), "\n"))
  }

  function AskEventOf(b: Block): AskEvent {
    AskEvent(match b.name case None => None case Some(n) => Some(JsTrim(n)),
             Join(TrimAll(b.data, Js), "\n"))
  }

  function MapAsk(bs: seq<Block>): (r: seq<AskEvent>)
    ensures |r| == |bs|
    ensures forall i :: 0 <= i < |bs| ==> r[i] == AskEventOf(bs[i])
  {
    if bs == [] then [] else [AskEventOf(bs[0])] + MapAsk(bs[1..])
  }

  predicate AllNamed(bs: seq<Block>) { forall i :: 0 <= i < |bs| ==> bs[i].name.Some? }

  function MapRust(bs: seq<Block>): (r: seq<SseEvent>)
    requires AllNamed(bs)
    ensures |r| == |bs|
    ensures forall i :: 0 <= i < |bs| ==> r[i] == RustEvent(bs[i])
  {
    if bs == [] then [] else [RustEvent(bs[0])] + MapRust(bs[1..])
  }

  function Named(bs: seq<Block>): (r: seq<Block>)
    ensures AllNamed(r)
  {
    if bs == [] then [] else (if bs[0].name.Some? then [bs[0]] else []) + Named(bs[1..])
  }

  // ---------------------------------------------------------------- the Governor's reader

  /** Every newline ends a line, and a last line may lack its newline. */
  function RawLines(s: string): seq<string> {
    var parts := Split(s, "\n");
    if Last(parts) == [] then Front(parts) else parts
  }

  /** The lines `read_line` hands over, without their line ends. */
  function ReadLines(s: string): seq<string> { StripAll(RawLines(s)) }

  /** The named blocks dispatched while reading `lines` with `b` already gathered. What the end of
      the stream leaves unterminated is dropped. */
  function RustScan(lines: seq<string>, b: Block): (out: seq<Block>)
    ensures AllNamed(out)
    decreases |lines|
  {
    if lines == [] then []
    else if lines[0] == [] then
      (if b.name.Some? then [b] else []) + RustScan(lines[1..], EMPTY)
    else RustScan(lines[1..], AddLine(b, lines[0]))
  }

  function RustBlocks(s: string): (out: seq<Block>)
    ensures AllNamed(out)
  {
    RustScan(ReadLines(s), EMPTY)
  }

  function RustParse(s: string): seq<SseEvent> { MapRust(RustBlocks(s)) }

  // ---------------------------------------------------------------- the ask reader

  function BlockOf(text: string): Block { AddLines(EMPTY, Split(text, "\n")) }

  function BlocksOf(texts: seq<string>): (bs: seq<Block>)
    ensures |bs| == |texts|
    ensures forall i :: 0 <= i < |texts| ==> bs[i] == BlockOf(texts[i])
  {
    if texts == [] then [] else [BlockOf(texts[0])] + BlocksOf(texts[1..])
  }

  function AskBlocks(buf: string): seq<Block> { BlocksOf(Front(Split(buf, "\n\n"))) }

  function AskParse(buf: string): seq<AskEvent> { MapAsk(AskBlocks(buf)) }

  function AskRemainder(buf: string): string { Last(Split(buf, "\n\n")) }

  // ---------------------------------------------------------------- agreement on any stream

  lemma {:induction false} AddLinesAppend(b: Block, xs: seq<string>, ys: seq<string>)
    ensures AddLines(b, xs + ys) == AddLines(AddLines(b, xs), ys)
    decreases |xs|
  {
    if xs == [] {
      assert xs + ys == ys;
    } else {
      assert (xs + ys)[1..] == xs[1..] + ys;
      AddLinesAppend(AddLine(b, xs[0]), xs[1..], ys);
    }
  }

  /** Lines none of which is blank only gather. */
  lemma {:induction false} ScanGathers(xs: seq<string>, rest: seq<string>, b: Block)
    requires forall i :: 0 <= i < |xs| ==> xs[i] != []
    ensures RustScan(xs + rest, b) == RustScan(rest, AddLines(b, xs))
    decreases |xs|
  {
    if xs == [] {
      assert xs + rest == rest;
    } else {
      assert (xs + rest)[1..] == xs[1..] + rest;
      ScanGathers(xs[1..], rest, AddLine(b, xs[0]));
    }
  }

  /** The lines of a text without a blank line inside: only the first may be blank. */
  predicate BlankOnlyFirst(lines: seq<string>) {
    forall i :: 0 < i < |lines| ==> lines[i] != []
  }

  /** Reading one such text from the start of a block, then going on. */
  lemma {:induction false} ScanBlock(lines: seq<string>, rest: seq<string>)
    requires BlankOnlyFirst(lines)
    ensures RustScan(lines + rest, EMPTY) == RustScan(rest, AddLines(EMPTY, lines))
  {
    if lines != [] && lines[0] == [] {
      assert (lines + rest)[1..] == lines[1..] + rest;
      assert AddLine(EMPTY, lines[0]) == EMPTY;
      ScanGathers(lines[1..], rest, EMPTY);
    } else {
      ScanGathers(lines, rest, EMPTY);
    }
  }

  predicate NoBlankLine(text: string) {
    forall j :: 0 <= j <= |text| ==> !OccursAt(text, "\n\n", j)
  }

  lemma {:induction false} RestHasNoBlankLine(text: string, i: nat)
    requires NoBlankLine(text) && i < |text| && text[i] == '\n'
    ensures NoBlankLine(text[i + 1..])
    ensures text[i + 1..] != [] ==> text[i + 1] != '\n'
  {
    var rest := text[i + 1..];
    forall j | 0 <= j <= |rest| ensures !OccursAt(rest, "\n\n", j) {
      if j + 2 <= |rest| {
        assert text[i + 1 + j..i + 1 + j + 2] == rest[j..j + 2];
        assert !OccursAt(text, "\n\n", i + 1 + j);
      }
    }
    assert !OccursAt(text, "\n\n", i);
  }

  lemma {:induction false} FirstPartEmpty(s: string)
    ensures Split(s, "\n")[0] == [] <==> s == [] || s[0] == '\n'
  {
  }

  lemma {:induction false} ConsBlankOnlyFirst(a: string, tail: seq<string>)
    requires tail != [] && BlankOnlyFirst(Front(tail)) && (|tail| > 1 ==> tail[0] != [])
    ensures BlankOnlyFirst(Front([a] + tail)) && Last([a] + tail) == Last(tail)
  {
  }

  /** Only the first and the last line of a text without a blank line can be empty, and the last
      one only if the text ends in a newline. */
  lemma {:induction false} PartsOfBlock(text: string)
    requires NoBlankLine(text)
    ensures var parts := Split(text, "\n");
      && BlankOnlyFirst(Front(parts))
      && (|parts| > 1 && Last(parts) == [] ==> text != [] && Last(text) == '\n')
    decreases |text|
  {
    match IndexOf(text, "\n")
    case None =>
    case Some(i) =>
      assert text[i] == text[i..i + 1][0];
      var rest := text[i + 1..];
      RestHasNoBlankLine(text, i);
      PartsOfBlock(rest);
      FirstPartEmpty(rest);
      SplitFirst(text, "\n", text[..i], rest);
      ConsBlankOnlyFirst(text[..i], Split(rest, "\n"));
      assert rest != [] ==> Last(rest) == Last(text);
  }

  lemma {:induction false} PartsAreWithin(s: string, k: nat, c: char)
    requires k < |Split(s, "\n")| && c in Split(s, "\n")[k]
    ensures c in s
    decreases |s|
  {
    match IndexOf(s, "\n")
    case None =>
    case Some(i) =>
      if k == 0 {
        var j :| 0 <= j < i && s[..i][j] == c;
        assert s[j] == c;
      } else {
        var rest := s[i + 1..];
        PartsAreWithin(rest, k - 1, c);
        var j :| 0 <= j < |rest| && rest[j] == c;
        assert s[i + 1 + j] == c;
      }
  }

  lemma {:induction false} PartsStripToThemselves(s: string, k: nat)
    requires '\r' !in s && k < |Split(s, "\n")|
    ensures StripLineEnd(Split(s, "\n")[k]) == Split(s, "\n")[k]
  {
    hide Split;
    var part := Split(s, "\n")[k];
    PartsHoldNoSeparator(s, "\n", k);
    if part != [] {
      var c := Last(part);
      assert c in part;
      PartsAreWithin(s, k, c);
      assert !OccursAt(part, "\n", |part| - 1) && part[|part| - 1..] == [c];
    }
  }

  lemma {:induction false} ReadLinesAreRaw(s: string)
    requires '\r' !in s
    ensures ReadLines(s) == RawLines(s)
  {
    forall k | 0 <= k < |RawLines(s)| ensures StripLineEnd(RawLines(s)[k]) == RawLines(s)[k] {
      PartsStripToThemselves(s, k);
    }
  }

  lemma {:induction false} PartsAroundBlankLine(b: string, r: string)
    ensures Split(b + "\n\n" + r, "\n") == Split(b, "\n") + ([""] + Split(r, "\n"))
  {
    hide Split;
    var t := "" + ['\n'] + r;
    SplitAtWrittenSeparator("", '\n', r);
    SplitAroundSeparator(b, '\n', t);
    assert b + "\n\n" + r == b + ['\n'] + t;
  }

  lemma {:induction false} LinesAroundBlankLine(b: string, r: string)
    ensures RawLines(b + "\n\n" + r) == Split(b, "\n") + ([""] + RawLines(r))
  {
    var xs, ys := Split(b, "\n"), Split(r, "\n");
    PartsAroundBlankLine(b, r);
    DropEmptyLast(xs, [""] + ys);
    DropEmptyLast([""], ys);
  }

  lemma {:induction false} DropEmptyLast(xs: seq<string>, ys: seq<string>)
    requires ys != []
    ensures (if Last(xs + ys) == [] then Front(xs + ys) else xs + ys)
            == xs + (if Last(ys) == [] then Front(ys) else ys)
  {
  }

  /** The two block readers, written independently, see the same named blocks in every stream
      without a carriage return, well formed or not. */
  lemma {:induction false} ReadersSeeTheSameBlocks(s: string)
    requires '\r' !in s
    ensures RustBlocks(s) == Named(AskBlocks(s))
    decreases |s|
  {
    ReadLinesAreRaw(s);
    IndexOfIsFirst(s, "\n\n");
    match IndexOf(s, "\n\n")
    case None =>
      UnterminatedIsDropped(s);
    case Some(i) =>
      var b, r := s[..i], s[i + 2..];
      assert s == b + "\n\n" + r;
      CutBeforeBlankLine(s, i);
      RustReadsBlock(b, r);
      AskReadsBlock(b, r);
      ReadersSeeTheSameBlocks(r);
      ReadLinesAreRaw(r);
  }

  /** The line reader dispatches the block before the first blank line, then starts afresh. */
  lemma {:induction false} RustReadsBlock(b: string, r: string)
    requires BlankOnlyFirst(Split(b, "\n"))
    ensures RustScan(RawLines(b + "\n\n" + r), EMPTY) == Named([BlockOf(b)]) + RustScan(RawLines(r), EMPTY)
  {
    var rest := [""] + RawLines(r);
    LinesAroundBlankLine(b, r);
    ScanBlock(Split(b, "\n"), rest);
    assert rest[1..] == RawLines(r);
    assert Named([BlockOf(b)]) == if BlockOf(b).name.Some? then [BlockOf(b)] else [];
  }

  lemma {:induction false} AskReadsBlock(b: string, r: string)
    requires IndexOf(b + "\n\n" + r, "\n\n") == Some(|b|)
    ensures AskBlocks(b + "\n\n" + r) == [BlockOf(b)] + AskBlocks(r)
    ensures Named(AskBlocks(b + "\n\n" + r)) == Named([BlockOf(b)]) + Named(AskBlocks(r))
  {
    hide Split, IndexOf, BlockOf;
    var s := b + "\n\n" + r;
    SplitFirst(s, "\n\n", b, r);
    var parts := Split(r, "\n\n");
    FrontOfCons(b, parts, []);
    assert Front(Split(s, "\n\n")) + [] == [b] + (Front(parts) + []);
    assert Front(Split(s, "\n\n")) == [b] + Front(parts);
    assert ([b] + Front(parts))[1..] == Front(parts);
    assert ([BlockOf(b)] + AskBlocks(r))[1..] == AskBlocks(r);
  }

  /** Before the first blank line there is none, and no newline right before it. */
  lemma {:induction false} CutBeforeBlankLine(s: string, i: nat)
    requires OccursAt(s, "\n\n", i) && forall j :: 0 <= j < i ==> !OccursAt(s, "\n\n", j)
    ensures BlankOnlyFirst(Split(s[..i], "\n"))
  {
    var b := s[..i];
    forall j | 0 <= j <= |b| ensures !OccursAt(b, "\n\n", j) {
      if j + 2 <= |b| {
        assert b[j..j + 2] == s[j..j + 2];
        assert !OccursAt(s, "\n\n", j);
      }
    }
    PartsOfBlock(b);
    assert s[i] == s[i..i + 2][0] == '\n';
    assert i > 0 ==> !OccursAt(s, "\n\n", i - 1);
  }

  lemma {:induction false} UnterminatedIsDropped(s: string)
    requires NoBlankLine(s)
    ensures RustScan(RawLines(s), EMPTY) == []
  {
    PartsOfBlock(s);
    var lines := RawLines(s);
    var parts := Split(s, "\n");
    forall i | 0 < i < |lines| ensures lines[i] != [] {
      if i == |parts| - 1 {
        assert parts[i] == Last(parts);
      } else {
        assert lines[i] == parts[i] == Front(parts)[i];
      }
    }
    ScanBlock(lines, []);
    assert lines + [] == lines;
  }

  // ---------------------------------------------------------------- the tail reader

  /** `streamSse` between two chunks: the unfinished line, the pending data, the events so far. */
  datatype Tail = Tail(buffer: string, accum: string, events: seq<string>)

  const TAIL_START: Tail := Tail("", "", [])

  function TailLine(t: Tail, line: string): Tail {
    if "data: " <= line then t.(accum := t.accum + line[6..])
    else if line == "" && t.accum != "" then t.(accum := "", events := t.events + [t.accum])
    else t
  }

  function TailLines(t: Tail, lines: seq<string>): Tail
    decreases |lines|
  {
    if lines == [] then t else TailLines(TailLine(t, lines[0]), lines[1..])
  }

  function TailFeed(t: Tail, chunk: string): Tail {
    var lines := Split(t.buffer + chunk, "\n");
    TailLines(t, Front(lines)).(buffer := Last(lines))
  }

  lemma {:induction false} TailLinesAppend(t: Tail, xs: seq<string>, ys: seq<string>)
    ensures TailLines(t, xs + ys) == TailLines(TailLines(t, xs), ys)
    decreases |xs|
  {
    if xs == [] {
      assert xs + ys == ys;
    } else {
      assert (xs + ys)[1..] == xs[1..] + ys;
      TailLinesAppend(TailLine(t, xs[0]), xs[1..], ys);
    }
  }

  lemma {:induction false} TailLinesKeepBuffer(t: Tail, lines: seq<string>, buffer: string)
    ensures TailLines(t.(buffer := buffer), lines) == TailLines(t, lines).(buffer := buffer)
    decreases |lines|
  {
    if lines != [] {
      TailLinesKeepBuffer(TailLine(t, lines[0]), lines[1..], buffer);
    }
  }

  /** Reading two chunks is reading their concatenation, wherever the cut falls. */
  lemma {:induction false} TailChunksDoNotMatter(t: Tail, a: string, b: string)
    ensures TailFeed(TailFeed(t, a), b) == TailFeed(t, a + b)
  {
    var text := t.buffer + a;
    var lines := Split(text, "\n");
    var more := Split(Last(lines) + b, "\n");
    SplitAppend(text, b, "\n");
    assert t.buffer + (a + b) == text + b;
    FrontOfAppend(Front(lines), more);
    TailLinesAppend(t, Front(lines), Front(more));
    TailLinesKeepBuffer(TailLines(t, Front(lines)), Front(more), Last(lines));
  }

  lemma {:induction false} FrontOfAppend<T>(xs: seq<T>, ys: seq<T>)
    requires ys != []
    ensures Front(xs + ys) == xs + Front(ys) && Last(xs + ys) == Last(ys)
  {
  }

  /** `stavr tail`'s loop over the chunks of a response body. */
  method StreamSse(chunks: seq<string>) returns (events: seq<string>, buffer: string, accum: string)
    ensures Tail(buffer, accum, events) == TailFeed(TAIL_START, Concat(chunks))
  {
    hide Split;
    buffer, accum, events := "", "", [];
    TailFeedsNothing(TAIL_START);
    for k := 0 to |chunks|
      invariant Tail(buffer, accum, events) == TailFeed(TAIL_START, Concat(chunks[..k]))
    {
      ghost var before := Tail(buffer, accum, events);
      TailChunksDoNotMatter(TAIL_START, Concat(chunks[..k]), chunks[k]);
      ConcatSnoc(chunks, k);
      buffer := buffer + chunks[k];
      var lines := Split(buffer, "\n");
      buffer := Last(lines);
      lines := Front(lines);
      for j := 0 to |lines|
        invariant Tail(before.buffer, accum, events) == TailLines(before, lines[..j])
      {
        assert lines[..j + 1] == lines[..j] + [lines[j]];
        TailLinesAppend(before, lines[..j], [lines[j]]);
        var line := lines[j];
        if "data: " <= line {
          accum := accum + line[6..];
        } else if line == "" && accum != "" {
          events := events + [accum];
          accum := "";
        }
      }
      assert lines[..|lines|] == lines;
    }
    assert chunks[..|chunks|] == chunks;
  }

  // ---------------------------------------------------------------- the ask reader's loop

  /** A longer buffer parses to the events of the shorter one, then those its remainder completes. */
  lemma {:induction false} AskChunksDoNotMatter(a: string, b: string)
    ensures AskBlocks(a + b) == AskBlocks(a) + AskBlocks(AskRemainder(a) + b)
    ensures AskRemainder(a + b) == AskRemainder(AskRemainder(a) + b)
  {
    var parts, more := Split(a, "\n\n"), Split(AskRemainder(a) + b, "\n\n");
    SplitAppend(a, b, "\n\n");
    FrontOfAppend(Front(parts), more);
    BlocksOfAppend(Front(parts), Front(more));
  }

  lemma {:induction false} BlocksOfAppend(xs: seq<string>, ys: seq<string>)
    ensures BlocksOf(xs + ys) == BlocksOf(xs) + BlocksOf(ys)
  {
  }

  /** What `stavr ask` shows: everything but pings, up to and including the first answer. */
  function Shown(evs: seq<AskEvent>): seq<AskEvent> {
    if evs == [] then []
    else if evs[0].event == Some("ping") then Shown(evs[1..])
    else if evs[0].event == Some("steward_response") then [evs[0]]
    else [evs[0]] + Shown(evs[1..])
  }

  predicate Answered(evs: seq<AskEvent>) {
    exists e <- evs :: e.event == Some("steward_response")
  }

  /** No ping, and nothing before it was an answer. */
  predicate IsShown(before: seq<AskEvent>, e: AskEvent) { e.event != Some("ping") && !Answered(before) }

  /** `picks` are the indices of the events that are no pings and have no answer before them, and `shown` these
      events. */
  ghost predicate ShownAt(evs: seq<AskEvent>, picks: seq<nat>, shown: seq<AskEvent>) {
    && Increasing(picks) && |picks| == |shown|
    && (forall i: nat :: i in picks <==> i < |evs| && IsShown(evs[..i], evs[i]))
    && (forall k :: 0 <= k < |picks| ==> picks[k] < |evs| && shown[k] == evs[picks[k]])
  }

  lemma {:induction false} ShowNext(evs: seq<AskEvent>, picks: seq<nat>, shown: seq<AskEvent>, e: AskEvent)
    requires ShownAt(evs, picks, shown)
    ensures if IsShown(evs, e) then ShownAt(evs + [e], picks + [|evs|], shown + [e])
            else ShownAt(evs + [e], picks, shown)
  {
    PickNext(picks, |evs|);
    hide Increasing, IsShown;
    assert forall i :: 0 <= i <= |evs| ==> (evs + [e])[..i] == evs[..i];
    assert evs[..|evs|] == evs;
  }

  lemma {:induction false} ShowOneMore(front: seq<AskEvent>, e: AskEvent)
    ensures Shown(front + [e]) == if IsShown(front, e) then Shown(front) + [e] else Shown(front)
  {
    ShownAppend(front, [e]);
    assert [e][1..] == [] && Shown([]) == [];
    assert Shown(front) + [] == Shown(front);
  }

  /** What is shown are, in order, exactly those. */
  lemma {:induction false} ShownExactly(evs: seq<AskEvent>) returns (picks: seq<nat>)
    ensures ShownAt(evs, picks, Shown(evs))
  {
    if evs == [] {
      picks := [];
    } else {
      hide *;
      var front, e := evs[..|evs| - 1], evs[|evs| - 1];
      var before := ShownExactly(front);
      assert evs == front + [e];
      ShowOneMore(front, e);
      ShowNext(front, before, Shown(front), e);
      picks := if IsShown(front, e) then before + [|front|] else before;
    }
  }

  lemma {:induction false} ShownAppend(xs: seq<AskEvent>, ys: seq<AskEvent>)
    ensures Shown(xs + ys) == if Answered(xs) then Shown(xs) else Shown(xs) + Shown(ys)
  {
    if xs == [] {
      assert xs + ys == ys;
    } else {
      assert (xs + ys)[1..] == xs[1..] + ys;
      ShownAppend(xs[1..], ys);
      assert forall e :: e in xs <==> e == xs[0] || e in xs[1..];
    }
  }

  method ParseSseChunks(buf: string) returns (parsed: seq<AskEvent>, remainder: string)
    ensures parsed == AskParse(buf) && remainder == AskRemainder(buf)
  {
    hide Split, Join, TrimStart, TrimEnd;
    var blocks := Split(buf, "\n\n");
    remainder := Last(blocks);
    blocks := Front(blocks);
    parsed := [];
    for k := 0 to |blocks|
      invariant |parsed| == k
      invariant forall i :: 0 <= i < k ==> parsed[i] == AskEventOf(BlockOf(blocks[i]))
    {
      var event: Option<string>, dataLines: seq<string> := None, [];
      var lines := Split(blocks[k], "\n");
      ghost var b := EMPTY;
      for j := 0 to |lines|
        invariant b == AddLines(EMPTY, lines[..j])
        invariant event == AskEventOf(b).event
        invariant dataLines == TrimAll(b.data, Js)
      {
        assert lines[..j + 1] == lines[..j] + [lines[j]];
        AddLinesAppend(EMPTY, lines[..j], [lines[j]]);
        b := AddLine(b, lines[j]);
        if "event:" <= lines[j] {
          event := Some(JsTrim(lines[j][6..]));
        } else if "data:" <= lines[j] {
          dataLines := dataLines + [JsTrimStart(lines[j][5..])];
        }
      }
      assert lines[..|lines|] == lines;
      parsed := parsed + [AskEvent(event, Join(dataLines, "\n"))];
    }
  }

  lemma {:induction false} NothingAsked()
    ensures AskParse("") == [] && AskRemainder("") == "" && Shown([]) == [] && !Answered([])
  {
  }

  /** `stavr ask`'s loop: what it shows does not depend on how the body was cut into chunks. */
  method StreamResponse(chunks: seq<string>) returns (shown: seq<AskEvent>)
    ensures shown == Shown(AskParse(Concat(chunks)))
  {
    hide AskParse, AskRemainder, Shown, Answered;
    shown := [];
    var buf := "";
    ghost var text := "";
    ghost var seen: seq<AskEvent> := [];
    NothingAsked();
    for k := 0 to |chunks|
      invariant text == Concat(chunks[..k]) && seen == AskParse(text)
      invariant shown == Shown(seen) && !Answered(seen) && buf == AskRemainder(text)
    {
      ConcatSnoc(chunks, k);
      AskEventsExtend(text, chunks[k]);
      var parsed, remainder := ParseSseChunks(buf + chunks[k]);
      var done;
      shown, done := ShowAll(shown, parsed, seen);
      if done {
        assert chunks == chunks[..k + 1] + chunks[k + 1..];
        ConcatAppend(chunks[..k + 1], chunks[k + 1..]);
        AskEventsExtend(text + chunks[k], Concat(chunks[k + 1..]));
        return;
      }
      buf, text, seen := remainder, text + chunks[k], seen + parsed;
    }
    assert chunks[..|chunks|] == chunks;
  }

  /** The inner loop over the events of one chunk; `done` once an answer was shown. */
  method ShowAll(before: seq<AskEvent>, parsed: seq<AskEvent>, ghost seen: seq<AskEvent>)
    returns (shown: seq<AskEvent>, done: bool)
    requires before == Shown(seen) && !Answered(seen)
    ensures !done ==> shown == Shown(seen + parsed) && !Answered(seen + parsed)
    ensures done ==> forall rest: seq<AskEvent> :: shown == Shown((seen + parsed) + rest)
  {
    shown, done := before, false;
    for j := 0 to |parsed|
      invariant shown == Shown(seen) + Shown(parsed[..j])
      invariant !Answered(parsed[..j])
    {
      assert parsed[..j + 1] == parsed[..j] + [parsed[j]];
      ShownAppend(parsed[..j], [parsed[j]]);
      if parsed[j].event == Some("ping") {
        continue;
      }
      shown := shown + [parsed[j]];
      if parsed[j].event == Some("steward_response") {
        forall rest: seq<AskEvent> ensures shown == Shown((seen + parsed) + rest) {
          ShownStopsAtAnswer(seen, parsed, rest, j);
        }
        return shown, true;
      }
    }
    assert parsed[..|parsed|] == parsed;
    ShownAppend(seen, parsed);
  }

  lemma {:induction false} MapAskAppend(xs: seq<Block>, ys: seq<Block>)
    ensures MapAsk(xs + ys) == MapAsk(xs) + MapAsk(ys)
  {
  }

  lemma {:induction false} AskEventsExtend(a: string, b: string)
    ensures AskParse(a + b) == AskParse(a) + AskParse(AskRemainder(a) + b)
    ensures AskRemainder(a + b) == AskRemainder(AskRemainder(a) + b)
  {
    AskChunksDoNotMatter(a, b);
    MapAskAppend(AskBlocks(a), AskBlocks(AskRemainder(a) + b));
  }

  /** Once an answer has been shown, nothing that follows it in the stream matters. */
  lemma {:induction false} ShownStopsAtAnswer(seen: seq<AskEvent>, parsed: seq<AskEvent>, rest: seq<AskEvent>, j: nat)
    requires j < |parsed| && parsed[j].event == Some("steward_response")
    requires !Answered(seen) && !Answered(parsed[..j])
    ensures Shown((seen + parsed) + rest) == Shown(seen) + (Shown(parsed[..j]) + [parsed[j]])
  {
    assert (seen + parsed)[|seen| + j] == parsed[j];
    assert Answered(seen + parsed);
    assert Shown(parsed[j..]) == [parsed[j]];
    hide Shown, Answered;
    ShownAppend(seen + parsed, rest);
    ShownAppend(seen, parsed);
    assert parsed == parsed[..j] + parsed[j..];
    ShownAppend(parsed[..j], parsed[j..]);
  }

  /** Parsing a truncated stream yields the first events of the whole one. */
  lemma {:induction false} TruncationYieldsPrefix(p: string, q: string)
    ensures AskBlocks(p) <= AskBlocks(p + q)
    ensures '\r' !in p + q ==> RustBlocks(p) <= RustBlocks(p + q)
  {
    AskChunksDoNotMatter(p, q);
    if '\r' !in p + q {
      ReadersSeeTheSameBlocks(p) by {
        forall i | 0 <= i < |p| ensures p[i] != '\r' { assert (p + q)[i] == p[i]; }
      }
      ReadersSeeTheSameBlocks(p + q);
      NamedAppend(AskBlocks(p), AskBlocks(AskRemainder(p) + q));
    }
  }

  lemma {:induction false} TwoLines(line: string, last: string)
    requires '\n' !in line && '\n' !in last && last != []
    ensures ReadLines(line + ['\n'] + last) == [StripLineEnd(line), StripLineEnd(last)]
  {
    SplitAtWrittenSeparator(line, '\n', last);
    SplitWithoutSeparator(last, '\n');
  }

  lemma {:induction false} ScanTwoLines(line: string, second: string)
    requires "event:" <= line
    ensures RustScan([line, second], EMPTY) == if second == [] then [AddLine(EMPTY, line)] else []
  {
    var lines, b := [line, second], AddLine(EMPTY, line);
    assert line != [] && lines[1..] == [second] && |[second][1..]| == 0;
    assert RustScan(lines, EMPTY) == RustScan([second], b);
  }

  /** The block gathered once `lines` are read. */
  function GatheredAfter(lines: seq<string>, b: Block): Block
    decreases |lines|
  {
    if lines == [] then b
    else if lines[0] == [] then GatheredAfter(lines[1..], EMPTY)
    else GatheredAfter(lines[1..], AddLine(b, lines[0]))
  }

  lemma {:induction false} ScanAppend(xs: seq<string>, ys: seq<string>, b: Block)
    ensures RustScan(xs + ys, b) == RustScan(xs, b) + RustScan(ys, GatheredAfter(xs, b))
    decreases |xs|
  {
    hide AddLine;
    if xs == [] {
      assert xs + ys == ys;
    } else {
      assert (xs + ys)[1..] == xs[1..] + ys;
      ScanAppend(xs[1..], ys, if xs[0] == [] then EMPTY else AddLine(b, xs[0]));
    }
  }

  lemma {:induction false} ScanOneLine(line: string, b: Block)
    ensures RustScan([line], b) == if line == [] && b.name.Some? then [b] else []
  {
    assert |[line][1..]| == 0;
  }

  /** What the complete lines of a stream have gathered, and its last line, without a newline. */
  function Pending(p: string): Block { GatheredAfter(StripAll(Front(Split(p, "\n"))), EMPTY) }

  function LastLine(p: string): string { Last(Split(p, "\n")) }

  /** The cut falls behind one or more carriage returns that begin a line, while a named block is pending. */
  predicate CutAfterReturns(p: string) {
    LastLine(p) != [] && StripLineEnd(LastLine(p)) == [] && Pending(p).name.Some?
  }

  lemma {:induction false} StripAllAppend(xs: seq<string>, ys: seq<string>)
    ensures StripAll(xs + ys) == StripAll(xs) + StripAll(ys)
  {
  }

  /** However a stream goes on, its complete lines are read for good, and then its last line with the rest. */
  lemma {:induction false} ReadLinesAppend(p: string, q: string)
    ensures ReadLines(p + q) == StripAll(Front(Split(p, "\n"))) + ReadLines(LastLine(p) + q)
  {
    hide Split, StripAll;
    var front, rest := Front(Split(p, "\n")), Split(LastLine(p) + q, "\n");
    SplitAppend(p, q, "\n");
    assert Front(front + rest) == front + Front(rest) && Last(front + rest) == Last(rest);
    StripAllAppend(front, RawLines(LastLine(p) + q));
  }

  lemma {:induction false} BlocksOfStream(p: string, q: string)
    ensures RustBlocks(p + q) == RustScan(StripAll(Front(Split(p, "\n"))), EMPTY) + RustScan(ReadLines(LastLine(p) + q), Pending(p))
  {
    hide Split, StripAll, RustScan, ReadLines;
    ReadLinesAppend(p, q);
    ScanAppend(StripAll(Front(Split(p, "\n"))), ReadLines(LastLine(p) + q), EMPTY);
  }

  lemma {:induction false} OneUnendedLine(line: string)
    requires '\n' !in line
    ensures ReadLines(line) == if line == [] then [] else [StripLineEnd(line)]
  {
    SplitWithoutSeparator(line, '\n');
    assert Split(line, "\n") == [line];
  }

  /** The blocks of a stream that ends here. */
  lemma {:induction false} BlocksOfCutStream(p: string)
    ensures RustBlocks(p) == RustScan(StripAll(Front(Split(p, "\n"))), EMPTY) + if CutAfterReturns(p) then [Pending(p)] else []
  {
    hide Split, StripAll, Pending;
    BlocksOfStream(p, "");
    assert p + "" == p && LastLine(p) + "" == LastLine(p);
    LastPartHoldsNone(p, '\n');
    OneUnendedLine(LastLine(p));
    if LastLine(p) != [] { ScanOneLine(StripLineEnd(LastLine(p)), Pending(p)); }
  }

  /** One more ordinary character makes the last line no blank one. */
  lemma {:induction false} OrdinaryCharacterEndsNothing(p: string)
    ensures RustBlocks(p + "x") == RustScan(StripAll(Front(Split(p, "\n"))), EMPTY)
  {
    hide Split, StripAll, Pending;
    var line := LastLine(p) + "x";
    BlocksOfStream(p, "x");
    LastPartHoldsNone(p, '\n');
    OneUnendedLine(line);
    TrimEndShortens(line, LineEnd);
    ScanOneLine(line, Pending(p));
  }

  /** Reading a stream cut anywhere yields the first blocks of every continuation exactly when the cut does not
      fall behind carriage returns that begin a line while a named block is pending: those look like a blank line
      that ends the block. Streams with CRLF line ends are safe everywhere else. */
  lemma {:induction false} TruncationIsSafeExactlyWhen(p: string)
    ensures (forall q :: RustBlocks(p) <= RustBlocks(p + q)) <==> !CutAfterReturns(p)
  {
    hide RustBlocks, Pending, LastLine;
    var done := RustScan(StripAll(Front(Split(p, "\n"))), EMPTY);
    hide RustScan, StripAll, Split;
    BlocksOfCutStream(p);
    if CutAfterReturns(p) {
      OrdinaryCharacterEndsNothing(p);
      assert |RustBlocks(p)| > |RustBlocks(p + "x")|;
    } else {
      forall q ensures RustBlocks(p) <= RustBlocks(p + q) {
        BlocksOfStream(p, q);
      }
    }
  }

  /** With a carriage return that fails for the line reader: whatever the event line, a stream cut
      right after a lone carriage return looks as if a blank line had ended the event. */
  lemma {:induction false} CarriageReturnBreaksTruncation(line: string, x: string)
    requires "event:" <= line && FreeOf(line, "\r\n") && FreeOf(x, "\r\n") && x != []
    ensures RustBlocks(line + ['\n'] + ['\r']) == [AddLine(EMPTY, line)]
    ensures RustBlocks(line + ['\n'] + (['\r'] + x)) == []
  {
    ReturnEndsEvent(line);
    ReturnWithMoreDoesNot(line, x);
  }

  lemma {:induction false} NamedAppend(xs: seq<Block>, ys: seq<Block>)
    ensures Named(xs + ys) == Named(xs) + Named(ys)
  {
    if xs == [] {
      assert xs + ys == ys;
    } else {
      assert (xs + ys)[1..] == xs[1..] + ys;
      NamedAppend(xs[1..], ys);
    }
  }

  // ---------------------------------------------------------------- the Governor's loop

  /** The data of the broker events among what was dispatched; pings and other names are dropped. */
  function Forwarded(evs: seq<SseEvent>): seq<string> {
    if evs == [] then []
    else (if evs[0].name == "event" then [evs[0].data] else []) + Forwarded(evs[1..])
  }

  lemma {:induction false} ForwardedAppend(xs: seq<SseEvent>, ys: seq<SseEvent>)
    ensures Forwarded(xs + ys) == Forwarded(xs) + Forwarded(ys)
  {
    if xs == [] {
      assert xs + ys == ys;
    } else {
      assert (xs + ys)[1..] == xs[1..] + ys;
      ForwardedAppend(xs[1..], ys);
    }
  }

  /** `picks` are the indices of the broker events, and `sink` their data. */
  ghost predicate ForwardedAt(evs: seq<SseEvent>, picks: seq<nat>, sink: seq<string>) {
    && Increasing(picks) && |picks| == |sink|
    && (forall i: nat :: i in picks <==> i < |evs| && evs[i].name == "event")
    && (forall k :: 0 <= k < |picks| ==> picks[k] < |evs| && sink[k] == evs[picks[k]].data)
  }

  lemma {:induction false} ForwardNext(evs: seq<SseEvent>, picks: seq<nat>, sink: seq<string>, e: SseEvent)
    requires ForwardedAt(evs, picks, sink)
    ensures e.name == "event" ==> ForwardedAt(evs + [e], picks + [|evs|], sink + [e.data])
    ensures e.name != "event" ==> ForwardedAt(evs + [e], picks, sink)
  {
    PickNext(picks, |evs|);
    hide Increasing;
  }

  lemma {:induction false} ForwardOneMore(front: seq<SseEvent>, e: SseEvent)
    ensures Forwarded(front + [e]) == if e.name == "event" then Forwarded(front) + [e.data] else Forwarded(front)
  {
    ForwardedAppend(front, [e]);
    assert [e][1..] == [] && Forwarded([]) == [];
    assert Forwarded(front) + [] == Forwarded(front);
  }

  /** Forwarded is, in order, the data of exactly the events named `event`. */
  lemma {:induction false} ForwardedExactly(evs: seq<SseEvent>) returns (picks: seq<nat>)
    ensures ForwardedAt(evs, picks, Forwarded(evs))
  {
    if evs == [] {
      picks := [];
    } else {
      hide *;
      var front, e := evs[..|evs| - 1], evs[|evs| - 1];
      var before := ForwardedExactly(front);
      assert evs == front + [e];
      ForwardOneMore(front, e);
      ForwardNext(front, before, Forwarded(front), e);
      picks := if e.name == "event" then before + [|front|] else before;
    }
  }

  lemma {:induction false} MapRustAppend(xs: seq<Block>, ys: seq<Block>)
    requires AllNamed(xs) && AllNamed(ys)
    ensures MapRust(xs + ys) == MapRust(xs) + MapRust(ys)
  {
  }

  /** The first line `read_line` returns, with its newline if there is one, and what is left. */
  function FirstLine(s: string): (r: (string, string))
    requires s != []
    ensures r.0 + r.1 == s && r.0 != []
  {
    match IndexOf(s, "\n")
    case None => (s, "")
    case Some(i) => (s[..i + 1], s[i + 1..])
  }

  lemma {:induction false} StripDropsNewline(line: string)
    ensures StripLineEnd(line + "\n") == StripLineEnd(line)
  {
  }

  lemma {:induction false} RawLinesStep(s: string)
    requires s != []
    ensures RawLines(s) ==
      match IndexOf(s, "\n") { case None => [s] case Some(i) => [s[..i]] + RawLines(s[i + 1..]) }
  {
  }

  lemma {:induction false} ReadLinesStep(s: string)
    requires s != []
    ensures ReadLines(s) == [StripLineEnd(FirstLine(s).0)] + ReadLines(FirstLine(s).1)
  {
    RawLinesStep(s);
    match IndexOf(s, "\n")
    case None =>
      assert Split("", "\n") == [""];
    case Some(i) =>
      assert s[i..i + 1] == "\n" && s[..i + 1] == s[..i] + "\n";
      StripDropsNewline(s[..i]);
  }

  lemma {:induction false} ForwardedSnoc(done: seq<Block>, b: Block)
    requires AllNamed(done) && b.name.Some?
    ensures AllNamed(done + [b])
    ensures Forwarded(MapRust(done + [b])) == Forwarded(MapRust(done)) + Forwarded([RustEvent(b)])
  {
    MapRustAppend(done, [b]);
    assert MapRust([b]) == [RustEvent(b)];
    ForwardedAppend(MapRust(done), [RustEvent(b)]);
  }

  method Dispatch(sink: seq<string>, name: string, data: string) returns (after: seq<string>)
    ensures after == sink + Forwarded([SseEvent(name, data)])
  {
    if name != "event" {
      return sink;
    }
    after := sink + [data];
  }

  /** The loop's variables hold the trimmed form of the block gathered so far. */
  predicate Gathered(b: Block, name: Option<string>, data: seq<string>) {
    && name == (match b.name case None => None case Some(n) => Some(RustTrimStart(n)))
    && data == TrimAll(b.data, Rust)
  }

  lemma {:induction false} GatherLine(b: Block, name: Option<string>, data: seq<string>, line: string)
    requires Gathered(b, name, data)
    ensures "event:" <= line ==> Gathered(AddLine(b, line), Some(RustTrimStart(line[6..])), data)
    ensures !("event:" <= line) && "data:" <= line ==>
      Gathered(AddLine(b, line), name, data + [RustTrimStart(line[5..])])
    ensures !("event:" <= line) && !("data:" <= line) ==> Gathered(AddLine(b, line), name, data)
    ensures ":" <= line ==> !("event:" <= line) && !("data:" <= line)
    ensures Gathered(EMPTY, None, [])
  {
    assert ":" <= line ==> line[0] == ':';
    assert "event:" <= line ==> line[0] == 'e';
    assert "data:" <= line ==> line[0] == 'd';
  }

  lemma {:induction false} ScanBlankLine(done: seq<Block>, lines: seq<string>, b: Block)
    requires lines != [] && lines[0] == []
    ensures done + RustScan(lines, b) ==
      (if b.name.Some? then done + [b] else done) + RustScan(lines[1..], EMPTY)
  {
    var rest := RustScan(lines[1..], EMPTY);
    assert done + ([b] + rest) == (done + [b]) + rest;
    assert [] + rest == rest;
  }

  /** The Governor's read loop over one response body: the broker events it forwards. */
  method ReadLoop(stream: string) returns (sink: seq<string>)
    ensures sink == Forwarded(RustParse(stream))
  {
    sink := [];
    var rest := stream;
    var currentName: Option<string>, currentData: seq<string> := None, [];
    ghost var b, done: seq<Block> := EMPTY, [];
    while rest != []
      invariant AllNamed(done) && sink == Forwarded(MapRust(done))
      invariant RustBlocks(stream) == done + RustScan(ReadLines(rest), b)
      invariant Gathered(b, currentName, currentData)
      decreases |rest|
    {
      ghost var lines := ReadLines(rest);
      ReadLinesStep(rest);
      var next := FirstLine(rest);
      var line := StripLineEnd(next.0);
      assert lines[0] == line && lines[1..] == ReadLines(next.1);
      rest := next.1;
      GatherLine(b, currentName, currentData, line);
      if line == [] {
        ScanBlankLine(done, lines, b);
        if currentName.Some? {
          ForwardedSnoc(done, b);
          sink := Dispatch(sink, currentName.value, Join(currentData, "\n"));
          done := done + [b];
        }
        currentName, currentData, b := None, [], EMPTY;
      } else {
        b := AddLine(b, line);
        if ":" <= line {
        } else if "event:" <= line {
          currentName := Some(RustTrimStart(line[6..]));
        } else if "data:" <= line {
          currentData := currentData + [RustTrimStart(line[5..])];
        }
      }
    }
    assert ReadLines(rest) == [] by { assert Split("", "\n") == [""]; }
    assert done + [] == done;
  }

  // ---------------------------------------------------------------- what the daemon writes

  /** One frame: a named event of the dashboard streams, a bare data frame of `/events/sse`, or a
      comment line. */
  datatype Wire = Event(name: string, data: string) | Data(data: string) | Comment(text: string) {
    predicate LineSafe() {
      match this
      case Event(n, d) => FreeOf(n, "\r\n") && FreeOf(d, "\r\n")
      case Data(d) => FreeOf(d, "\r\n")
      case Comment(t) => FreeOf(t, "\r\n")
    }

    function Body(): string {
      match this
      case Event(n, d) => "event: " + n + "\n" + ("data: " + d)
      case Data(d) => "data: " + d
      case Comment(t) => ":" + t
    }

    /** The block of fields a reader should see. */
    function Written(): Block {
      match this
      case Event(n, d) => Block(Some(" " + n), [" " + d])
      case Data(d) => Block(None, [" " + d])
      case Comment(_) => EMPTY
    }
  }

  function Print(ws: seq<Wire>): string {
    if ws == [] then "" else ws[0].Body() + "\n\n" + Print(ws[1..])
  }

  function WrittenBlocks(ws: seq<Wire>): (bs: seq<Block>)
    ensures |bs| == |ws|
    ensures forall i :: 0 <= i < |ws| ==> bs[i] == ws[i].Written()
  {
    if ws == [] then [] else [ws[0].Written()] + WrittenBlocks(ws[1..])
  }

  predicate AllSafe(ws: seq<Wire>) { forall i :: 0 <= i < |ws| ==> ws[i].LineSafe() }

  lemma {:induction false} BodyLines(w: Wire)
    requires w.LineSafe()
    ensures Split(w.Body(), "\n") ==
      match w { case Event(n, d) => ["event: " + n, "data: " + d] case _ => [w.Body()] }
  {
    match w
    case Event(n, d) =>
      assert '\n' !in "event: " + n && '\n' !in "data: " + d;
      SplitAtWrittenSeparator("event: " + n, '\n', "data: " + d);
      SplitWithoutSeparator("data: " + d, '\n');
    case _ =>
      assert '\n' !in w.Body();
      SplitWithoutSeparator(w.Body(), '\n');
  }

  lemma {:induction false} AddOneLine(b: Block, line: string)
    ensures AddLines(b, [line]) == AddLine(b, line)
  {
  }

  lemma {:induction false} WrittenLines(b: Block, text: string)
    ensures AddLine(b, "event: " + text) == b.(name := Some(" " + text))
    ensures AddLine(b, "data: " + text) == b.(data := b.data + [" " + text])
    ensures AddLine(b, ":" + text) == b
  {
    var e, d, c := "event: " + text, "data: " + text, ":" + text;
    assert "event:" <= e && e[6..] == " " + text;
    assert "data:" <= d && d[5..] == " " + text && d[0] == 'd';
    assert c[0] == ':';
  }

  lemma {:induction false} BodyIsWritten(w: Wire)
    requires w.LineSafe()
    ensures BlockOf(w.Body()) == w.Written()
  {
    hide AddLine, Split, Wire.LineSafe;
    BodyLines(w);
    match w
    case Event(n, d) =>
      var a, b := "event: " + n, "data: " + d;
      WrittenLines(EMPTY, n);
      WrittenLines(AddLine(EMPTY, a), d);
      assert [a, b][1..] == [b];
      AddOneLine(AddLine(EMPTY, a), b);
      assert AddLines(EMPTY, [a, b]) == AddLines(AddLine(EMPTY, a), [b]);
    case Data(d) =>
      WrittenLines(EMPTY, d);
      AddOneLine(EMPTY, w.Body());
    case Comment(t) =>
      WrittenLines(EMPTY, t);
      AddOneLine(EMPTY, w.Body());
  }

  lemma {:induction false} BlankLineFollowsBody(w: Wire, rest: string)
    requires w.LineSafe()
    ensures IndexOf(w.Body() + "\n\n" + rest, "\n\n") == Some(|w.Body()|)
  {
    var body := w.Body();
    var s := body + "\n\n" + rest;
    forall j | 0 <= j < |body| ensures !OccursAt(s, "\n\n", j) {
      if w.Event? && j == 7 + |w.name| {
        assert s[j + 1] == 'd';
      } else {
        assert s[j] != '\n';
      }
      assert s[j..j + 2] == [s[j], s[j + 1]];
    }
    assert s[|body|..|body| + 2] == "\n\n";
    IndexOfIs(s, "\n\n", |body|);
  }

  /** The blank-line splitter sees exactly the blocks that were written, and nothing is left over. */
  lemma {:induction false} AskSeesWhatWasWritten(ws: seq<Wire>)
    requires AllSafe(ws)
    ensures AskBlocks(Print(ws)) == WrittenBlocks(ws) && AskRemainder(Print(ws)) == ""
  {
    if ws == [] {
      assert Split("", "\n\n") == [""];
    } else {
      var w, rest := ws[0], Print(ws[1..]);
      AskSeesWhatWasWritten(ws[1..]);
      BodyIsWritten(w);
      BlankLineFollowsBody(w, rest);
      AskReadsBlock(w.Body(), rest);
      SplitFirst(Print(ws), "\n\n", w.Body(), rest);
      FrontOfCons(w.Body(), Split(rest, "\n\n"), []);
    }
  }

  lemma {:induction false} PrintHoldsNoCarriageReturn(ws: seq<Wire>)
    requires AllSafe(ws)
    ensures '\r' !in Print(ws)
  {
    if ws != [] {
      PrintHoldsNoCarriageReturn(ws[1..]);
      assert ws[0].LineSafe();
      match ws[0]
      case Event(n, d) => assert '\r' !in "event: " && '\r' !in n && '\r' !in "\ndata: " && '\r' !in d;
      case Data(d) => assert '\r' !in "data: " && '\r' !in d;
      case Comment(t) => assert '\r' !in ":" && '\r' !in t;
      assert '\r' !in ws[0].Body();
    }
  }

  /** Both block readers recover every frame the daemon writes: the same blocks, comments apart. */
  lemma {:induction false} ReadersRecoverWhatWasWritten(ws: seq<Wire>)
    requires AllSafe(ws)
    ensures AskParse(Print(ws)) == MapAsk(WrittenBlocks(ws))
    ensures RustParse(Print(ws)) == MapRust(Named(WrittenBlocks(ws)))
  {
    AskSeesWhatWasWritten(ws);
    PrintHoldsNoCarriageReturn(ws);
    ReadersSeeTheSameBlocks(Print(ws));
  }

  predicate NamesBrokerEvent(w: Wire) { w.Event? && RustTrimStart(w.name) == "event" }

  /** `picks` are the indices of the frames that name a broker event, and `sink` their data without the white space
      in front. */
  ghost predicate DeliveredAt(ws: seq<Wire>, picks: seq<nat>, sink: seq<string>) {
    && Increasing(picks) && |picks| == |sink|
    && (forall i: nat :: i in picks <==> i < |ws| && NamesBrokerEvent(ws[i]))
    && (forall k :: 0 <= k < |picks| ==> picks[k] < |ws| && NamesBrokerEvent(ws[picks[k]]) && sink[k] == RustTrimStart(ws[picks[k]].data))
  }

  lemma {:induction false} DeliverNext(ws: seq<Wire>, picks: seq<nat>, sink: seq<string>, w: Wire)
    requires DeliveredAt(ws, picks, sink)
    ensures if NamesBrokerEvent(w)
            then DeliveredAt(ws + [w], picks + [|ws|], sink + [RustTrimStart(w.data)])
            else DeliveredAt(ws + [w], picks, sink)
  {
    PickNext(picks, |ws|);
    hide Increasing, RustTrimStart;
  }

  lemma {:induction false} ForwardFrame(ws: seq<Wire>, w: Wire)
    ensures Forwarded(MapRust(Named(WrittenBlocks(ws + [w])))) == Forwarded(MapRust(Named(WrittenBlocks(ws))))
      + if NamesBrokerEvent(w) then [RustTrimStart(w.data)] else []
  {
    var before, bs := WrittenBlocks(ws), [w.Written()];
    assert WrittenBlocks(ws + [w]) == before + bs;
    NamedAppend(before, bs);
    MapRustAppend(Named(before), Named(bs));
    ForwardedAppend(MapRust(Named(before)), MapRust(Named(bs)));
    FrameOnItsOwn(w);
  }

  lemma {:induction false} FrameOnItsOwn(w: Wire)
    ensures Forwarded(MapRust(Named([w.Written()]))) ==
      if NamesBrokerEvent(w) then [RustTrimStart(w.data)] else []
  {
    assert [w.Written()][1..] == [];
    if w.Event? {
      var e := RustEvent(w.Written());
      SpacePrefixIsTrimmed(w.name);
      SpacePrefixIsTrimmed(w.data);
      assert TrimAll(w.Written().data, Rust) == [RustTrimStart(w.data)];
      assert MapRust([w.Written()]) == [e] && [e][1..] == [];
    }
  }

  lemma {:induction false} WrittenIsDelivered(ws: seq<Wire>) returns (picks: seq<nat>)
    ensures DeliveredAt(ws, picks, Forwarded(MapRust(Named(WrittenBlocks(ws)))))
  {
    if ws == [] {
      picks := [];
    } else {
      hide *;
      var front, w := ws[..|ws| - 1], ws[|ws| - 1];
      var before := WrittenIsDelivered(front);
      assert ws == front + [w];
      ForwardFrame(front, w);
      var sink := Forwarded(MapRust(Named(WrittenBlocks(front))));
      assert sink + [] == sink;
      DeliverNext(front, before, sink, w);
      picks := if NamesBrokerEvent(w) then before + [|front|] else before;
    }
  }

  /** From the daemon to the Governor's sink: of the frames written, in order, the data of exactly those that name a
      broker event arrive; pings, other names, bare data and comments do not. */
  lemma {:induction false} BrokerEventsArrive(ws: seq<Wire>) returns (picks: seq<nat>)
    requires AllSafe(ws)
    ensures DeliveredAt(ws, picks, Forwarded(RustParse(Print(ws))))
  {
    picks := WrittenIsDelivered(ws);
    ReadersRecoverWhatWasWritten(ws);
  }

  // ---------------------------------------------------------------- when the round trip is exact

  /** The two languages trim the same characters, but for U+FEFF, which is white space to JavaScript alone, and
      U+0085, which is to Rust alone. */
  lemma {:induction false} SpacesDifferInTwo(c: char)
    ensures Js.Has(c) != Rust.Has(c) <==> c == '\U{FEFF}' || c == '\U{85}'
    ensures c == '\U{FEFF}' ==> Js.Has(c)
    ensures c == '\U{85}' ==> Rust.Has(c)
    ensures Js.Has(c) && Rust.Has(c) <==>
      c in ['\t', '\n', '\U{B}', '\U{C}', '\r', ' ', '\U{A0}', '\U{1680}', '\U{2000}', '\U{2001}', '\U{2002}', '\U{2003}',
            '\U{2004}', '\U{2005}', '\U{2006}', '\U{2007}', '\U{2008}', '\U{2009}', '\U{200A}', '\U{2028}', '\U{2029}',
            '\U{202F}', '\U{205F}', '\U{3000}']
  {
  }

  predicate AllSpace(s: string, space: Space) { forall i :: 0 <= i < |s| ==> space.Has(s[i]) }

  lemma {:induction false} TrimStartSkips(a: string, s: string, space: Space)
    requires AllSpace(a, space)
    ensures TrimStart(a + s, space) == TrimStart(s, space)
    decreases |a|
  {
    if a == [] {
      assert a + s == s;
    } else {
      assert (a + s)[1..] == a[1..] + s;
      TrimStartSkips(a[1..], s, space);
    }
  }

  lemma {:induction false} TrimEndSkips(s: string, b: string, space: Space)
    requires AllSpace(b, space)
    ensures TrimEnd(s + b, space) == TrimEnd(s, space)
    decreases |b|
  {
    if b == [] {
      assert s + b == s;
    } else {
      assert Front(s + b) == s + Front(b);
      TrimEndSkips(s, Front(b), space);
    }
  }

  lemma {:induction false} TrimStartKeepsEnd(s: string, b: string, space: Space)
    requires AllSpace(b, space)
    ensures TrimEnd(TrimStart(s + b, space), space) == TrimEnd(TrimStart(s, space), space)
    decreases |s|
  {
    if s != [] && space.Has(s[0]) {
      assert (s + b)[1..] == s[1..] + b;
      TrimStartKeepsEnd(s[1..], b, space);
    } else if s == [] {
      TrimStartSkips(b, [], space);
      assert s + b == b + [] == b;
    } else {
      TrimEndSkips(s, b, space);
    }
  }

  /** Whitespace around a text makes no difference once it is trimmed. */
  lemma {:induction false} JsTrimIgnoresPadding(a: string, s: string, b: string)
    requires AllSpace(a, Js) && AllSpace(b, Js)
    ensures JsTrim(a + s + b) == JsTrim(s)
  {
    assert a + s + b == a + (s + b);
    TrimStartSkips(a, s + b, Js);
    TrimStartKeepsEnd(s, b, Js);
  }

  predicate StartsWith(s: string, space: Space) { s != [] && space.Has(s[0]) }

  /** Names without JavaScript whitespace at either end, data without it at the start. */
  predicate JsClean(n: string, d: string) {
    !StartsWith(n, Js) && !(n != [] && Js.Has(Last(n))) && !StartsWith(d, Js)
  }

  /** Names and data that do not start with what Rust counts as whitespace. */
  predicate RustClean(n: string, d: string) {
    !StartsWith(n, Rust) && !StartsWith(d, Rust)
  }

  lemma {:induction false} TrimStartShortens(s: string, space: Space)
    ensures |TrimStart(s, space)| <= |s|
    ensures TrimStart(s, space) == s <==> !StartsWith(s, space)
    ensures StartsWith(s, space) ==> |TrimStart(s, space)| < |s|
  {
    if StartsWith(s, space) {
      TrimStartShortens(s[1..], space);
    }
  }

  lemma {:induction false} EventLineStripsToItself(line: string)
    requires "event:" <= line && FreeOf(line, "\r\n")
    ensures '\n' !in line && StripLineEnd(line) == line
  {
  }

  lemma {:induction false} ReturnEndsEvent(line: string)
    requires "event:" <= line && FreeOf(line, "\r\n")
    ensures RustBlocks(line + ['\n'] + ['\r']) == [AddLine(EMPTY, line)]
  {
    var cr := ['\r'];
    EventLineStripsToItself(line);
    TwoLines(line, cr);
    assert Front(cr) == [] && StripLineEnd(cr) == [];
    hide RustScan, ReadLines, TrimEnd;
    ScanTwoLines(line, []);
  }

  lemma {:induction false} ReturnWithMoreDoesNot(line: string, x: string)
    requires "event:" <= line && FreeOf(line, "\r\n") && FreeOf(x, "\r\n") && x != []
    ensures RustBlocks(line + ['\n'] + (['\r'] + x)) == []
  {
    var crx := ['\r'] + x;
    EventLineStripsToItself(line);
    TwoLines(line, crx);
    assert Last(crx) == x[|x| - 1];
    TrimEndShortens(crx, LineEnd);
    hide RustScan, ReadLines, TrimEnd;
    ScanTwoLines(line, crx);
  }

  lemma {:induction false} TrimEndShortens(s: string, space: Space)
    ensures |TrimEnd(s, space)| <= |s|
    ensures TrimEnd(s, space) == s <==> !(s != [] && space.Has(Last(s)))
  {
    if s != [] && space.Has(Last(s)) {
      TrimEndShortens(Front(s), space);
    }
  }

  lemma {:induction false} SpacePrefixIsTrimmed(s: string)
    ensures TrimStart(" " + s, Js) == TrimStart(s, Js)
    ensures TrimStart(" " + s, Rust) == TrimStart(s, Rust)
  {
  }

  /** A reader gives back one event as it was written exactly when its own whitespace is absent. */
  lemma {:induction false} OneEventRoundTrip(n: string, d: string)
    ensures AskEventOf(Event(n, d).Written()) == AskEvent(Some(n), d) <==> JsClean(n, d)
    ensures RustEvent(Event(n, d).Written()) == SseEvent(n, d) <==> RustClean(n, d)
  {
    SpacePrefixIsTrimmed(n);
    SpacePrefixIsTrimmed(d);
    TrimStartShortens(n, Js);
    TrimStartShortens(d, Js);
    TrimStartShortens(n, Rust);
    TrimStartShortens(d, Rust);
    TrimEndShortens(TrimStart(n, Js), Js);
    assert TrimAll([" " + d], Js) == [TrimStart(d, Js)];
    assert TrimAll([" " + d], Rust) == [TrimStart(d, Rust)];
  }

  function Events(pairs: seq<(string, string)>): (ws: seq<Wire>)
    ensures |ws| == |pairs|
    ensures forall i :: 0 <= i < |pairs| ==> ws[i] == Event(pairs[i].0, pairs[i].1)
  {
    if pairs == [] then [] else [Event(pairs[0].0, pairs[0].1)] + Events(pairs[1..])
  }

  lemma {:induction false} AllNamedAreKept(bs: seq<Block>)
    requires AllNamed(bs)
    ensures Named(bs) == bs
  {
    if bs != [] {
      AllNamedAreKept(bs[1..]);
    }
  }

  predicate AskGot(evs: seq<AskEvent>, pairs: seq<(string, string)>) {
    |evs| == |pairs| && forall i :: 0 <= i < |pairs| ==> evs[i] == AskEvent(Some(pairs[i].0), pairs[i].1)
  }

  predicate GovernorGot(evs: seq<SseEvent>, pairs: seq<(string, string)>) {
    |evs| == |pairs| && forall i :: 0 <= i < |pairs| ==> evs[i] == SseEvent(pairs[i].0, pairs[i].1)
  }

  /** Round trip of the dashboard streams. `stavr ask` recovers every pair exactly when no name has
      JavaScript whitespace at an end and no data at the start; the Governor exactly when no name or
      data starts with Unicode White_Space. The two sets differ: U+FEFF and U+0085. */
  lemma {:induction false} DashboardRoundTrip(pairs: seq<(string, string)>)
    requires AllSafe(Events(pairs))
    ensures var stream := Print(Events(pairs));
      && (AskGot(AskParse(stream), pairs)
          <==> forall i :: 0 <= i < |pairs| ==> JsClean(pairs[i].0, pairs[i].1))
      && (GovernorGot(RustParse(stream), pairs)
          <==> forall i :: 0 <= i < |pairs| ==> RustClean(pairs[i].0, pairs[i].1))
  {
    hide JsClean, RustClean, Print, RustBlocks, AskBlocks, RustEvent, AskEventOf;
    var ws := Events(pairs);
    var bs := WrittenBlocks(ws);
    ReadersRecoverWhatWasWritten(ws);
    AllNamedAreKept(bs);
    forall i | 0 <= i < |pairs|
      ensures MapAsk(bs)[i] == AskEvent(Some(pairs[i].0), pairs[i].1) <==> JsClean(pairs[i].0, pairs[i].1)
      ensures MapRust(bs)[i] == SseEvent(pairs[i].0, pairs[i].1) <==> RustClean(pairs[i].0, pairs[i].1)
    {
      OneEventRoundTrip(pairs[i].0, pairs[i].1);
    }
  }

  function NonEmpty(w: Wire): seq<string> {
    match w
    case Comment(_) => []
    case Event(_, d) => if d == "" then [] else [d]
    case Data(d) => if d == "" then [] else [d]
  }

  /** The frames' data, in order, without the empty ones. */
  function NonEmptyData(ws: seq<Wire>): seq<string> {
    if ws == [] then [] else NonEmpty(ws[0]) + NonEmptyData(ws[1..])
  }

  lemma {:induction false} TailReadsBody(t: Tail, w: Wire)
    requires w.LineSafe() && t.accum == ""
    ensures TailLine(TailLines(t, Split(w.Body(), "\n")), "") == t.(events := t.events + NonEmpty(w))
  {
    BodyLines(w);
    match w
    case Event(n, d) =>
      assert t.accum + d == d;
      var a, b := "event: " + n, "data: " + d;
      assert a[0] == 'e';
      assert b[..6] == "data: " && b[6..] == d;
      assert [a, b][1..] == [b];
      assert TailLines(t, [a, b]) == TailLines(TailLine(t, a), [b]);
      TailOneLine(t, b);
    case Data(d) =>
      assert t.accum + d == d;
      var b := w.Body();
      assert b[..6] == "data: " && b[6..] == d;
      TailOneLine(t, b);
    case Comment(c) =>
      assert w.Body()[0] == ':';
      TailOneLine(t, w.Body());
  }

  lemma {:induction false} TailOneLine(t: Tail, line: string)
    ensures TailLines(t, [line]) == TailLine(t, line)
  {
  }

  lemma {:induction false} TailReadsFrame(events: seq<string>, w: Wire, rest: string)
    requires w.LineSafe()
    ensures TailFeed(Tail("", "", events), w.Body() + "\n\n" + rest)
            == TailFeed(Tail("", "", events + NonEmpty(w)), rest)
  {
    var t := Tail("", "", events);
    var body, more := Split(w.Body(), "\n"), Split(rest, "\n");
    PartsAroundBlankLine(w.Body(), rest);
    FrontOfAppend(body, [""] + more);
    FrontOfAppend([""], more);
    assert ([""] + Front(more))[1..] == Front(more);
    TailLinesAppend(t, body, [""] + Front(more));
    TailReadsBody(t, w);
    assert "" + (w.Body() + "\n\n" + rest) == w.Body() + "\n\n" + rest;
    assert "" + rest == rest;
  }

  /** `stavr tail` recovers the data of every frame, comments and heartbeats apart: nothing is trimmed,
      and only an empty data line, which the daemon never writes, would be dropped. */
  lemma {:induction false} TailRecoversWhatWasWritten(events: seq<string>, ws: seq<Wire>)
    requires AllSafe(ws)
    ensures TailFeed(Tail("", "", events), Print(ws)) == Tail("", "", events + NonEmptyData(ws))
    decreases |ws|
  {
    hide TailFeed, NonEmpty, Wire.Body, Wire.LineSafe;
    if ws == [] {
      TailFeedsNothing(Tail("", "", events));
      assert events + [] == events;
    } else {
      var w := ws[0];
      TailReadsFrame(events, w, Print(ws[1..]));
      TailRecoversWhatWasWritten(events + NonEmpty(w), ws[1..]);
      assert events + NonEmpty(w) + NonEmptyData(ws[1..]) == events + NonEmptyData(ws);
    }
  }

  lemma {:induction false} TailFeedsNothing(t: Tail)
    requires t.buffer == ""
    ensures TailFeed(t, "") == t
  {
  }
}
