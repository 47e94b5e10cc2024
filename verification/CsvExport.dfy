/**
 The audit export as CSV (src/transports.ts), against a reader written from RFC 4180 section 2 that also
 accepts a line feed alone as record break, which is what the export writes.
 */
module CsvExport {
  import opened Wrappers
  import opened Strings

  const QUOTE: char := '\"'

  type Record = seq<string>

  // ---------------------------------------------------------------- writing

  predicate NeedsQuotes(c: char) { c == QUOTE || c == ',' || c == '\n' || c == '\r' }

  predicate AnyNeedsQuotes(s: string) { exists k :: 0 <= k < |s| && NeedsQuotes(s[k]) }

  function Doubled(c: char): string { if c == QUOTE then [QUOTE, QUOTE] else [c] }

  function DoubleQuotes(s: string): string {
    if s == [] then [] else Doubled(s[0]) + DoubleQuotes(s[1..])
  }

  function CsvEscape(s: string): string {
    if AnyNeedsQuotes(s) then [QUOTE] + DoubleQuotes(s) + [QUOTE] else s
  }

  /** The escaped fields joined by commas. */
  function Line(r: Record): string
    requires r != []
  {
    if |r| == 1 then CsvEscape(r[0]) else CsvEscape(r[0]) + ([','] + Line(r[1..]))
  }

  function Lines(rs: seq<Record>): string
    requires forall k :: 0 <= k < |rs| ==> rs[k] != []
  {
    if rs == [] then [] else Line(rs[0]) + (['\n'] + Lines(rs[1..]))
  }

  // ---------------------------------------------------------------- reading

  datatype Read<T> = Read(value: T, rest: string)

  function Prepend(c: char, r: Option<Read<string>>): Option<Read<string>> {
    match r
    case Some(r) => Some(Read([c] + r.value, r.rest))
    case None => None
  }

  /** After an opening quote: up to the closing one, two quotes standing for one. */
  function ReadQuoted(t: string): (r: Option<Read<string>>)
    ensures r.Some? ==> |r.value.rest| < |t|
    decreases |t|
  {
    if t == [] then None
    else if t[0] != QUOTE then Prepend(t[0], ReadQuoted(t[1..]))
    else if |t| > 1 && t[1] == QUOTE then Prepend(QUOTE, ReadQuoted(t[2..]))
    else Some(Read([], t[1..]))
  }

  /** An unquoted field may hold no quote. */
  function ReadPlain(t: string): (r: Option<Read<string>>)
    ensures r.Some? ==> |r.value.rest| <= |t|
    decreases |t|
  {
    if t == [] || t[0] == ',' || t[0] == '\n' || t[0] == '\r' then Some(Read([], t))
    else if t[0] == QUOTE then None
    else Prepend(t[0], ReadPlain(t[1..]))
  }

  function ReadField(t: string): (r: Option<Read<string>>)
    ensures r.Some? ==> |r.value.rest| <= |t|
  {
    if t != [] && t[0] == QUOTE then ReadQuoted(t[1..]) else ReadPlain(t)
  }

  /** A record and its break; the last one may lack the break. */
  function ReadRecord(t: string): (r: Option<Read<Record>>)
    ensures r.Some? ==> r.value.rest == [] || |r.value.rest| < |t|
    decreases |t|
  {
    match ReadField(t)
    case None => None
    case Some(f) =>
      if f.rest == [] then Some(Read([f.value], []))
      else if f.rest[0] == '\n' then Some(Read([f.value], f.rest[1..]))
      else if f.rest[0] == '\r' && |f.rest| > 1 && f.rest[1] == '\n' then Some(Read([f.value], f.rest[2..]))
      else if f.rest[0] == ',' then
        match ReadRecord(f.rest[1..])
        case Some(more) => Some(Read([f.value] + more.value, more.rest))
        case None => None
      else None
  }

  function ReadAll(t: string): Option<seq<Record>>
    decreases |t|
  {
    if t == [] then Some([])
    else match ReadRecord(t)
      case None => None
      case Some(r) => Cons(r.value, ReadAll(r.rest))
  }

  function Cons(r: Record, rs: Option<seq<Record>>): Option<seq<Record>> {
    match rs
    case Some(rs) => Some([r] + rs)
    case None => None
  }

  // ---------------------------------------------------------------- reading undoes writing

  /** What can stand after a field. */
  predicate EndsField(rest: string) { rest != [] && (rest[0] == ',' || rest[0] == '\n') }

  lemma {:induction false} ReadDoubled(c: char, more: string)
    ensures ReadQuoted(Doubled(c) + more) == Prepend(c, ReadQuoted(more))
  {
  }

  lemma {:induction false} QuotedRoundTrip(s: string, rest: string)
    requires EndsField(rest)
    ensures ReadQuoted(DoubleQuotes(s) + ([QUOTE] + rest)) == Some(Read(s, rest))
  {
    var tail := [QUOTE] + rest;
    if s == [] {
      assert DoubleQuotes(s) + tail == tail && tail[1..] == rest;
    } else {
      assert DoubleQuotes(s) + tail == Doubled(s[0]) + (DoubleQuotes(s[1..]) + tail);
      ReadDoubled(s[0], DoubleQuotes(s[1..]) + tail);
      QuotedRoundTrip(s[1..], rest);
      assert [s[0]] + s[1..] == s;
    }
  }

  lemma {:induction false} PlainRoundTrip(s: string, rest: string)
    requires EndsField(rest) && forall k :: 0 <= k < |s| ==> !NeedsQuotes(s[k])
    ensures ReadPlain(s + rest) == Some(Read(s, rest))
  {
    if s == [] {
      assert s + rest == rest;
    } else {
      assert (s + rest)[1..] == s[1..] + rest;
      PlainRoundTrip(s[1..], rest);
      assert [s[0]] + s[1..] == s;
    }
  }

  /** Every string survives as a field, and the reader stops where the field ends. */
  lemma {:induction false} FieldRoundTrip(s: string, rest: string)
    requires EndsField(rest)
    ensures ReadField(CsvEscape(s) + rest) == Some(Read(s, rest))
  {
    if AnyNeedsQuotes(s) {
      QuotedFieldIsRead(DoubleQuotes(s), rest);
      QuotedRoundTrip(s, rest);
    } else {
      PlainFieldIsRead(s, rest);
      PlainRoundTrip(s, rest);
    }
  }

  lemma {:induction false} QuotedFieldIsRead(inner: string, rest: string)
    ensures ReadField([QUOTE] + inner + [QUOTE] + rest) == ReadQuoted(inner + ([QUOTE] + rest))
  {
    var t := [QUOTE] + inner + [QUOTE] + rest;
    assert t[1..] == inner + ([QUOTE] + rest);
  }

  lemma {:induction false} PlainFieldIsRead(s: string, rest: string)
    requires EndsField(rest) && forall k :: 0 <= k < |s| ==> !NeedsQuotes(s[k])
    ensures ReadField(s + rest) == ReadPlain(s + rest)
  {
  }

  lemma {:induction false} RecordRoundTrip(r: Record, rest: string)
    requires r != []
    ensures ReadRecord(Line(r) + (['\n'] + rest)) == Some(Read(r, rest))
  {
    var tail := ['\n'] + rest;
    assert tail[1..] == rest;
    if |r| == 1 {
      FieldRoundTrip(r[0], tail);
      assert r == [r[0]];
    } else {
      var after := [','] + (Line(r[1..]) + tail);
      assert Line(r) + tail == CsvEscape(r[0]) + after;
      FieldRoundTrip(r[0], after);
      assert after[1..] == Line(r[1..]) + tail;
      RecordRoundTrip(r[1..], rest);
      assert [r[0]] + r[1..] == r;
    }
  }

  /** Any table of arbitrary strings is read back exactly: commas, quotes, line breaks and empty fields
      included. */
  lemma {:induction false} TableRoundTrip(rs: seq<Record>)
    requires forall k :: 0 <= k < |rs| ==> rs[k] != []
    ensures ReadAll(Lines(rs)) == Some(rs)
  {
    if rs != [] {
      RecordRoundTrip(rs[0], Lines(rs[1..]));
      TableRoundTrip(rs[1..]);
      assert Lines(rs) == Line(rs[0]) + (['\n'] + Lines(rs[1..]));
      assert [rs[0]] + rs[1..] == rs;
    }
  }

  // ---------------------------------------------------------------- the export

  /** A payload is exported as it is when it is a string, else as its JSON text. */
  datatype Payload = NoPayload | Text(text: string) | Json(json: string)

  datatype Event = Event(
    id: string,
    at: string,
    persistedAt: string,
    kind: string,
    sourceAgent: string,
    correlationId: Option<string>,
    tenantId: Option<string>,
    payload: Payload)

  function OrEmpty(o: Option<string>): string { match o case Some(s) => s case None => [] }

  function PayloadText(p: Payload): string {
    match p case NoPayload => [] case Text(s) => s case Json(s) => s
  }

  function Fields(e: Event): (r: Record)
    ensures |r| == 8
  {
    [e.id, e.at, e.persistedAt, e.kind, e.sourceAgent, OrEmpty(e.correlationId), OrEmpty(e.tenantId), PayloadText(e.payload)]
  }

  function Rows(events: seq<Event>): (rs: seq<Record>)
    ensures |rs| == |events| && forall k :: 0 <= k < |rs| ==> rs[k] == Fields(events[k])
  {
    if events == [] then [] else [Fields(events[0])] + Rows(events[1..])
  }

  const COLS: Record :=
    ["id", "at", "persisted_at", "kind", "source_agent", "correlation_id", "tenant_id", "payload"]

  predicate PlainRecord(r: Record) {
    r != [] && forall k :: 0 <= k < |r| ==> !AnyNeedsQuotes(r[k])
  }

  lemma {:induction false} FirstColumnsArePlain()
    ensures forall k :: 0 <= k < 4 ==> !AnyNeedsQuotes(COLS[k])
  {
  }

  lemma {:induction false} LastColumnsArePlain()
    ensures forall k :: 4 <= k < 8 ==> !AnyNeedsQuotes(COLS[k])
  {
  }

  lemma {:induction false} ColumnsArePlain()
    ensures PlainRecord(COLS)
  {
    hide AnyNeedsQuotes;
    FirstColumnsArePlain();
    LastColumnsArePlain();
  }

  /** The header is joined without escaping, then come the events' lines. */
  function ExportText(cols: Record, events: seq<Event>): string {
    Join(cols, [',']) + (['\n'] + Lines(Rows(events)))
  }

  lemma {:induction false} PlainLineIsJoin(r: Record)
    requires PlainRecord(r)
    ensures Line(r) == Join(r, [','])
  {
    assert !AnyNeedsQuotes(r[0]);
    if |r| > 1 {
      forall k | 0 <= k < |r[1..]| ensures !AnyNeedsQuotes(r[1..][k]) { assert r[1..][k] == r[k + 1]; }
      PlainLineIsJoin(r[1..]);
      assert r[0] + [','] + Join(r[1..], [',']) == r[0] + ([','] + Join(r[1..], [',']));
    }
  }

  lemma {:induction false} PlainHeaderRoundTrip(cols: Record, events: seq<Event>)
    requires PlainRecord(cols)
    ensures ReadAll(ExportText(cols, events)) == Some([cols] + Rows(events))
  {
    var table := [cols] + Rows(events);
    PlainLineIsJoin(cols);
    assert table[1..] == Rows(events);
    TableRoundTrip(table);
  }

  /** The whole export is read back: the header, then every event's eight fields in order, whatever strings
      they hold. */
  lemma {:induction false} ExportRoundTrip(events: seq<Event>)
    ensures ReadAll(ExportText(COLS, events)) == Some([COLS] + Rows(events))
  {
    ColumnsArePlain();
    PlainHeaderRoundTrip(COLS, events);
  }

  /** Two exports are the same text exactly when all eight fields of all events are: nothing but the
      difference between absent and empty, and between a string and its text, is lost. */
  lemma {:induction false} ExportsDifferWhenFieldsDo(a: seq<Event>, b: seq<Event>)
    ensures ExportText(COLS, a) == ExportText(COLS, b) <==> Rows(a) == Rows(b)
  {
    ExportRoundTrip(a);
    ExportRoundTrip(b);
    assert ([COLS] + Rows(a))[1..] == Rows(a) && ([COLS] + Rows(b))[1..] == Rows(b);
  }

  lemma {:induction false} LinesSnoc(rs: seq<Record>, r: Record)
    requires r != [] && forall k :: 0 <= k < |rs| ==> rs[k] != []
    ensures Lines(rs + [r]) == Lines(rs) + (Line(r) + ['\n'])
  {
    if rs == [] {
      assert rs + [r] == [r];
      assert [r][1..] == [] && Lines([r][1..]) == [];
    } else {
      assert (rs + [r])[0] == rs[0] && (rs + [r])[1..] == rs[1..] + [r];
      LinesSnoc(rs[1..], r);
    }
  }

  lemma {:induction false} RowsSnoc(events: seq<Event>, k: nat)
    requires k < |events|
    ensures Rows(events[..k + 1]) == Rows(events[..k]) + [Fields(events[k])]
  {
  }

  /** `csvEscape` applied along a row and joined. */
  method WriteLine(r: Record) returns (line: string)
    requires r != []
    ensures line == Line(r)
  {
    line := CsvEscape(r[|r| - 1]);
    var i := |r| - 1;
    assert r[i..] == [r[i]];
    while i > 0
      invariant 0 <= i < |r| && line == Line(r[i..])
    {
      i := i - 1;
      assert r[i..][1..] == r[i + 1..];
      line := CsvEscape(r[i]) + ([','] + line);
    }
    assert r[0..] == r;
  }

  lemma {:induction false} OneMoreRow(head: string, events: seq<Event>, k: nat)
    requires k < |events|
    ensures head + Lines(Rows(events[..k + 1])) == head + Lines(Rows(events[..k])) + (Line(Fields(events[k])) + ['\n'])
  {
    RowsSnoc(events, k);
    LinesSnoc(Rows(events[..k]), Fields(events[k]));
  }

  /** The export's writes: the header, then one per event. */
  method Export(cols: Record, events: seq<Event>) returns (out: string)
    ensures out == ExportText(cols, events)
  {
    out := Join(cols, [',']) + ['\n'];
    ghost var head := out;
    for i := 0 to |events|
      invariant out == head + Lines(Rows(events[..i]))
    {
      var line := WriteLine(Fields(events[i]));
      OneMoreRow(head, events, i);
      out := out + (line + ['\n']);
    }
    assert events[..|events|] == events;
    assert out == ExportText(cols, events);
  }
}
