/**
 The event log (src/persistence.ts): `appendEvent`, `getEvents` and the retention sweep
 `pruneEvents`. The `events` table is a sequence of rows in insertion order; an SQL statement is
 the function of the rows it denotes, and where SQLite is free to choose (ties in ORDER BY) the
 model only fixes what every choice has in common. Time stamps are numbers ordered as the ISO
 strings are.
 */
module EventStore {
  import opened Wrappers

  datatype Event = Event(kind: string, sourceAgent: string, tenantId: Option<string>, at: int, payload: string)

  datatype Row = Row(id: string, event: Event, createdAt: int, rowSeq: nat)

  /** The table: ids are its primary key, and sequence numbers grow with insertion. */
  ghost predicate Live(rows: seq<Row>) {
    && (forall i, j :: 0 <= i < j < |rows| ==> rows[i].rowSeq < rows[j].rowSeq && rows[i].id != rows[j].id)
    && (forall i :: 0 <= i < |rows| ==> rows[i].rowSeq >= 1)
  }

  function MaxSeq(rows: seq<Row>): nat {
    if rows == [] then 0
    else if rows[0].rowSeq > MaxSeq(rows[1..]) then rows[0].rowSeq else MaxSeq(rows[1..])
  }

  function NextSeq(rows: seq<Row>): nat { MaxSeq(rows) + 1 }

  predicate HasId(rows: seq<Row>, id: string) {
    exists i :: 0 <= i < |rows| && rows[i].id == id
  }

  // ---------------------------------------------------------------- queries

  datatype Filter = Filter(
    sinceEventId: Option<string>,
    sinceAt: Option<int>,
    kinds: seq<string>,
    sourceAgent: Option<string>,
    tenantId: Option<string>,
    limit: Option<nat>)
  {
    /** The page size: 500 unless asked for, never above 5000. */
    function PageSize(): nat {
      var n := match limit case None => 500 case Some(n) => n;
      if n > 5000 then 5000 else n
    }

    predicate Matches(e: Event) {
      && (sinceAt.Some? ==> e.at >= sinceAt.value)
      && (kinds != [] && "*" !in kinds ==> e.kind in kinds)
      && (sourceAgent.Some? && sourceAgent.value != "" ==> e.sourceAgent == sourceAgent.value)
      && (tenantId.Some? && tenantId.value != "" ==> e.tenantId == tenantId)
    }

    predicate HasCursor() { sinceEventId.Some? && sinceEventId.value != "" }

    function From(id: string): Filter { this.(sinceEventId := Some(id)) }
  }

  /** The sequence number of an event, or 0 when the log does not hold it. */
  function SeqOf(rows: seq<Row>, id: string): nat {
    if rows == [] then 0 else if rows[0].id == id then rows[0].rowSeq else SeqOf(rows[1..], id)
  }

  /** The cursor's position; without a cursor everything is after it, sequence numbers being positive. */
  function After(rows: seq<Row>, f: Filter): nat {
    if f.HasCursor() then SeqOf(rows, f.sinceEventId.value) else 0
  }

  /** The rows past position `after` that the filter asks for, oldest first. */
  function SelectAfter(rows: seq<Row>, f: Filter, after: nat): seq<Row> {
    if rows == [] then []
    else if rows[0].rowSeq > after && f.Matches(rows[0].event) then [rows[0]] + SelectAfter(rows[1..], f, after)
    else SelectAfter(rows[1..], f, after)
  }

  function Select(rows: seq<Row>, f: Filter): seq<Row> { SelectAfter(rows, f, After(rows, f)) }

  function Take(rows: seq<Row>, n: nat): seq<Row> { if |rows| <= n then rows else rows[..n] }

  datatype Page = Page(events: seq<Row>, hasMore: bool)

  /** The query asks for one row more than the page holds; its presence is `has_more`. */
  function GetPage(rows: seq<Row>, f: Filter): (p: Page)
    ensures p.events <= Select(rows, f)
    ensures |p.events| == if |Select(rows, f)| <= f.PageSize() then |Select(rows, f)| else f.PageSize()
    ensures p.hasMore <==> |Select(rows, f)| > f.PageSize()
  {
    var limited := Take(Select(rows, f), f.PageSize() + 1);
    var hasMore := |limited| > f.PageSize();
    Page(if hasMore then limited[..f.PageSize()] else limited, hasMore)
  }

  // ---------------------------------------------------------------- appending

  lemma {:induction false} MaxSeqBounds(rows: seq<Row>, i: nat)
    requires i < |rows|
    ensures rows[i].rowSeq <= MaxSeq(rows)
  {
    if i > 0 {
      MaxSeqBounds(rows[1..], i - 1);
    }
  }

  lemma {:induction false} MaxSeqIsLast(rows: seq<Row>)
    requires Live(rows)
    ensures MaxSeq(rows) == if rows == [] then 0 else rows[|rows| - 1].rowSeq
  {
    if |rows| > 1 {
      MaxSeqIsLast(rows[1..]);
      assert rows[1..][|rows| - 2] == rows[|rows| - 1];
    }
  }

  /** An append puts the new row behind every surviving one, so live numbers stay unique and ordered. */
  lemma {:induction false} AppendKeepsLive(rows: seq<Row>, row: Row)
    requires Live(rows) && !HasId(rows, row.id) && row.rowSeq == NextSeq(rows)
    ensures Live(rows + [row])
  {
    forall i | 0 <= i < |rows| ensures rows[i].rowSeq < row.rowSeq && rows[i].id != row.id {
      MaxSeqBounds(rows, i);
    }
  }

  // ---------------------------------------------------------------- retention

  datatype Policy = Policy(operational: set<string>, audit: set<string>, opCutoff: int, auditCutoff: int, maxRows: nat)

  predicate OfKind(r: Row, kinds: set<string>) { r.event.kind in kinds }

  /** DELETE of the rows with the given ids. */
  function Without(rows: seq<Row>, ids: set<string>): seq<Row> {
    if rows == [] then []
    else if rows[0].id in ids then Without(rows[1..], ids)
    else [rows[0]] + Without(rows[1..], ids)
  }

  function OlderThan(rows: seq<Row>, kinds: set<string>, cutoff: int): set<string> {
    set r | r in rows && OfKind(r, kinds) && r.createdAt < cutoff :: r.id
  }

  function CountOf(rows: seq<Row>, kinds: set<string>): nat {
    if rows == [] then 0 else (if OfKind(rows[0], kinds) then 1 else 0) + CountOf(rows[1..], kinds)
  }

  /** The ids of the rows of some kinds. */
  function KindIds(rows: seq<Row>, kinds: set<string>): set<string> {
    set r | r in rows && OfKind(r, kinds) :: r.id
  }

  function AllIds(rows: seq<Row>): set<string> { set r | r in rows :: r.id }

  /** `ids` names the `k` oldest rows of these kinds; rows created together may be taken in any order. */
  ghost predicate Oldest(rows: seq<Row>, kinds: set<string>, k: nat, ids: set<string>) {
    && |ids| == k
    && ids <= KindIds(rows, kinds)
    && (forall v, r :: v in rows && r in rows && OfKind(v, kinds) && OfKind(r, kinds) && v.id in ids && r.id !in ids
          ==> v.createdAt <= r.createdAt)
  }

  function Excess(rows: seq<Row>, kinds: set<string>, maxRows: nat): nat {
    if CountOf(rows, kinds) > maxRows then CountOf(rows, kinds) - maxRows else 0
  }

  /** The three deletions of one error-free sweep: `capped` are the rows the row cap drops. */
  ghost predicate Sweeps(before: seq<Row>, p: Policy, capped: set<string>, after: seq<Row>) {
    var unexpired := Without(before, OlderThan(before, p.operational, p.opCutoff));
    var kept := Without(unexpired, capped);
    && Oldest(unexpired, p.operational, Excess(unexpired, p.operational, p.maxRows), capped)
    && after == Without(kept, OlderThan(kept, p.audit, p.auditCutoff))
  }

  lemma {:induction false} InWithout(rows: seq<Row>, ids: set<string>, r: Row)
    ensures r in Without(rows, ids) <==> r in rows && r.id !in ids
  {
    if rows != [] {
      InWithout(rows[1..], ids, r);
      assert r in rows <==> r == rows[0] || r in rows[1..];
    }
  }

  /** Deleting rows keeps the others in order. */
  lemma {:induction false} WithoutKeepsLive(rows: seq<Row>, ids: set<string>)
    requires Live(rows)
    ensures Live(Without(rows, ids))
  {
    if rows != [] {
      WithoutKeepsLive(rows[1..], ids);
      var rest := Without(rows[1..], ids);
      forall i | 0 <= i < |rest| ensures rows[0].rowSeq < rest[i].rowSeq && rows[0].id != rest[i].id {
        InWithout(rows[1..], ids, rest[i]);
      }
    }
  }

  lemma {:induction false} SameId(rows: seq<Row>, a: Row, b: Row)
    requires Live(rows) && a in rows && b in rows && a.id == b.id
    ensures a == b
  {
  }

  lemma {:induction false} AllIdsOfCons(rows: seq<Row>)
    requires Live(rows) && rows != []
    ensures rows[0].id !in AllIds(rows[1..])
    ensures AllIds(rows) == AllIds(rows[1..]) + {rows[0].id}
  {
  }

  lemma {:induction false} RowCountIsIdCount(rows: seq<Row>)
    requires Live(rows)
    ensures |rows| == |AllIds(rows)|
  {
    if rows != [] {
      hide AllIds;
      RowCountIsIdCount(rows[1..]);
      AllIdsOfCons(rows);
    }
  }

  lemma {:induction false} KindIdsOfCons(rows: seq<Row>, kinds: set<string>)
    requires Live(rows) && rows != []
    ensures rows[0].id !in KindIds(rows[1..], kinds)
    ensures KindIds(rows, kinds) == KindIds(rows[1..], kinds) + (if OfKind(rows[0], kinds) then {rows[0].id} else {})
  {
  }

  lemma {:induction false} KindCountIsIdCount(rows: seq<Row>, kinds: set<string>)
    requires Live(rows)
    ensures CountOf(rows, kinds) == |KindIds(rows, kinds)|
  {
    if rows != [] {
      hide OfKind, KindIds;
      KindCountIsIdCount(rows[1..], kinds);
      KindIdsOfCons(rows, kinds);
    }
  }

  /** Deleting named rows deletes as many rows as there are names. */
  lemma {:induction false} WithoutCounts(rows: seq<Row>, ids: set<string>)
    requires Live(rows) && ids <= AllIds(rows)
    ensures |Without(rows, ids)| == |rows| - |ids|
  {
    WithoutKeepsLive(rows, ids);
    RowCountIsIdCount(rows);
    RowCountIsIdCount(Without(rows, ids));
    forall r ensures r in Without(rows, ids) <==> r in rows && r.id !in ids {
      InWithout(rows, ids, r);
    }
    assert AllIds(Without(rows, ids)) == AllIds(rows) - ids;
  }

  /** The rows of some kinds that a deletion of rows of these kinds leaves. */
  lemma {:induction false} WithoutCountsKind(rows: seq<Row>, kinds: set<string>, ids: set<string>)
    requires Live(rows) && ids <= KindIds(rows, kinds)
    ensures CountOf(Without(rows, ids), kinds) == CountOf(rows, kinds) - |ids|
  {
    WithoutKeepsLive(rows, ids);
    KindCountIsIdCount(rows, kinds);
    KindCountIsIdCount(Without(rows, ids), kinds);
    forall r ensures r in Without(rows, ids) <==> r in rows && r.id !in ids {
      InWithout(rows, ids, r);
    }
    assert KindIds(Without(rows, ids), kinds) == KindIds(rows, kinds) - ids;
  }

  lemma {:induction false} CountOfCons(r: Row, rest: seq<Row>, kinds: set<string>)
    ensures CountOf([r] + rest, kinds) == (if OfKind(r, kinds) then 1 else 0) + CountOf(rest, kinds)
  {
  }

  lemma {:induction false} WithoutCountsNoMore(rows: seq<Row>, kinds: set<string>, ids: set<string>)
    ensures CountOf(Without(rows, ids), kinds) <= CountOf(rows, kinds)
  {
    if rows != [] {
      WithoutCountsNoMore(rows[1..], kinds, ids);
      CountOfCons(rows[0], Without(rows[1..], ids), kinds);
    }
  }

  lemma {:induction false} WithoutOtherKinds(rows: seq<Row>, kinds: set<string>, ids: set<string>)
    requires forall r :: r in rows && r.id in ids ==> !OfKind(r, kinds)
    ensures CountOf(Without(rows, ids), kinds) == CountOf(rows, kinds)
  {
    if rows != [] {
      WithoutOtherKinds(rows[1..], kinds, ids);
      CountOfCons(rows[0], Without(rows[1..], ids), kinds);
    }
  }

  predicate Expired(r: Row, kinds: set<string>, cutoff: int) {
    OfKind(r, kinds) && r.createdAt < cutoff
  }

  /** A row is among the aged-out ids exactly when it is itself aged out. */
  lemma {:induction false} OlderThanMeans(rows: seq<Row>, kinds: set<string>, cutoff: int, r: Row)
    requires Live(rows) && r in rows
    ensures r.id in OlderThan(rows, kinds, cutoff) <==> Expired(r, kinds, cutoff)
  {
  }

  /** Who survives a sweep: unknown kinds always, audit rows not older than their cutoff, and of the
      operational rows not older than theirs all but the capped ones. */
  lemma {:induction false} SweepSurvivors(before: seq<Row>, p: Policy, capped: set<string>, after: seq<Row>, r: Row)
    requires Live(before) && Sweeps(before, p, capped, after)
    ensures Live(after)
    ensures r in after <==>
      && r in before
      && !Expired(r, p.operational, p.opCutoff)
      && !Expired(r, p.audit, p.auditCutoff)
      && r.id !in capped
  {
    var aged := OlderThan(before, p.operational, p.opCutoff);
    var unexpired := Without(before, aged);
    var kept := Without(unexpired, capped);
    var agedAudit := OlderThan(kept, p.audit, p.auditCutoff);
    WithoutKeepsLive(before, aged);
    WithoutKeepsLive(unexpired, capped);
    WithoutKeepsLive(kept, agedAudit);
    InWithout(before, aged, r);
    InWithout(unexpired, capped, r);
    InWithout(kept, agedAudit, r);
    if r in before {
      OlderThanMeans(before, p.operational, p.opCutoff, r);
    }
    if r in kept {
      OlderThanMeans(kept, p.audit, p.auditCutoff, r);
    }
  }

  /** The capped rows are unexpired operational rows, none newer than an operational survivor, and
      just enough of them: the cap's worth of operational rows survive, or all when there are fewer. */
  lemma {:induction false} SweepKeepsNewest(before: seq<Row>, p: Policy, capped: set<string>, after: seq<Row>)
    requires Live(before) && Sweeps(before, p, capped, after) && p.operational !! p.audit
    ensures forall id :: id in capped ==>
      exists v :: v in before && v.id == id && OfKind(v, p.operational) && !Expired(v, p.operational, p.opCutoff)
    ensures forall v, r :: v in before && v.id in capped && r in after && OfKind(r, p.operational) ==>
      v.createdAt <= r.createdAt
    ensures var unexpired := CountOf(Without(before, OlderThan(before, p.operational, p.opCutoff)), p.operational);
      CountOf(after, p.operational) == if unexpired <= p.maxRows then unexpired else p.maxRows
  {
    var aged := OlderThan(before, p.operational, p.opCutoff);
    var unexpired := Without(before, aged);
    var kept := Without(unexpired, capped);
    WithoutKeepsLive(before, aged);
    WithoutKeepsLive(unexpired, capped);
    WithoutCountsKind(unexpired, p.operational, capped);
    forall r | r in kept && r.id in OlderThan(kept, p.audit, p.auditCutoff) ensures !OfKind(r, p.operational) {
      OlderThanMeans(kept, p.audit, p.auditCutoff, r);
    }
    WithoutOtherKinds(kept, p.operational, OlderThan(kept, p.audit, p.auditCutoff));
    forall id | id in capped
      ensures exists v :: v in before && v.id == id && OfKind(v, p.operational) && !Expired(v, p.operational, p.opCutoff)
    {
      var v :| v in unexpired && OfKind(v, p.operational) && v.id == id;
      InWithout(before, aged, v);
      OlderThanMeans(before, p.operational, p.opCutoff, v);
    }
    forall v, r | v in before && v.id in capped && r in after && OfKind(r, p.operational)
      ensures v.createdAt <= r.createdAt
    {
      var w :| w in unexpired && OfKind(w, p.operational) && w.id == v.id;
      InWithout(before, aged, w);
      SameId(before, v, w);
      InWithout(kept, OlderThan(kept, p.audit, p.auditCutoff), r);
      InWithout(unexpired, capped, r);
    }
  }

  lemma {:induction false} WithoutNone(rows: seq<Row>, ids: set<string>)
    requires forall r :: r in rows ==> r.id !in ids
    ensures Without(rows, ids) == rows
  {
    if rows != [] {
      WithoutNone(rows[1..], ids);
    }
  }

  /** Sweeping again with the clock standing still changes nothing. */
  lemma {:induction false} SweepIsIdempotent(
      before: seq<Row>, p: Policy, capped: set<string>, after: seq<Row>, capped': set<string>, after': seq<Row>)
    requires Live(before) && Sweeps(before, p, capped, after) && Sweeps(after, p, capped', after')
    ensures after' == after && capped' == {}
  {
    var aged := OlderThan(before, p.operational, p.opCutoff);
    var unexpired := Without(before, aged);
    var kept := Without(unexpired, capped);
    WithoutKeepsLive(before, aged);
    WithoutKeepsLive(unexpired, capped);
    WithoutCountsKind(unexpired, p.operational, capped);
    WithoutCountsNoMore(kept, p.operational, OlderThan(kept, p.audit, p.auditCutoff));
    forall r | r in after
      ensures !Expired(r, p.operational, p.opCutoff) && !Expired(r, p.audit, p.auditCutoff)
    {
      SweepSurvivors(before, p, capped, after, r);
    }
    assert OlderThan(after, p.operational, p.opCutoff) == {};
    WithoutNone(after, {});
    assert OlderThan(after, p.audit, p.auditCutoff) == {};
  }

  /** The deletions a sweep reports add up to the rows that are gone. */
  lemma {:induction false} SweepReportsAddUp(before: seq<Row>, p: Policy, capped: set<string>, after: seq<Row>)
    requires Live(before) && Sweeps(before, p, capped, after)
    ensures var aged := OlderThan(before, p.operational, p.opCutoff);
      var kept := Without(Without(before, aged), capped);
      |before| - |after| == |aged| + |capped| + |OlderThan(kept, p.audit, p.auditCutoff)|
  {
    var aged := OlderThan(before, p.operational, p.opCutoff);
    var unexpired := Without(before, aged);
    var kept := Without(unexpired, capped);
    WithoutKeepsLive(before, aged);
    WithoutKeepsLive(unexpired, capped);
    WithoutCounts(before, aged);
    WithoutCounts(unexpired, capped);
    WithoutCounts(kept, OlderThan(kept, p.audit, p.auditCutoff));
  }

  /** Pruning can lower the largest number in use: right after a sweep the next number is one a row of the swept log
      had exactly when the sweep took that log's newest row. So numbers identify live rows only. */
  lemma {:induction false} SeqIsReusedExactlyWhenNewestGoes(rows: seq<Row>, ids: set<string>)
    requires Live(rows) && rows != []
    ensures NextSeq(Without(rows, ids)) <= rows[|rows| - 1].rowSeq <==> rows[|rows| - 1].id in ids
  {
    var last := rows[|rows| - 1];
    var after := Without(rows, ids);
    WithoutKeepsLive(rows, ids);
    MaxSeqIsLast(after);
    InWithout(rows, ids, last);
    if last.id in ids {
      if after != [] {
        InWithout(rows, ids, after[|after| - 1]);
      }
    } else {
      var i :| 0 <= i < |after| && after[i] == last;
      MaxSeqBounds(after, i);
    }
  }

  // ---------------------------------------------------------------- paging

  lemma {:induction false} SelectAppend(a: seq<Row>, b: seq<Row>, f: Filter, after: nat)
    ensures SelectAfter(a + b, f, after) == SelectAfter(a, f, after) + SelectAfter(b, f, after)
  {
    if a == [] {
      assert a + b == b;
    } else {
      assert (a + b)[1..] == a[1..] + b;
      SelectAppend(a[1..], b, f, after);
    }
  }

  /** What a query returns: exactly the log's rows past the cursor that the filter asks for. */
  lemma {:induction false} InSelect(rows: seq<Row>, f: Filter, after: nat, r: Row)
    ensures r in SelectAfter(rows, f, after) <==> r in rows && r.rowSeq > after && f.Matches(r.event)
  {
    if rows != [] {
      InSelect(rows[1..], f, after, r);
      assert r in rows <==> r == rows[0] || r in rows[1..];
    }
  }

  lemma {:induction false} SelectKeepsLive(rows: seq<Row>, f: Filter, after: nat)
    requires Live(rows)
    ensures Live(SelectAfter(rows, f, after))
  {
    if rows != [] {
      SelectKeepsLive(rows[1..], f, after);
      var rest := SelectAfter(rows[1..], f, after);
      forall i | 0 <= i < |rest| ensures rows[0].rowSeq < rest[i].rowSeq && rows[0].id != rest[i].id {
        InSelect(rows[1..], f, after, rest[i]);
      }
    }
  }

  lemma {:induction false} SeqOfLive(rows: seq<Row>, r: Row)
    requires Live(rows) && r in rows
    ensures SeqOf(rows, r.id) == r.rowSeq
  {
    if rows[0].id != r.id {
      SeqOfLive(rows[1..], r);
    }
  }

  /** Filtering further on from a matching row leaves exactly the matches behind it. */
  lemma {:induction false} SelectFromMatch(rows: seq<Row>, f: Filter, after: nat, k: nat)
    requires Live(rows) && k < |SelectAfter(rows, f, after)|
    ensures var sel := SelectAfter(rows, f, after);
      SelectAfter(rows, f, sel[k].rowSeq) == sel[k + 1..]
    decreases |rows|
  {
    hide Filter.Matches;
    var sel := SelectAfter(rows, f, after);
    InSelect(rows, f, after, sel[k]);
    var rest := SelectAfter(rows[1..], f, after);
    if rows[0].rowSeq > after && f.Matches(rows[0].event) {
      assert sel == [rows[0]] + rest;
      if k == 0 {
        LowerBoundsDoNotMatter(rows[1..], f, after, rows[0].rowSeq);
      } else {
        SelectFromMatch(rows[1..], f, after, k - 1);
        InSelect(rows[1..], f, after, rest[k - 1]);
        assert sel[k + 1..] == rest[k..];
      }
    } else {
      SelectFromMatch(rows[1..], f, after, k);
      InSelect(rows[1..], f, after, rest[k]);
    }
  }

  lemma {:induction false} LowerBoundsDoNotMatter(rows: seq<Row>, f: Filter, a: nat, b: nat)
    requires forall i :: 0 <= i < |rows| ==> rows[i].rowSeq > a && rows[i].rowSeq > b
    ensures SelectAfter(rows, f, a) == SelectAfter(rows, f, b)
  {
    if rows != [] {
      LowerBoundsDoNotMatter(rows[1..], f, a, b);
    }
  }

  lemma {:induction false} FilterIgnoresCursor(rows: seq<Row>, f: Filter, id: string, after: nat)
    ensures SelectAfter(rows, f.From(id), after) == SelectAfter(rows, f, after)
  {
    if rows != [] {
      FilterIgnoresCursor(rows[1..], f, id, after);
    }
  }

  /** A log that has grown by appends. */
  ghost predicate GrowsTo(a: seq<Row>, b: seq<Row>) { a <= b && Live(b) }

  ghost predicate Growing(logs: seq<seq<Row>>) {
    && (forall i :: 0 <= i < |logs| ==> Live(logs[i]))
    && (forall i, j :: 0 <= i <= j < |logs| ==> logs[i] <= logs[j])
  }

  /** A cursor the log can honour: none at all, or the id of a live row. */
  predicate LiveCursor(rows: seq<Row>, f: Filter) {
    f.HasCursor() ==> HasId(rows, f.sinceEventId.value)
  }

  lemma {:induction false} CursorKeepsPlace(a: seq<Row>, b: seq<Row>, f: Filter)
    requires GrowsTo(a, b) && LiveCursor(a, f)
    ensures After(a, f) == After(b, f) && LiveCursor(b, f)
  {
    if f.HasCursor() {
      var i :| 0 <= i < |a| && a[i].id == f.sinceEventId.value;
      assert b[i] == a[i] && a[i] in b && Live(a);
      SeqOfLive(a, a[i]);
      SeqOfLive(b, a[i]);
    }
  }

  /** Following pages: the k-th request reads the k-th state of the log and continues after the last
      event it was given, for as long as the pages say there is more. */
  function Follow(logs: seq<seq<Row>>, f: Filter): seq<Row>
    decreases |logs|
  {
    if logs == [] then []
    else
      var page := GetPage(logs[0], f);
      if page.hasMore && page.events != []
      then page.events + Follow(logs[1..], f.From(page.events[|page.events| - 1].id))
      else page.events
  }

  /** Some page said there is no more before the logs ran out. */
  predicate Finishes(logs: seq<seq<Row>>, f: Filter)
    decreases |logs|
  {
    if logs == [] then false
    else
      var page := GetPage(logs[0], f);
      if page.hasMore && page.events != []
      then Finishes(logs[1..], f.From(page.events[|page.events| - 1].id))
      else !page.hasMore
  }

  /** Which log the last request read. */
  function LastRead(logs: seq<seq<Row>>, f: Filter): (k: nat)
    requires Finishes(logs, f)
    ensures k < |logs|
    decreases |logs|
  {
    var page := GetPage(logs[0], f);
    if page.hasMore then 1 + LastRead(logs[1..], f.From(page.events[|page.events| - 1].id)) else 0
  }

  /** After a page with more to come, the next cursor stands exactly behind that page, in this log
      and in every later one. */
  lemma {:induction false} NextCursor(rows: seq<Row>, f: Filter, later: seq<Row>)
    requires Live(rows) && GetPage(rows, f).events != [] && GrowsTo(rows, later)
    requires forall i :: 0 <= i < |rows| ==> rows[i].id != ""
    ensures var events := GetPage(rows, f).events;
      var g := f.From(events[|events| - 1].id);
      && LiveCursor(rows, g) && g.HasCursor()
      && SelectAfter(later, f, After(rows, f)) == events + SelectAfter(later, g, After(rows, g))
  {
    hide Filter.Matches;
    var after := After(rows, f);
    var events := GetPage(rows, f).events;
    var k: nat := |events| - 1;
    var last := events[k];
    assert last == Select(rows, f)[k];
    InSelect(rows, f, after, last);
    SeqOfLive(rows, last);
    LaterSelectionExtends(rows, f, after, later);
    var all := SelectAfter(later, f, after);
    assert all[k] == last;
    SelectFromMatch(later, f, after, k);
    FilterIgnoresCursor(later, f, last.id, last.rowSeq);
    assert all == all[..k + 1] + all[k + 1..];
    assert all[..k + 1] == events;
  }

  lemma {:induction false} LaterSelectionExtends(rows: seq<Row>, f: Filter, after: nat, later: seq<Row>)
    requires rows <= later
    ensures SelectAfter(rows, f, after) <= SelectAfter(later, f, after)
  {
    SelectAppend(rows, later[|rows|..], f, after);
    assert later == rows + later[|rows|..];
  }

  /** Once a page says there is no more, the pages are everything the log it was read from holds after the
      first cursor. */
  lemma {:induction false} FinishedPagesAreAll(logs: seq<seq<Row>>, f: Filter)
    requires Growing(logs) && logs != [] && LiveCursor(logs[0], f) && Finishes(logs, f)
    requires forall k, i :: 0 <= k < |logs| && 0 <= i < |logs[k]| ==> logs[k][i].id != ""
    ensures Follow(logs, f) == SelectAfter(logs[LastRead(logs, f)], f, After(logs[0], f))
    decreases |logs|
  {
    hide SelectAfter, Filter.Matches, GetPage, HasId, Live;
    var rows := logs[0];
    var page := GetPage(rows, f);
    if page.hasMore {
      var g := f.From(page.events[|page.events| - 1].id);
      NextCursor(rows, f, logs[LastRead(logs, f)]);
      CursorKeepsPlace(rows, logs[1], g);
      FinishedPagesAreAll(logs[1..], g);
    }
  }

  /** Pages taken while the log grows are, put together, a prefix of what the last log holds after the
      cursor: nothing is skipped, repeated or reordered; and once a page says there is no more they
      are all of what the log it was read from held. */
  lemma {:induction false} PagesConcatenate(logs: seq<seq<Row>>, f: Filter, final: seq<Row>)
    requires Growing(logs) && logs != [] && LiveCursor(logs[0], f)
    requires logs[|logs| - 1] <= final && Live(final)
    requires forall i :: 0 <= i < |final| ==> final[i].id != ""
    ensures Follow(logs, f) <= SelectAfter(final, f, After(logs[0], f))
    ensures Finishes(logs, f) ==> Follow(logs, f) == SelectAfter(logs[LastRead(logs, f)], f, After(logs[0], f))
    decreases |logs|
  {
    forall k, i | 0 <= k < |logs| && 0 <= i < |logs[k]| ensures logs[k][i].id != "" {
      assert logs[k] <= logs[|logs| - 1] && logs[k][i] == final[i];
    }
    if Finishes(logs, f) { FinishedPagesAreAll(logs, f); }
    PagesArePrefix(logs, f, final);
  }

  lemma {:induction false} PagesArePrefix(logs: seq<seq<Row>>, f: Filter, final: seq<Row>)
    requires Growing(logs) && logs != [] && LiveCursor(logs[0], f)
    requires logs[|logs| - 1] <= final && Live(final)
    requires forall i :: 0 <= i < |final| ==> final[i].id != ""
    ensures Follow(logs, f) <= SelectAfter(final, f, After(logs[0], f))
    decreases |logs|
  {
    var rows := logs[0];
    var page := GetPage(rows, f);
    LaterSelectionExtends(rows, f, After(rows, f), final);
    if page.hasMore && page.events != [] {
      forall i | 0 <= i < |rows| ensures rows[i].id != "" { assert rows[i] == final[i]; }
      NextCursor(rows, f, final);
      var g := f.From(page.events[|page.events| - 1].id);
      if logs[1..] != [] {
        CursorKeepsPlace(rows, logs[1], g);
        PagesArePrefix(logs[1..], g, final);
      }
    }
  }

  /** Number of pages `n` matches fill, the last one saying there is no more. */
  function PagesFor(n: nat, size: nat): nat
    requires size >= 1
  {
    if n <= size then 1 else 1 + PagesFor(n - size, size)
  }

  /** With the log standing still and any limit of at least one, following pages terminates after the
      ceiling of matches over page size, and yields every match after the cursor once, in order. */
  lemma {:induction false} PagingIsComplete(rows: seq<Row>, f: Filter, logs: seq<seq<Row>>)
    requires Live(rows) && f.PageSize() >= 1
    requires forall i :: 0 <= i < |logs| ==> logs[i] == rows
    requires forall i :: 0 <= i < |rows| ==> rows[i].id != ""
    ensures Finishes(logs, f) <==> |logs| >= PagesFor(|Select(rows, f)|, f.PageSize())
    ensures Finishes(logs, f) ==> Follow(logs, f) == Select(rows, f)
    decreases |logs|
  {
    if logs != [] {
      var page := GetPage(rows, f);
      if page.hasMore {
        NextCursor(rows, f, rows);
        PagingIsComplete(rows, f.From(page.events[|page.events| - 1].id), logs[1..]);
      }
    }
  }

  lemma {:induction false} WithoutAppend(a: seq<Row>, b: seq<Row>, ids: set<string>)
    ensures Without(a + b, ids) == Without(a, ids) + Without(b, ids)
  {
    if a == [] {
      assert a + b == b;
    } else {
      assert (a + b)[1..] == a[1..] + b;
      WithoutAppend(a[1..], b, ids);
    }
  }

  lemma {:induction false} NothingPast(rows: seq<Row>, f: Filter, after: nat)
    requires forall i :: 0 <= i < |rows| ==> rows[i].rowSeq <= after
    ensures SelectAfter(rows, f, after) == []
  {
    if rows != [] { NothingPast(rows[1..], f, after); }
  }

  /** A cursor whose row is live splits the log where the row stands. */
  lemma {:induction false} LiveCursorSplits(head: seq<Row>, row: Row, tail: seq<Row>, f: Filter)
    requires Live(head + [row] + tail) && f.HasCursor() && f.sinceEventId.value == row.id
    ensures Select(head + [row] + tail, f) == SelectAfter(tail, f, 0)
  {
    hide Filter.Matches;
    var rows := head + [row] + tail;
    assert rows[|head|] == row;
    SeqOfLive(rows, row);
    SelectAppend(head + [row], tail, f, row.rowSeq);
    forall i | 0 <= i < |head + [row]| ensures (head + [row])[i].rowSeq <= row.rowSeq {
      assert rows[i] == (head + [row])[i];
    }
    NothingPast(head + [row], f, row.rowSeq);
    forall i | 0 <= i < |tail| ensures tail[i].rowSeq > row.rowSeq {
      assert rows[|head| + 1 + i] == tail[i];
    }
    LowerBoundsDoNotMatter(tail, f, 0, row.rowSeq);
  }

  lemma {:induction false} KeptCursor(before: seq<Row>, c: nat, ids: set<string>, more: seq<Row>, f: Filter)
    requires c < |before| && before[c].id !in ids && Live(Without(before, ids) + more)
    requires f.HasCursor() && f.sinceEventId.value == before[c].id
    ensures Select(Without(before, ids) + more, f) == SelectAfter(Without(before[c + 1..], ids) + more, f, 0)
  {
    hide SelectAfter;
    var row, rest := before[c], before[c + 1..];
    assert before == before[..c] + ([row] + rest) && [row][1..] == [];
    WithoutAppend(before[..c], [row] + rest, ids);
    WithoutAppend([row], rest, ids);
    var head, tail := Without(before[..c], ids), Without(rest, ids) + more;
    assert Without(before, ids) + more == head + [row] + tail;
    LiveCursorSplits(head, row, tail, f);
  }

  lemma {:induction false} PrunedCursor(before: seq<Row>, c: nat, ids: set<string>, more: seq<Row>, f: Filter)
    requires c < |before| && before[c].id in ids && forall r :: r in more ==> r.id != before[c].id
    requires f.HasCursor() && f.sinceEventId.value == before[c].id && Live(before)
    ensures Select(Without(before, ids) + more, f)
      == SelectAfter(Without(before[..c + 1], ids), f, 0) + SelectAfter(Without(before[c + 1..], ids) + more, f, 0)
  {
    hide SelectAfter;
    var rows := Without(before, ids) + more;
    forall i | 0 <= i < |rows| ensures rows[i].id != before[c].id {
      if i < |Without(before, ids)| { InWithout(before, ids, rows[i]); } else { assert rows[i] in more; }
    }
    SeqOfAbsent(rows, before[c].id);
    assert before == before[..c + 1] + before[c + 1..];
    WithoutAppend(before[..c + 1], before[c + 1..], ids);
    var head, tail := Without(before[..c + 1], ids), Without(before[c + 1..], ids) + more;
    assert rows == head + tail;
    SelectAppend(head, tail, f, 0);
  }

  /** A cursor whose row has been pruned reads as no cursor: the log comes back from its start. So after a sweep of
      the rows `ids` and any appends `more`, a query is answered with what was inserted after the cursor's row, and
      nothing else, exactly when that row is still live or nothing that matches is left at or before its place. By
      place, not by sequence number: an append can be given the number the pruned row had. */
  lemma {:induction false} PrunedCursorRestarts(before: seq<Row>, c: nat, ids: set<string>, more: seq<Row>, f: Filter)
    requires Live(before) && c < |before| && f.HasCursor() && f.sinceEventId.value == before[c].id
    requires Live(Without(before, ids) + more) && forall r :: r in more ==> r.id != before[c].id
    ensures Select(Without(before, ids) + more, f) == SelectAfter(Without(before[c + 1..], ids) + more, f, 0)
      <==> before[c].id !in ids || SelectAfter(Without(before[..c + 1], ids), f, 0) == []
  {
    hide SelectAfter, Without, Live;
    if before[c].id in ids {
      PrunedCursor(before, c, ids, more, f);
    } else {
      KeptCursor(before, c, ids, more, f);
    }
  }

  lemma {:induction false} OneRow(x: Row, ids: set<string>, f: Filter, after: nat)
    ensures Without([x], ids) == if x.id in ids then [] else [x]
    ensures SelectAfter([x], f, after) == if x.rowSeq > after && f.Matches(x.event) then [x] else []
  {
    assert [x][1..] == [];
  }

  /** A log of two in which the newer row, the cursor, is pruned: the older one is sent again. */
  lemma {:induction false} PrunedCursorRepeats(w: Row, x: Row, f: Filter)
    requires w.rowSeq == 1 && x.rowSeq == 2 && w.id != x.id && f.Matches(w.event)
    requires f.HasCursor() && f.sinceEventId.value == x.id
    ensures Live([w, x]) && Without([w, x], {x.id}) == [w] && Select([w], f) == [w]
  {
    assert [w, x][1..] == [x];
    OneRow(x, {x.id}, f, 0);
    OneRow(w, {x.id}, f, 0);
    SeqOfAbsent([w], x.id);
  }

  /** And a log of one, pruned and appended to: the new row has the old one's number, and the query is answered as
      it should be. */
  lemma {:induction false} ReusedNumberIsHonoured(x: Row, y: Row, f: Filter)
    requires x.rowSeq == 1 && x.id != y.id && y.rowSeq == NextSeq(Without([x], {x.id})) && f.Matches(y.event)
    requires f.HasCursor() && f.sinceEventId.value == x.id
    ensures y.rowSeq == x.rowSeq && Select(Without([x], {x.id}) + [y], f) == [y]
  {
    OneRow(x, {x.id}, f, 0);
    OneRow(y, {x.id}, f, 0);
    assert Without([x], {x.id}) + [y] == [y];
    SeqOfAbsent([y], x.id);
  }

  lemma {:induction false} SeqOfAbsent(rows: seq<Row>, id: string)
    requires !HasId(rows, id)
    ensures SeqOf(rows, id) == 0
  {
    if rows != [] {
      assert rows[0].id != id;
      assert forall i :: 0 <= i < |rows[1..]| ==> rows[1..][i] == rows[i + 1];
      SeqOfAbsent(rows[1..], id);
    }
  }

  lemma {:induction false} SelectOneMore(rows: seq<Row>, f: Filter, after: nat, i: nat)
    requires i < |rows|
    ensures SelectAfter(rows[..i + 1], f, after) == SelectAfter(rows[..i], f, after)
      + if rows[i].rowSeq > after && f.Matches(rows[i].event) then [rows[i]] else []
  {
    assert rows[..i + 1] == rows[..i] + [rows[i]];
    SelectAppend(rows[..i], [rows[i]], f, after);
    assert [rows[i]][1..] == [];
  }

  // ---------------------------------------------------------------- what a query answers

  /** The four conditions a request can put on an event; an empty source or tenant puts none. */
  predicate Admits(f: Filter, e: Event) {
    && (match f.sinceAt case Some(t) => e.at >= t case None => true)
    && (match f.sourceAgent case Some(a) => a == "" || e.sourceAgent == a case None => true)
    && (match f.tenantId case Some(t) => t == "" || e.tenantId == Some(t) case None => true)
    && (|f.kinds| == 0 || "*" in f.kinds || exists i :: 0 <= i < |f.kinds| && f.kinds[i] == e.kind)
  }

  /** Row `i` comes after the cursor: there is none, no live row has its id, or that row is an earlier one. */
  predicate PastCursor(rows: seq<Row>, f: Filter, i: nat) {
    || f.sinceEventId == None || f.sinceEventId == Some("")
    || (forall j :: 0 <= j < |rows| && Some(rows[j].id) == f.sinceEventId ==> j < i)
  }

  /** How many rows a page holds at most. */
  function Limit(f: Filter): nat {
    match f.limit case None => 500 case Some(n) => if n <= 5000 then n else 5000
  }

  lemma {:induction false} SeqOfIsNone(rows: seq<Row>, id: string)
    requires Live(rows)
    ensures SeqOf(rows, id) == 0 <==> !HasId(rows, id)
  {
    if i :| 0 <= i < |rows| && rows[i].id == id {
      SeqOfLive(rows, rows[i]);
    } else {
      SeqOfAbsent(rows, id);
    }
  }

  /** Positions and sequence numbers say the same of a cursor. */
  lemma {:induction false} PastCursorBySeq(rows: seq<Row>, f: Filter, i: nat)
    requires Live(rows) && i < |rows|
    ensures PastCursor(rows, f, i) <==> rows[i].rowSeq > After(rows, f)
  {
    if f.HasCursor() {
      SeqOfIsNone(rows, f.sinceEventId.value);
      if j :| 0 <= j < |rows| && rows[j].id == f.sinceEventId.value {
        SeqOfLive(rows, rows[j]);
      }
    }
  }

  predicate Picked(row: Row, f: Filter, after: nat) { row.rowSeq > after && f.Matches(row.event) }

  /** `picks` are the indices below `n` of the rows a filter picks past a sequence number, and `sel` those rows. */
  ghost predicate PickedBelow(rows: seq<Row>, f: Filter, after: nat, n: nat, picks: seq<nat>, sel: seq<Row>)
    requires n <= |rows|
  {
    && Increasing(picks) && |sel| == |picks|
    && (forall k :: 0 <= k < |picks| ==> picks[k] < n && sel[k] == rows[picks[k]])
    && (forall i: nat :: i in picks <==> i < n && Picked(rows[i], f, after))
  }

  lemma {:induction false} PickOneMore(rows: seq<Row>, f: Filter, after: nat, n: nat, front: seq<nat>, sel: seq<Row>)
    requires n < |rows| && PickedBelow(rows, f, after, n, front, sel)
    ensures Picked(rows[n], f, after) ==> PickedBelow(rows, f, after, n + 1, front + [n], sel + [rows[n]])
    ensures !Picked(rows[n], f, after) ==> PickedBelow(rows, f, after, n + 1, front, sel)
  {
    hide Picked;
    var picks := front + [n];
    assert forall i: nat :: i in picks <==> i in front || i == n;
  }

  lemma {:induction false} PickedRows(rows: seq<Row>, f: Filter, after: nat, n: nat) returns (picks: seq<nat>)
    requires n <= |rows|
    ensures PickedBelow(rows, f, after, n, picks, SelectAfter(rows[..n], f, after))
  {
    hide SelectAfter, PickedBelow, Filter.Matches;
    if n == 0 {
      picks := [];
      assert PickedBelow(rows, f, after, 0, [], SelectAfter([], f, after)) by { NoneBelow(rows, f, after); }
      assert rows[..0] == [];
    } else {
      var front := PickedRows(rows, f, after, n - 1);
      var sel := SelectAfter(rows[..n - 1], f, after);
      SelectOneMore(rows, f, after, n - 1);
      PickOneMore(rows, f, after, n - 1, front, sel);
      picks := if Picked(rows[n - 1], f, after) then front + [n - 1] else front;
      assert sel + [] == sel;
    }
  }

  lemma {:induction false} NoneBelow(rows: seq<Row>, f: Filter, after: nat)
    ensures PickedBelow(rows, f, after, 0, [], SelectAfter([], f, after))
  {
  }

  /** A page holds, in the order of the log, rows past the cursor that meet the four conditions: the first ones,
      as many as the limit allows, and all of them exactly when it says there is no more. */
  lemma {:induction false} PageIsExactlyTheFirst(rows: seq<Row>, f: Filter) returns (picks: seq<nat>)
    requires Live(rows)
    ensures Increasing(picks)
    ensures forall i: nat :: i in picks <==> i < |rows| && PastCursor(rows, f, i) && Admits(f, rows[i].event)
    ensures var page := GetPage(rows, f);
      && |page.events| == (if |picks| <= Limit(f) then |picks| else Limit(f))
      && (page.hasMore <==> |picks| > Limit(f))
      && forall k :: 0 <= k < |page.events| ==> picks[k] < |rows| && page.events[k] == rows[picks[k]]
  {
    picks := PickedRows(rows, f, After(rows, f), |rows|);
    assert rows[..|rows|] == rows;
    hide SelectAfter;
    forall i: nat | i < |rows| ensures rows[i].rowSeq > After(rows, f) <==> PastCursor(rows, f, i) {
      PastCursorBySeq(rows, f, i);
    }
  }

  /** The row belongs to another tenant, to another source or kind, or to a time before the one asked for. */
  predicate Outside(f: Filter, e: Event) {
    || (f.tenantId.Some? && f.tenantId.value != "" && e.tenantId != f.tenantId)
    || (f.sourceAgent.Some? && f.sourceAgent.value != "" && e.sourceAgent != f.sourceAgent.value)
    || (f.kinds != [] && "*" !in f.kinds && e.kind !in f.kinds)
    || (f.sinceAt.Some? && e.at < f.sinceAt.value)
  }

  lemma {:induction false} OutsidersAreNotSelected(rows: seq<Row>, f: Filter, after: nat, ids: set<string>)
    requires forall r :: r in rows && r.id in ids ==> Outside(f, r.event)
    ensures SelectAfter(Without(rows, ids), f, after) == SelectAfter(rows, f, after)
  {
    if rows != [] {
      OutsidersAreNotSelected(rows[1..], f, after, ids);
      if rows[0].id !in ids {
        assert ([rows[0]] + Without(rows[1..], ids))[1..] == Without(rows[1..], ids);
      }
    }
  }

  lemma {:induction false} SeqOfKept(rows: seq<Row>, ids: set<string>, id: string)
    requires id !in ids
    ensures SeqOf(Without(rows, ids), id) == SeqOf(rows, id)
  {
    if rows != [] {
      SeqOfKept(rows[1..], ids, id);
      if rows[0].id !in ids {
        assert ([rows[0]] + Without(rows[1..], ids))[1..] == Without(rows[1..], ids);
      }
    }
  }

  /** What lies outside a query has no part in its answer: with any rows of other tenants, sources and kinds, or of
      earlier times, deleted from the log, the page is the same. So no page tells one tenant anything about
      another, but for the place its own cursor names. */
  lemma {:induction false} OutsidersDoNotMatter(rows: seq<Row>, f: Filter, ids: set<string>)
    requires forall r :: r in rows && r.id in ids ==> Outside(f, r.event)
    requires f.HasCursor() ==> f.sinceEventId.value !in ids
    ensures GetPage(Without(rows, ids), f) == GetPage(rows, f)
  {
    OutsidersAreNotSelected(rows, f, After(rows, f), ids);
    if f.HasCursor() { SeqOfKept(rows, ids, f.sinceEventId.value); }
  }

  // ---------------------------------------------------------------- the store itself

  datatype RetentionResult = RetentionResult(
    deletedOperational: nat, deletedAudit: nat, unknownPreserved: nat, beforeCount: nat, afterCount: nat)

  class Store {
    var rows: seq<Row>

    constructor ()
      ensures rows == [] && Live(rows)
    {
      rows := [];
    }

    /** Inserts under the caller's fresh id; a repeated primary key is refused by the database. */
    method AppendEvent(id: string, e: Event, now: int) returns (r: Result<Row, string>)
      requires Live(rows)
      modifies this
      ensures Live(rows)
      ensures r.Success? <==> !old(HasId(rows, id))
      ensures r.Success? ==> r.value == Row(id, e, now, NextSeq(old(rows))) && rows == old(rows) + [r.value]
      ensures r.Failure? ==> rows == old(rows)
    {
      if HasId(rows, id) {
        return Failure("UNIQUE constraint failed: events.id");
      }
      var row := Row(id, e, now, NextSeq(rows));
      AppendKeepsLive(rows, row);
      rows := rows + [row];
      r := Success(row);
    }

    /** Scans for up to one row more than the page holds, then cuts it off again. */
    method GetEvents(f: Filter) returns (p: Page)
      ensures p == GetPage(rows, f)
    {
      hide Filter.Matches;
      var after := After(rows, f);
      var size := f.PageSize();
      var limited: seq<Row> := [];
      var i := 0;
      while i < |rows| && |limited| < size + 1
        invariant i <= |rows| && |limited| <= size + 1
        invariant limited == SelectAfter(rows[..i], f, after)
      {
        SelectOneMore(rows, f, after, i);
        if rows[i].rowSeq > after && f.Matches(rows[i].event) {
          limited := limited + [rows[i]];
        }
        i := i + 1;
      }
      LaterSelectionExtends(rows[..i], f, after, rows);
      assert i == |rows| ==> rows[..i] == rows;
      var hasMore := |limited| > size;
      p := Page(if hasMore then limited[..size] else limited, hasMore);
    }

    /** The rows `ORDER BY created_at ASC LIMIT k` picks among the given kinds. */
    method SelectOldest(kinds: set<string>, k: nat) returns (ids: set<string>)
      requires Live(rows) && k <= CountOf(rows, kinds)
      ensures Oldest(rows, kinds, k, ids)
    {
      ids := {};
      while |ids| < k
        invariant |ids| <= k && Oldest(rows, kinds, |ids|, ids)
      {
        KindCountIsIdCount(rows, kinds);
        assert ids != KindIds(rows, kinds);
        var m := OldestLeft(kinds, ids);
        forall v, r | v in rows && r in rows && OfKind(v, kinds) && OfKind(r, kinds)
                      && v.id in ids + {m.id} && r.id !in ids + {m.id}
          ensures v.createdAt <= r.createdAt
        {
          if v.id == m.id {
            SameId(rows, v, m);
          }
        }
        ids := ids + {m.id};
      }
    }

    method OldestLeft(kinds: set<string>, ids: set<string>) returns (m: Row)
      requires ids < KindIds(rows, kinds)
      ensures m in rows && OfKind(m, kinds) && m.id !in ids
      ensures forall r :: r in rows && OfKind(r, kinds) && r.id !in ids ==> m.createdAt <= r.createdAt
    {
      var found := false;
      m := Row("", Event("", "", None, 0, ""), 0, 0);
      for i := 0 to |rows|
        invariant found ==> m in rows && OfKind(m, kinds) && m.id !in ids
        invariant forall j :: 0 <= j < i && OfKind(rows[j], kinds) && rows[j].id !in ids ==>
          found && m.createdAt <= rows[j].createdAt
      {
        if OfKind(rows[i], kinds) && rows[i].id !in ids && (!found || rows[i].createdAt < m.createdAt) {
          found, m := true, rows[i];
        }
      }
      var id :| id in KindIds(rows, kinds) && id !in ids;
    }

    /** One error-free retention sweep. */
    method PruneEvents(p: Policy) returns (result: RetentionResult, ghost capped: set<string>)
      requires Live(rows)
      modifies this
      ensures Live(rows) && Sweeps(old(rows), p, capped, rows)
      ensures result.beforeCount == |old(rows)| && result.afterCount == |rows|
      ensures result.deletedOperational + result.deletedAudit == result.beforeCount - result.afterCount
      ensures var unexpired := Without(old(rows), OlderThan(old(rows), p.operational, p.opCutoff));
        result.deletedAudit == |OlderThan(Without(unexpired, capped), p.audit, p.auditCutoff)|
      ensures result.unknownPreserved + CountOf(rows, p.operational + p.audit) == |rows|
    {
      ghost var before := rows;
      var beforeCount := |rows|;
      rows := Without(rows, OlderThan(rows, p.operational, p.opCutoff));
      WithoutKeepsLive(before, OlderThan(before, p.operational, p.opCutoff));
      var deletedOperational := beforeCount - |rows|;
      var oldest := SelectOldest(p.operational, Excess(rows, p.operational, p.maxRows));
      capped := oldest;
      ghost var unexpired := rows;
      rows := Without(rows, oldest);
      WithoutKeepsLive(unexpired, oldest);
      WithoutCounts(unexpired, oldest);
      deletedOperational := deletedOperational + |oldest|;
      var agedAudit := OlderThan(rows, p.audit, p.auditCutoff);
      WithoutCounts(rows, agedAudit);
      WithoutKeepsLive(rows, agedAudit);
      rows := Without(rows, agedAudit);
      SweepReportsAddUp(before, p, capped, rows);
      WithoutCounts(before, OlderThan(before, p.operational, p.opCutoff));
      KnownAndUnknown(rows, p.operational + p.audit);
      result := RetentionResult(
        deletedOperational, |agedAudit|, |rows| - CountOf(rows, p.operational + p.audit), beforeCount, |rows|);
    }
  }

  lemma {:induction false} KnownAndUnknown(rows: seq<Row>, kinds: set<string>)
    ensures CountOf(rows, kinds) <= |rows|
  {
    if rows != [] {
      KnownAndUnknown(rows[1..], kinds);
    }
  }
}
