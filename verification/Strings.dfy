/** Splitting and joining strings as the TypeScript and Rust sources do. */
module Strings {
  import opened Wrappers

  predicate OccursAt(s: string, sep: string, i: nat) {
    i + |sep| <= |s| && s[i..i + |sep|] == sep
  }

  function IndexFrom(s: string, sep: string, from: nat): (r: Option<nat>)
    requires from <= |s|
    ensures r.Some? ==> from <= r.value && OccursAt(s, sep, r.value)
    decreases |s| - from
  {
    if OccursAt(s, sep, from) then Some(from)
    else if from == |s| then None
    else IndexFrom(s, sep, from + 1)
  }

  /** Where `sep` first occurs. */
  function IndexOf(s: string, sep: string): (r: Option<nat>)
    ensures r.Some? ==> OccursAt(s, sep, r.value)
  {
    IndexFrom(s, sep, 0)
  }

  lemma {:induction false} IndexFromIsFirst(s: string, sep: string, from: nat)
    requires from <= |s|
    ensures var r := IndexFrom(s, sep, from);
      forall j :: from <= j < (if r.Some? then r.value else |s| + 1) ==> !OccursAt(s, sep, j)
    decreases |s| - from
  {
    if !OccursAt(s, sep, from) && from < |s| {
      IndexFromIsFirst(s, sep, from + 1);
    }
  }

  /** No occurrence comes before the one found, and there is none when none is found. */
  lemma {:induction false} IndexOfIsFirst(s: string, sep: string)
    ensures var r := IndexOf(s, sep);
      forall j :: 0 <= j < (if r.Some? then r.value else |s| + 1) ==> !OccursAt(s, sep, j)
  {
    IndexFromIsFirst(s, sep, 0);
  }

  /** Cuts at the leftmost occurrences of `sep`, never overlapping; always at least one part. */
  function Split(s: string, sep: string): (parts: seq<string>)
    requires sep != []
    ensures parts != []
    decreases |s|
  {
    match IndexOf(s, sep)
    case None => [s]
    case Some(i) => [s[..i]] + Split(s[i + |sep|..], sep)
  }

  function Join(parts: seq<string>, sep: string): string {
    if parts == [] then ""
    else if |parts| == 1 then parts[0]
    else parts[0] + sep + Join(parts[1..], sep)
  }

  function Concat(parts: seq<string>): string {
    if parts == [] then "" else parts[0] + Concat(parts[1..])
  }

  function Last<T>(s: seq<T>): T
    requires s != []
  {
    s[|s| - 1]
  }

  function Front<T>(s: seq<T>): seq<T>
    requires s != []
  {
    s[..|s| - 1]
  }

  predicate FreeOf(s: string, cs: string) {
    forall i :: 0 <= i < |s| ==> s[i] !in cs
  }

  lemma {:induction false} IndexOfIs(s: string, sep: string, i: nat)
    requires OccursAt(s, sep, i)
    requires forall j :: 0 <= j < i ==> !OccursAt(s, sep, j)
    ensures IndexOf(s, sep) == Some(i)
  {
    IndexOfIsFirst(s, sep);
  }

  /** Joining undoes splitting, whatever the separator. */
  lemma {:induction false} JoinUndoesSplit(s: string, sep: string)
    requires sep != []
    ensures Join(Split(s, sep), sep) == s
    decreases |s|
  {
    match IndexOf(s, sep)
    case None =>
    case Some(i) =>
      var rest := s[i + |sep|..];
      JoinUndoesSplit(rest, sep);
      assert Split(s, sep)[1..] == Split(rest, sep);
      assert s == s[..i] + sep + rest;
  }

  /** Splitting never leaves the separator inside a part. */
  lemma {:induction false} PartsHoldNoSeparator(s: string, sep: string, k: nat)
    requires sep != [] && k < |Split(s, sep)|
    ensures forall j :: 0 <= j <= |Split(s, sep)[k]| ==> !OccursAt(Split(s, sep)[k], sep, j)
    decreases |s|
  {
    IndexOfIsFirst(s, sep);
    match IndexOf(s, sep)
    case None =>
    case Some(i) =>
      if k == 0 {
        forall j | 0 <= j <= i ensures !OccursAt(s[..i], sep, j) {
          if OccursAt(s[..i], sep, j) {
            assert s[j..j + |sep|] == s[..i][j..j + |sep|];
            assert OccursAt(s, sep, j);
          }
        }
      } else {
        PartsHoldNoSeparator(s[i + |sep|..], sep, k - 1);
      }
  }

  lemma {:induction false} IndexOfAppend(p: string, q: string, sep: string)
    requires sep != [] && IndexOf(p, sep).Some?
    ensures IndexOf(p + q, sep) == IndexOf(p, sep)
  {
    var i := IndexOf(p, sep).value;
    IndexOfIsFirst(p, sep);
    forall j | 0 <= j <= i ensures OccursAt(p + q, sep, j) == OccursAt(p, sep, j) {
      assert (p + q)[j..j + |sep|] == p[j..j + |sep|];
    }
    IndexOfIs(p + q, sep, i);
  }

  lemma {:induction false} SplitFirst(s: string, sep: string, a: string, rest: string)
    requires sep != [] && s == a + sep + rest && IndexOf(s, sep) == Some(|a|)
    ensures Split(s, sep) == [a] + Split(rest, sep)
  {
    assert s[..|a|] == a && s[|a| + |sep|..] == rest;
  }

  /** Splitting a longer text only ever continues the last part: earlier parts are settled. */
  lemma {:induction false} SplitAppend(p: string, q: string, sep: string)
    requires sep != []
    ensures Split(p + q, sep) == Front(Split(p, sep)) + Split(Last(Split(p, sep)) + q, sep)
    decreases |p|
  {
    match IndexOf(p, sep)
    case None =>
      assert Split(p, sep) == [p];
    case Some(i) =>
      var a, rest := p[..i], p[i + |sep|..];
      assert p == a + sep + rest;
      IndexOfAppend(p, q, sep);
      assert p + q == a + sep + (rest + q);
      SplitFirst(p, sep, a, rest);
      SplitFirst(p + q, sep, a, rest + q);
      SplitAppend(rest, q, sep);
      FrontOfCons(a, Split(rest, sep), Split(Last(Split(rest, sep)) + q, sep));
  }

  lemma {:induction false} FrontOfCons<T>(a: T, parts: seq<T>, more: seq<T>)
    requires parts != []
    ensures Front([a] + parts) + more == [a] + (Front(parts) + more)
    ensures Last([a] + parts) == Last(parts)
  {
  }

  /** A single-character separator cuts a concatenation exactly where it was written. */
  lemma {:induction false} SplitAtWrittenSeparator(a: string, c: char, rest: string)
    requires c !in a
    ensures Split(a + [c] + rest, [c]) == [a] + Split(rest, [c])
  {
    var s := a + [c] + rest;
    forall j | 0 <= j < |a| ensures !OccursAt(s, [c], j) {
      assert s[j..j + 1] == [a[j]];
    }
    assert s[|a|..|a| + 1] == [c];
    IndexOfIs(s, [c], |a|);
    assert s[..|a|] == a && s[|a| + 1..] == rest;
  }

  lemma {:induction false} FrontAndLast<T>(parts: seq<T>, more: seq<T>)
    requires parts != []
    ensures Front(parts) + ([Last(parts)] + more) == parts + more
  {
  }

  lemma {:induction false} LastPartHoldsNone(s: string, c: char)
    ensures c !in Last(Split(s, [c]))
  {
    var last := Last(Split(s, [c]));
    PartsHoldNoSeparator(s, [c], |Split(s, [c])| - 1);
    forall j | 0 <= j < |last| ensures last[j] != c {
      assert !OccursAt(last, [c], j);
      assert last[j..j + 1] == [last[j]];
    }
  }

  /** A single-character separator, written anywhere, separates the parts before from those after. */
  lemma {:induction false} SplitAroundSeparator(a: string, c: char, rest: string)
    ensures Split(a + [c] + rest, [c]) == Split(a, [c]) + Split(rest, [c])
  {
    var parts, more := Split(a, [c]), Split(rest, [c]);
    var last := Last(parts);
    SplitAppend(a, [c] + rest, [c]);
    LastPartHoldsNone(a, c);
    SplitAtWrittenSeparator(last, c, rest);
    assert a + ([c] + rest) == a + [c] + rest;
    assert last + ([c] + rest) == last + [c] + rest;
    FrontAndLast(parts, more);
  }

  lemma {:induction false} SplitWithoutSeparator(a: string, c: char)
    requires c !in a
    ensures Split(a, [c]) == [a]
  {
    forall j | 0 <= j < |a| ensures !OccursAt(a, [c], j) {
      assert a[j..j + 1] == [a[j]];
    }
  }

  lemma {:induction false} ConcatAppend(a: seq<string>, b: seq<string>)
    ensures Concat(a + b) == Concat(a) + Concat(b)
  {
    if a == [] {
      assert a + b == b;
    } else {
      assert (a + b)[1..] == a[1..] + b;
      ConcatAppend(a[1..], b);
    }
  }

  lemma {:induction false} ConcatSnoc(parts: seq<string>, k: nat)
    requires k < |parts|
    ensures Concat(parts[..k + 1]) == Concat(parts[..k]) + parts[k]
  {
    assert parts[..k + 1] == parts[..k] + [parts[k]];
    ConcatAppend(parts[..k], [parts[k]]);
    assert Concat([parts[k]]) == parts[k] + Concat([]);
  }
}
