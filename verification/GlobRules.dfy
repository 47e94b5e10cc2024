/**
 The no-go list (proposed/types.ts): a glob is compiled to the text of a regular expression, which is then
 parsed and searched for by the language. Parsing and matching follow ECMA-262 section 22.2, without flags,
 for the fragment of patterns that needs no groups, classes or counted repetition.
 */
module GlobRules {
  import opened Wrappers
  import opened Strings

  // ---------------------------------------------------------------- compiling

  /** The characters `escapeRegex` puts a backslash before. */
  predicate IsEscaped(c: char) {
    c == '.' || c == '+' || c == '?' || c == '^' || c == '$' || c == '{' || c == '}' || c == '(' || c == ')'
    || c == '|' || c == '[' || c == ']' || c == '\\'
  }

  function EscapeChar(c: char): string { if IsEscaped(c) then ['\\', c] else [c] }

  function Escape(s: string): string {
    if s == [] then [] else EscapeChar(s[0]) + Escape(s[1..])
  }

  function EscapeAll(parts: seq<string>): (r: seq<string>)
    ensures |r| == |parts|
  {
    if parts == [] then [] else [Escape(parts[0])] + EscapeAll(parts[1..])
  }

  function Compile(pattern: string): string {
    ['^'] + Join(EscapeAll(Split(pattern, ['*'])), ['.', '*']) + ['$']
  }

  // ---------------------------------------------------------------- regular expressions

  datatype Term = Begin | End | Literal(c: char) | Dot | AnyRun

  /** SyntaxCharacter of section 22.2.1. */
  predicate IsSyntax(c: char) {
    c == '^' || c == '$' || c == '\\' || c == '.' || c == '*' || c == '+' || c == '?' || c == '(' || c == ')'
    || c == '[' || c == ']' || c == '{' || c == '}' || c == '|'
  }

  predicate Quantified(rest: string) {
    rest != [] && (rest[0] == '*' || rest[0] == '+' || rest[0] == '?' || rest[0] == '{')
  }

  datatype Piece = Piece(term: Term, width: nat)

  /** The first term of a pattern, before any quantifier. */
  function Atom(re: string): (r: Option<Piece>)
    requires re != []
    ensures r.Some? ==> 1 <= r.value.width <= |re|
  {
    var c := re[0];
    if c == '^' then Some(Piece(Begin, 1))
    else if c == '$' then Some(Piece(End, 1))
    else if c == '.' then (if |re| > 1 && re[1] == '*' then Some(Piece(AnyRun, 2)) else Some(Piece(Dot, 1)))
    else if c == '\\' then (if |re| > 1 && IsSyntax(re[1]) then Some(Piece(Literal(re[1]), 2)) else None)
    else if IsSyntax(c) then None
    else Some(Piece(Literal(c), 1))
  }

  /** None when the text is no pattern, or one outside the fragment. */
  function Parse(re: string): Option<seq<Term>>
    decreases |re|
  {
    if re == [] then Some([])
    else match Atom(re)
      case None => None
      case Some(p) => if Quantified(re[p.width..]) then None else After([p.term], Parse(re[p.width..]))
  }

  function After(terms: seq<Term>, rest: Option<seq<Term>>): Option<seq<Term>> {
    match rest
    case None => None
    case Some(more) => Some(terms + more)
  }

  predicate IsLineTerminator(c: char) { c == '\n' || c == '\r' || c == '\U{2028}' || c == '\U{2029}' }

  predicate OneLine(s: string) { forall k :: 0 <= k < |s| ==> !IsLineTerminator(s[k]) }

  /** Whether the terms match from position `i` of the target on, in some way. */
  predicate Matches(ts: seq<Term>, s: string, i: nat)
    requires i <= |s|
    decreases |ts|, |s| - i
  {
    if ts == [] then true
    else match ts[0]
      case Begin => i == 0 && Matches(ts[1..], s, i)
      case End => i == |s| && Matches(ts[1..], s, i)
      case Literal(c) => i < |s| && s[i] == c && Matches(ts[1..], s, i + 1)
      case Dot => i < |s| && !IsLineTerminator(s[i]) && Matches(ts[1..], s, i + 1)
      case AnyRun => Matches(ts[1..], s, i) || (i < |s| && !IsLineTerminator(s[i]) && Matches(ts, s, i + 1))
  }

  /** `RegExp.prototype.test`: a match starting anywhere. */
  predicate Test(ts: seq<Term>, s: string) {
    exists i :: 0 <= i <= |s| && Matches(ts, s, i)
  }

  predicate MatchGlob(pattern: string, target: string) {
    match Parse(Compile(pattern))
    case Some(ts) => Test(ts, target)
    case None => false
  }

  // ---------------------------------------------------------------- what the compiled text parses to

  function Literals(w: string): seq<Term> {
    if w == [] then [] else [Literal(w[0])] + Literals(w[1..])
  }

  /** Literal runs with an any-run between each two, up to the end. */
  function Body(parts: seq<string>): seq<Term>
    requires parts != []
  {
    if |parts| == 1 then Literals(parts[0]) + [End] else Literals(parts[0]) + ([AnyRun] + Body(parts[1..]))
  }

  lemma {:induction false} EscapeIsNoQuantifier(s: string, rest: string)
    requires '*' !in s && !Quantified(rest)
    ensures !Quantified(Escape(s) + rest)
  {
  }

  lemma {:induction false} ParseStep(re: string, rest: string)
    requires re != [] && Atom(re).Some? && re[Atom(re).value.width..] == rest && !Quantified(rest)
    ensures Parse(re) == After([Atom(re).value.term], Parse(rest))
  {
  }

  lemma {:induction false} ParseEscapedChar(c: char, rest: string)
    requires c != '*' && !Quantified(rest)
    ensures Parse(EscapeChar(c) + rest) == After([Literal(c)], Parse(rest))
  {
  }

  lemma {:induction false} AfterAfter(a: seq<Term>, b: seq<Term>, rest: Option<seq<Term>>)
    ensures After(a, After(b, rest)) == After(a + b, rest)
  {
    if rest.Some? { assert a + (b + rest.value) == a + b + rest.value; }
  }

  lemma {:induction false} ParseEscaped(s: string, rest: string)
    requires '*' !in s && !Quantified(rest)
    ensures Parse(Escape(s) + rest) == After(Literals(s), Parse(rest))
  {
    hide Parse, EscapeChar, Quantified;
    if s == [] {
      assert Escape(s) + rest == rest;
      if Parse(rest).Some? { assert Literals(s) + Parse(rest).value == Parse(rest).value; }
    } else {
      var more := Escape(s[1..]) + rest;
      assert s[0] in s;
      EscapeIsNoQuantifier(s[1..], rest);
      assert Escape(s) + rest == EscapeChar(s[0]) + more;
      ParseEscapedChar(s[0], more);
      ParseEscaped(s[1..], rest);
      AfterAfter([Literal(s[0])], Literals(s[1..]), Parse(rest));
    }
  }

  lemma {:induction false} ParseEnd()
    ensures !Quantified(['$']) && Parse(['$']) == Some([End])
  {
    var re := ['$'];
    assert re[1..] == [];
    ParseStep(re, []);
    assert [End] + [] == [End];
  }

  lemma {:induction false} ParseRun(rest: string)
    requires !Quantified(rest)
    ensures !Quantified(['.', '*'] + rest) && Parse(['.', '*'] + rest) == After([AnyRun], Parse(rest))
  {
  }

  lemma {:induction false} ParseJoined(parts: seq<string>)
    requires parts != [] && forall k :: 0 <= k < |parts| ==> '*' !in parts[k]
    ensures !Quantified(Join(EscapeAll(parts), ['.', '*']) + ['$'])
    ensures Parse(Join(EscapeAll(parts), ['.', '*']) + ['$']) == Some(Body(parts))
  {
    hide Parse, Quantified;
    var dotStar, end := ['.', '*'], ['$'];
    var joined := Join(EscapeAll(parts), dotStar);
    if |parts| == 1 {
      assert joined == Escape(parts[0]);
      ParseEnd();
      EscapeIsNoQuantifier(parts[0], end);
      ParseEscaped(parts[0], end);
    } else {
      var rest := Join(EscapeAll(parts[1..]), dotStar) + end;
      assert EscapeAll(parts)[1..] == EscapeAll(parts[1..]);
      ParseJoined(parts[1..]);
      ParseRun(rest);
      assert joined + end == Escape(parts[0]) + (dotStar + rest);
      EscapeIsNoQuantifier(parts[0], dotStar + rest);
      ParseEscaped(parts[0], dotStar + rest);
    }
  }

  lemma {:induction false} PartsHoldNoStar(pattern: string)
    ensures forall k :: 0 <= k < |Split(pattern, ['*'])| ==> '*' !in Split(pattern, ['*'])[k]
  {
    var parts := Split(pattern, ['*']);
    forall k | 0 <= k < |parts| ensures '*' !in parts[k] {
      PartsHoldNoSeparator(pattern, ['*'], k);
      forall j | 0 <= j < |parts[k]| ensures parts[k][j] != '*' {
        assert !OccursAt(parts[k], ['*'], j);
        assert parts[k][j..j + 1] == [parts[k][j]];
      }
    }
  }

  /** Whatever the pattern, metacharacters included, the compiled text is a regular expression, and it holds
      nothing but the anchors, the pattern's own characters as literals, and an any-run per `*`. */
  lemma {:induction false} CompiledParsesToLiterals(pattern: string)
    ensures Parse(Compile(pattern)) == Some([Begin] + Body(Split(pattern, ['*'])))
  {
    var parts := Split(pattern, ['*']);
    var rest := Join(EscapeAll(parts), ['.', '*']) + ['$'];
    PartsHoldNoStar(pattern);
    ParseJoined(parts);
    var re := ['^'] + rest;
    assert Compile(pattern) == re && re[1..] == rest;
    ParseStep(re, rest);
  }

  // ---------------------------------------------------------------- what it matches

  /** The segments in order with the gaps between them. */
  function Weave(parts: seq<string>, gaps: seq<string>): string
    requires |parts| == |gaps| + 1
  {
    if gaps == [] then parts[0] else parts[0] + gaps[0] + Weave(parts[1..], gaps[1..])
  }

  predicate OneLineGaps(gaps: seq<string>) { forall k :: 0 <= k < |gaps| ==> OneLine(gaps[k]) }

  lemma {:induction false} MatchesOneLiteral(c: char, ts: seq<Term>, s: string, i: nat)
    requires i <= |s|
    ensures Matches([Literal(c)] + ts, s, i) <==> i < |s| && s[i] == c && Matches(ts, s, i + 1)
  {
  }

  lemma {:induction false} PrefixByHead(w: string, s: string, i: nat)
    requires w != [] && i + |w| <= |s|
    ensures s[i..i + |w|] == w <==> s[i] == w[0] && s[i + 1..i + 1 + |w[1..]|] == w[1..]
  {
  }

  lemma {:induction false} MatchesLiterals(w: string, ts: seq<Term>, s: string, i: nat)
    requires i <= |s|
    ensures Matches(Literals(w) + ts, s, i) <==>
      i + |w| <= |s| && s[i..i + |w|] == w && Matches(ts, s, i + |w|)
    decreases |w|
  {
    hide Matches;
    if w == [] {
      assert Literals(w) + ts == ts && s[i..i] == w;
    } else {
      assert Literals(w) + ts == [Literal(w[0])] + (Literals(w[1..]) + ts);
      MatchesOneLiteral(w[0], Literals(w[1..]) + ts, s, i);
      if i < |s| { MatchesLiterals(w[1..], ts, s, i + 1); }
      if i + |w| <= |s| { PrefixByHead(w, s, i); }
    }
  }

  /** An any-run reaches exactly the positions with no line terminator before them. */
  lemma {:induction false} RunReaches(ts: seq<Term>, s: string, i: nat) returns (j: nat)
    requires i <= |s| && Matches([AnyRun] + ts, s, i)
    ensures i <= j <= |s| && OneLine(s[i..j]) && Matches(ts, s, j)
    decreases |s| - i
  {
    var all := [AnyRun] + ts;
    assert all[1..] == ts;
    if Matches(ts, s, i) {
      j := i;
    } else {
      j := RunReaches(ts, s, i + 1);
      forall k | 0 <= k < |s[i..j]| ensures !IsLineTerminator(s[i..j][k]) {
        if k > 0 { assert s[i..j][k] == s[i + 1..j][k - 1]; }
      }
    }
  }

  lemma {:induction false} RunMatches(ts: seq<Term>, s: string, i: nat, j: nat)
    requires i <= j <= |s| && OneLine(s[i..j]) && Matches(ts, s, j)
    ensures Matches([AnyRun] + ts, s, i)
    decreases j - i
  {
    var all := [AnyRun] + ts;
    assert all[1..] == ts;
    if i < j {
      assert s[i] == s[i..j][0];
      var gap := s[i + 1..j];
      forall k | 0 <= k < |gap| ensures !IsLineTerminator(gap[k]) {
        assert gap[k] == s[i..j][k + 1];
      }
      RunMatches(ts, s, i + 1, j);
    }
  }

  lemma {:induction false} EndMatches(s: string, i: nat)
    requires i <= |s|
    ensures Matches([End], s, i) <==> i == |s|
  {
  }

  lemma {:induction false} BodyGivesGaps(parts: seq<string>, s: string, i: nat) returns (gaps: seq<string>)
    requires parts != [] && i <= |s| && Matches(Body(parts), s, i)
    ensures |parts| == |gaps| + 1 && OneLineGaps(gaps) && s[i..] == Weave(parts, gaps)
    decreases |parts|
  {
    hide Matches, OneLine, Literals;
    var next := i + |parts[0]|;
    if |parts| == 1 {
      MatchesLiterals(parts[0], [End], s, i);
      EndMatches(s, next);
      gaps := [];
    } else {
      var tail := Body(parts[1..]);
      MatchesLiterals(parts[0], [AnyRun] + tail, s, i);
      var j := RunReaches(tail, s, next);
      var more := BodyGivesGaps(parts[1..], s, j);
      gaps := [s[next..j]] + more;
      assert gaps[1..] == more;
      assert s[i..] == s[i..next] + s[next..j] + s[j..];
    }
  }

  lemma {:induction false} GapsMatchBody(parts: seq<string>, gaps: seq<string>, s: string, i: nat)
    requires |parts| == |gaps| + 1 && OneLineGaps(gaps) && i <= |s| && s[i..] == Weave(parts, gaps)
    ensures Matches(Body(parts), s, i)
    decreases |parts|
  {
    hide Matches, OneLine, Literals;
    var next := i + |parts[0]|;
    if gaps == [] {
      CutInThree(s, i, parts[0], [], []);
      MatchesLiterals(parts[0], [End], s, i);
      EndMatches(s, next);
    } else {
      var j := next + |gaps[0]|;
      CutInThree(s, i, parts[0], gaps[0], Weave(parts[1..], gaps[1..]));
      assert OneLine(gaps[0]) && OneLineGaps(gaps[1..]);
      GapsMatchBody(parts[1..], gaps[1..], s, j);
      RunMatches(Body(parts[1..]), s, next, j);
      MatchesLiterals(parts[0], [AnyRun] + Body(parts[1..]), s, i);
    }
  }

  lemma {:induction false} CutInThree(s: string, i: nat, a: string, b: string, c: string)
    requires i <= |s| && s[i..] == a + b + c
    ensures i + |a| + |b| + |c| == |s|
    ensures s[i..i + |a|] == a && s[i + |a|..i + |a| + |b|] == b && s[i + |a| + |b|..] == c
  {
  }

  /** For every pattern and target: a glob matches exactly the targets that are its literal segments in
      order, with gaps that hold no line terminator. */
  lemma {:induction false} GlobMeaning(pattern: string, target: string)
    ensures MatchGlob(pattern, target) <==>
      exists gaps: seq<string> ::
        && |Split(pattern, ['*'])| == |gaps| + 1 && OneLineGaps(gaps)
        && target == Weave(Split(pattern, ['*']), gaps)
  {
    var parts := Split(pattern, ['*']);
    var ts := [Begin] + Body(parts);
    CompiledParsesToLiterals(pattern);
    assert ts[1..] == Body(parts);
    assert target[0..] == target;
    if MatchGlob(pattern, target) {
      var i :| 0 <= i <= |target| && Matches(ts, target, i);
      var gaps := BodyGivesGaps(parts, target, 0);
      assert target == Weave(parts, gaps);
    }
    if gaps: seq<string> :| |parts| == |gaps| + 1 && OneLineGaps(gaps) && target == Weave(parts, gaps) {
      GapsMatchBody(parts, gaps, target, 0);
      assert Matches(ts, target, 0);
    }
  }

  /** A pattern without `*` matches itself and nothing else, whatever its characters mean in a regular
      expression. */
  lemma {:induction false} PlainPatternIsItself(pattern: string, target: string)
    requires '*' !in pattern
    ensures MatchGlob(pattern, target) <==> target == pattern
  {
    SplitWithoutSeparator(pattern, '*');
    GlobMeaning(pattern, target);
    var none: seq<string> := [];
    assert Weave([pattern], none) == pattern;
    assert OneLineGaps(none);
  }

  /** `*` is documented to match any characters; alone it matches exactly the one-line targets. */
  lemma {:induction false} LoneStarMatchesOneLine(target: string)
    ensures MatchGlob(['*'], target) <==> OneLine(target)
  {
    var empty: string := [];
    SplitAtWrittenSeparator(empty, '*', empty);
    SplitWithoutSeparator(empty, '*');
    assert empty + ['*'] + empty == ['*'];
    assert Split(['*'], ['*']) == [empty, empty];
    GlobMeaning(['*'], target);
    StarWeave(target);
    if MatchGlob(['*'], target) {
      var gaps: seq<string> :| |gaps| == 1 && OneLineGaps(gaps) && target == Weave([empty, empty], gaps);
      assert gaps == [gaps[0]];
      StarWeave(gaps[0]);
    }
    if OneLine(target) { assert OneLineGaps([target]); }
  }

  lemma {:induction false} StarWeave(gap: string)
    ensures var empty: string := []; Weave([empty, empty], [gap]) == gap
  {
  }

  // ---------------------------------------------------------------- the list

  datatype NoGoRule = NoGoRule(id: string, actionPattern: string, riskClass: string, enabled: bool)

  datatype Action = Action(toolName: Option<string>, command: Option<string>, riskClass: string)

  /** The tool name when there is one, even an empty one, else the command. */
  function Target(a: Action): string {
    match a.toolName
    case Some(name) => name
    case None => (match a.command case Some(command) => command case None => [])
  }

  function MatchNoGo(rules: seq<NoGoRule>, action: Action): Option<NoGoRule> {
    if rules == [] then None
    else if !rules[0].enabled then MatchNoGo(rules[1..], action)
    else if rules[0].riskClass != action.riskClass then MatchNoGo(rules[1..], action)
    else if MatchGlob(rules[0].actionPattern, Target(action)) then Some(rules[0])
    else MatchNoGo(rules[1..], action)
  }

  predicate Applies(r: NoGoRule, a: Action) {
    r.enabled && r.riskClass == a.riskClass && MatchGlob(r.actionPattern, Target(a))
  }

  /** The result is the first rule that applies, and there is none only when no rule applies. */
  lemma {:induction false} FirstApplicableRule(rules: seq<NoGoRule>, action: Action) returns (k: nat)
    ensures k <= |rules| && forall j :: 0 <= j < k ==> !Applies(rules[j], action)
    ensures k < |rules| ==> Applies(rules[k], action)
    ensures MatchNoGo(rules, action) == if k < |rules| then Some(rules[k]) else None
  {
    if rules == [] || Applies(rules[0], action) {
      k := 0;
    } else {
      var m := FirstApplicableRule(rules[1..], action);
      k := m + 1;
      forall j | 0 <= j < k ensures !Applies(rules[j], action) {
        if j > 0 { assert rules[j] == rules[1..][j - 1]; }
      }
    }
  }

  /** Appending rules never changes a match there was: it only decides actions nothing forbade before. */
  lemma {:induction false} AppendedRulesOnlyAdd(rules: seq<NoGoRule>, more: seq<NoGoRule>, action: Action)
    ensures MatchNoGo(rules + more, action) ==
      if MatchNoGo(rules, action).Some? then MatchNoGo(rules, action) else MatchNoGo(more, action)
  {
    if rules == [] {
      assert rules + more == more;
    } else {
      assert (rules + more)[1..] == rules[1..] + more;
      AppendedRulesOnlyAdd(rules[1..], more, action);
    }
  }
}
