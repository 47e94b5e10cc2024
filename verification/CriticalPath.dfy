/**
 The duration of a plan (proposed/steward-planner.ts): `stepsWithDeps` computes, with a memo, how long
 each step takes counted from the start of the plan; the plan takes as long as its longest step.

 A plan is a sequence of steps; `assignModel` numbers them from 1 in order. Dependencies are written by a
 language model, so nothing is assumed of them but what the computation needs in order to end.
 */
module CriticalPath {
  import opened Wrappers

  datatype Step = Step(dependsOn: seq<int>, duration: nat, riskClass: string)

  type Plan = seq<Step>

  predicate IsStep(plan: Plan, no: int) { 1 <= no <= |plan| }

  function Get(plan: Plan, no: int): Step
    requires IsStep(plan, no)
  {
    plan[no - 1]
  }

  /** Dependencies exist and rank below the step that has them; step numbers will do as ranks when every
      dependency is an earlier step, which is what the planner prompt asks for. */
  ghost predicate Ranked(plan: Plan, rank: seq<nat>) {
    && |rank| == |plan|
    && forall no, k :: IsStep(plan, no) && 0 <= k < |Get(plan, no).dependsOn| ==>
         IsStep(plan, Get(plan, no).dependsOn[k]) && rank[Get(plan, no).dependsOn[k] - 1] < rank[no - 1]
  }

  ghost predicate EarlierOnly(plan: Plan) {
    forall no, k :: IsStep(plan, no) && 0 <= k < |Get(plan, no).dependsOn| ==> 1 <= Get(plan, no).dependsOn[k] < no
  }

  function Ascending(n: nat): (r: seq<nat>)
    ensures |r| == n && forall k :: 0 <= k < n ==> r[k] == k
  {
    if n == 0 then [] else Ascending(n - 1) + [n - 1]
  }

  lemma {:induction false} EarlierStepsAreRanked(plan: Plan)
    requires EarlierOnly(plan)
    ensures Ranked(plan, Ascending(|plan|))
  {
  }

  // ---------------------------------------------------------------- chains of dependencies

  /** Steps each of which is a dependency of the next. */
  predicate Chain(plan: Plan, path: seq<int>) {
    && path != []
    && (forall i :: 0 <= i < |path| ==> IsStep(plan, path[i]))
    && (forall i :: 0 < i < |path| ==> path[i - 1] in Get(plan, path[i]).dependsOn)
  }

  predicate ChainTo(plan: Plan, path: seq<int>, no: int) { Chain(plan, path) && path[|path| - 1] == no }

  function Weight(plan: Plan, path: seq<int>): nat
    requires forall i :: 0 <= i < |path| ==> IsStep(plan, path[i])
  {
    if path == [] then 0 else Weight(plan, path[..|path| - 1]) + Get(plan, path[|path| - 1]).duration
  }

  ghost predicate BoundsChainsTo(plan: Plan, no: int, bound: nat) {
    forall path :: ChainTo(plan, path, no) ==> Weight(plan, path) <= bound
  }

  ghost predicate Attained(plan: Plan, no: int, total: nat) {
    exists path :: ChainTo(plan, path, no) && Weight(plan, path) == total
  }

  /** `total` is the weight of the heaviest chain ending in a step. */
  ghost predicate Longest(plan: Plan, no: int, total: nat) {
    BoundsChainsTo(plan, no, total) && Attained(plan, no, total)
  }

  lemma {:induction false} Loosen(plan: Plan, no: int, a: nat, b: nat)
    requires BoundsChainsTo(plan, no, a) && a <= b
    ensures BoundsChainsTo(plan, no, b)
  {
  }

  lemma {:induction false} ExtendChain(plan: Plan, path: seq<int>, d: int, no: int)
    requires IsStep(plan, no) && ChainTo(plan, path, d) && d in Get(plan, no).dependsOn
    ensures ChainTo(plan, path + [no], no)
    ensures Weight(plan, path + [no]) == Weight(plan, path) + Get(plan, no).duration
  {
  }

  /** A step's heaviest chain goes through its heaviest dependency. */
  lemma {:induction false} LongestThroughDeps(plan: Plan, no: int, best: nat)
    requires IsStep(plan, no)
    requires forall k :: 0 <= k < |Get(plan, no).dependsOn| ==> BoundsChainsTo(plan, Get(plan, no).dependsOn[k], best)
    requires if Get(plan, no).dependsOn == [] then best == 0
      else exists k :: 0 <= k < |Get(plan, no).dependsOn| && Attained(plan, Get(plan, no).dependsOn[k], best)
    ensures Longest(plan, no, best + Get(plan, no).duration)
  {
    var s := Get(plan, no);
    if s.dependsOn == [] {
      assert ChainTo(plan, [no], no) && [no][..0] == [] && Weight(plan, [no]) == s.duration;
    } else {
      var k :| 0 <= k < |s.dependsOn| && Attained(plan, s.dependsOn[k], best);
      var path :| ChainTo(plan, path, s.dependsOn[k]) && Weight(plan, path) == best;
      ExtendChain(plan, path, s.dependsOn[k], no);
    }
    forall path | ChainTo(plan, path, no) ensures Weight(plan, path) <= best + s.duration {
      if |path| == 1 {
        assert path[..0] == [] && Weight(plan, path) == s.duration;
      } else {
        var front := path[..|path| - 1];
        var d := front[|front| - 1];
        assert d in s.dependsOn by { assert path[|path| - 1 - 1] in Get(plan, path[|path| - 1]).dependsOn; }
        assert ChainTo(plan, front, d);
        var k :| 0 <= k < |s.dependsOn| && s.dependsOn[k] == d;
        assert BoundsChainsTo(plan, s.dependsOn[k], best);
      }
    }
  }

  // ---------------------------------------------------------------- no chain outweighs the plan

  predicate Distinct(path: seq<int>) { forall i, j :: 0 <= i < j < |path| ==> path[i] != path[j] }

  lemma {:induction false} RanksClimb(plan: Plan, rank: seq<nat>, path: seq<int>, i: nat, j: nat)
    requires Ranked(plan, rank) && Chain(plan, path) && i < j < |path|
    ensures rank[path[i] - 1] < rank[path[j] - 1]
    decreases j
  {
    assert path[j - 1] in Get(plan, path[j]).dependsOn;
    var k :| 0 <= k < |Get(plan, path[j]).dependsOn| && Get(plan, path[j]).dependsOn[k] == path[j - 1];
    if i < j - 1 { RanksClimb(plan, rank, path, i, j - 1); }
  }

  /** Chains never come back to a step. */
  lemma {:induction false} ChainsAreDistinct(plan: Plan, rank: seq<nat>, path: seq<int>)
    requires Ranked(plan, rank) && Chain(plan, path)
    ensures Distinct(path)
  {
    forall i, j | 0 <= i < j < |path| ensures path[i] != path[j] {
      RanksClimb(plan, rank, path, i, j);
    }
  }

  function Sum(plan: Plan): nat {
    if plan == [] then 0 else Sum(plan[..|plan| - 1]) + plan[|plan| - 1].duration
  }

  predicate Within(path: seq<int>, n: nat) { forall i :: 0 <= i < |path| ==> 1 <= path[i] <= n }

  lemma {:induction false} WeightSnoc(plan: Plan, front: seq<int>, last: int)
    requires Within(front, |plan|) && IsStep(plan, last)
    ensures Within(front + [last], |plan|)
    ensures Weight(plan, front + [last]) == Weight(plan, front) + Get(plan, last).duration
  {
    assert (front + [last])[..|front + [last]| - 1] == front;
  }

  lemma {:induction false} WeightWithout(plan: Plan, path: seq<int>, i: nat)
    requires Within(path, |plan|) && i < |path|
    ensures Within(path[..i] + path[i + 1..], |plan|)
    ensures Weight(plan, path) == Weight(plan, path[..i] + path[i + 1..]) + Get(plan, path[i]).duration
    decreases |path|
  {
    hide Weight;
    var front, last := path[..|path| - 1], path[|path| - 1];
    assert path == front + [last];
    WeightSnoc(plan, front, last);
    if i == |front| {
      assert path[..i] + path[i + 1..] == front;
    } else {
      var shorter := front[..i] + front[i + 1..];
      WeightWithout(plan, front, i);
      WeightSnoc(plan, shorter, last);
      assert path[..i] + path[i + 1..] == shorter + [last];
    }
  }

  lemma {:induction false} WeightInPrefix(plan: Plan, path: seq<int>, n: nat)
    requires n <= |plan| && Within(path, n)
    ensures Weight(plan, path) == Weight(plan[..n], path)
    decreases |path|
  {
    if path != [] { WeightInPrefix(plan, path[..|path| - 1], n); }
  }

  lemma {:induction false} RestIsDistinct(path: seq<int>, i: nat, n: nat)
    requires n >= 1 && Within(path, n) && Distinct(path) && i < |path| && path[i] == n
    ensures var rest := path[..i] + path[i + 1..]; Within(rest, n - 1) && Within(rest, n) && Distinct(rest)
  {
  }

  lemma {:induction false} WithinLess(path: seq<int>, n: nat)
    requires n >= 1 && Within(path, n) && forall i :: 0 <= i < |path| ==> path[i] != n
    ensures Within(path, n - 1)
  {
  }

  lemma {:induction false} DistinctStepsWeighAtMostAll(plan: Plan, path: seq<int>)
    requires Within(path, |plan|) && Distinct(path)
    ensures Weight(plan, path) <= Sum(plan)
    decreases |plan|
  {
    var n := |plan|;
    if n == 0 {
      assert path == [];
    } else {
      hide Weight, Distinct, Within;
      if i :| 0 <= i < |path| && path[i] == n {
        var rest := path[..i] + path[i + 1..];
        RestIsDistinct(path, i, n);
        assert Within(path, n) && Within(rest, n);
        WeightWithout(plan, path, i);
        WeightInPrefix(plan, rest, n - 1);
        DistinctStepsWeighAtMostAll(plan[..n - 1], rest);
      } else {
        WithinLess(path, n);
        WeightInPrefix(plan, path, n - 1);
        DistinctStepsWeighAtMostAll(plan[..n - 1], path);
      }
    }
  }

  /** No chain takes longer than all the steps one after the other. */
  lemma {:induction false} ChainsAreAtMostTheSum(plan: Plan, rank: seq<nat>, path: seq<int>)
    requires Ranked(plan, rank) && Chain(plan, path)
    ensures Weight(plan, path) <= Sum(plan)
  {
    ChainsAreDistinct(plan, rank, path);
    DistinctStepsWeighAtMostAll(plan, path);
  }

  // ---------------------------------------------------------------- when the computation ends at all

  /** Whether `dur`, without its memo, returns within `fuel` nested calls and meets no missing step. */
  predicate Returns(plan: Plan, no: int, fuel: nat)
    decreases fuel
  {
    && IsStep(plan, no) && fuel > 0
    && forall k :: 0 <= k < |Get(plan, no).dependsOn| ==> Returns(plan, Get(plan, no).dependsOn[k], fuel - 1)
  }

  ghost predicate AllReturn(plan: Plan, fuel: nat) { forall no :: IsStep(plan, no) ==> Returns(plan, no, fuel) }

  /** The least fuel that will do. */
  function Depth(plan: Plan, no: int, fuel: nat, from: nat): (d: nat)
    requires Returns(plan, no, fuel) && from <= fuel
    ensures from <= d <= fuel && Returns(plan, no, d)
    ensures forall k :: from <= k < d ==> !Returns(plan, no, k)
    decreases fuel - from
  {
    if Returns(plan, no, from) then from
    else
      assert from != fuel;
      Depth(plan, no, fuel, from + 1)
  }

  ghost function Depths(plan: Plan, fuel: nat, n: nat): (r: seq<nat>)
    requires n <= |plan| && AllReturn(plan, fuel)
    ensures |r| == n && forall k :: 0 <= k < n ==> r[k] == Depth(plan, k + 1, fuel, 0)
  {
    if n == 0 then [] else Depths(plan, fuel, n - 1) + [Depth(plan, n, fuel, 0)]
  }

  lemma {:induction false} DepthsRank(plan: Plan, fuel: nat)
    requires AllReturn(plan, fuel)
    ensures Ranked(plan, Depths(plan, fuel, |plan|))
  {
    var rank := Depths(plan, fuel, |plan|);
    forall no, k | IsStep(plan, no) && 0 <= k < |Get(plan, no).dependsOn|
      ensures IsStep(plan, Get(plan, no).dependsOn[k]) && rank[Get(plan, no).dependsOn[k] - 1] < rank[no - 1]
    {
      var d, f := Get(plan, no).dependsOn[k], Depth(plan, no, fuel, 0);
      assert Returns(plan, no, f) && Returns(plan, d, f - 1);
      assert rank[d - 1] == Depth(plan, d, fuel, 0);
      assert rank[no - 1] == f;
    }
  }

  /** Every dependency is a step of the plan. */
  ghost predicate DepsExist(plan: Plan) {
    forall no, k :: IsStep(plan, no) && 0 <= k < |Get(plan, no).dependsOn| ==> IsStep(plan, Get(plan, no).dependsOn[k])
  }

  /** No chain of dependencies comes back to a step. */
  ghost predicate Acyclic(plan: Plan) { forall path :: Chain(plan, path) ==> Distinct(path) }

  /** A step whose computation nests deeper than `fuel` has a chain of more than `fuel` steps into it. */
  lemma {:induction false} DeepCallsHaveLongChains(plan: Plan, no: int, fuel: nat) returns (path: seq<int>)
    requires DepsExist(plan) && IsStep(plan, no) && !Returns(plan, no, fuel)
    ensures ChainTo(plan, path, no) && |path| == fuel + 1
    decreases fuel
  {
    if fuel == 0 {
      path := [no];
    } else {
      var k :| 0 <= k < |Get(plan, no).dependsOn| && !Returns(plan, Get(plan, no).dependsOn[k], fuel - 1);
      var d := Get(plan, no).dependsOn[k];
      var sub := DeepCallsHaveLongChains(plan, d, fuel - 1);
      ExtendChain(plan, sub, d, no);
      path := sub + [no];
    }
  }

  lemma {:induction false} DistinctStepsAreFew(path: seq<int>, n: nat)
    requires Within(path, n) && Distinct(path)
    ensures |path| <= n
    decreases n
  {
    if path != [] {
      assert 1 <= path[0] <= n;
      if i :| 0 <= i < |path| && path[i] == n {
        RestIsDistinct(path, i, n);
        DistinctStepsAreFew(path[..i] + path[i + 1..], n - 1);
      } else {
        WithinLess(path, n);
        DistinctStepsAreFew(path, n - 1);
      }
    }
  }

  lemma {:induction false} AcyclicPlansReturn(plan: Plan)
    requires DepsExist(plan) && Acyclic(plan)
    ensures AllReturn(plan, |plan|)
  {
    forall no | IsStep(plan, no) ensures Returns(plan, no, |plan|) {
      if !Returns(plan, no, |plan|) {
        var path := DeepCallsHaveLongChains(plan, no, |plan|);
        DistinctStepsAreFew(path, |plan|);
      }
    }
  }

  lemma {:induction false} RankedPlansAreAcyclic(plan: Plan, rank: seq<nat>)
    requires Ranked(plan, rank)
    ensures DepsExist(plan) && Acyclic(plan)
  {
    forall path | Chain(plan, path) ensures Distinct(path) {
      ChainsAreDistinct(plan, rank, path);
    }
  }

  /** The computation returns for every step exactly when all dependencies exist and none runs in a circle, and
      then it never nests deeper than the plan has steps. */
  lemma {:induction false} ReturnsIffAcyclic(plan: Plan)
    ensures (exists fuel: nat :: AllReturn(plan, fuel)) <==> DepsExist(plan) && Acyclic(plan)
    ensures DepsExist(plan) && Acyclic(plan) ==> AllReturn(plan, |plan|)
  {
    hide Acyclic, DepsExist, AllReturn, Ranked;
    if fuel: nat :| AllReturn(plan, fuel) {
      DepthsRank(plan, fuel);
      RankedPlansAreAcyclic(plan, Depths(plan, fuel, |plan|));
    }
    if DepsExist(plan) && Acyclic(plan) {
      AcyclicPlansReturn(plan);
    }
  }

  /** Dependencies on earlier steps only, as the planner prompt asks, are enough. */
  lemma {:induction false} EarlierStepsReturn(plan: Plan)
    requires EarlierOnly(plan)
    ensures DepsExist(plan) && Acyclic(plan) && AllReturn(plan, |plan|)
  {
    EarlierStepsAreRanked(plan);
    RankedPlansAreAcyclic(plan, Ascending(|plan|));
    AcyclicPlansReturn(plan);
  }

  /** A step that depends on itself is never done: a circle of one. */
  lemma {:induction false} SelfDependencyNeverReturns(s: Step, fuel: nat)
    requires s.dependsOn == [1]
    ensures !AllReturn([s], fuel) && Chain([s], [1, 1]) && !Acyclic([s])
  {
    assert Chain([s], [1, 1]) && !Distinct([1, 1]) by {
      assert [1, 1][0] == [1, 1][1];
    }
    SelfCallsForever(s, fuel);
    assert IsStep([s], 1);
  }

  lemma {:induction false} SelfCallsForever(s: Step, fuel: nat)
    requires s.dependsOn == [1]
    ensures !Returns([s], 1, fuel)
  {
    if fuel > 0 {
      SelfCallsForever(s, fuel - 1);
      assert Get([s], 1).dependsOn[0] == 1;
    }
  }

  /** The ranks of a plan without circles. */
  ghost function RankOf(plan: Plan): (rank: seq<nat>)
    requires DepsExist(plan) && Acyclic(plan)
    ensures Ranked(plan, rank)
  {
    AcyclicPlansReturn(plan);
    DepthsRank(plan, |plan|);
    Depths(plan, |plan|, |plan|)
  }

  // ---------------------------------------------------------------- the memoised computation

  class Durations {
    const plan: Plan
    var memo: map<int, nat>

    ghost predicate MemoIsSound()
      reads this
    {
      forall no :: no in memo ==> IsStep(plan, no) && Longest(plan, no, memo[no])
    }

    constructor (plan: Plan)
      ensures this.plan == plan && memo == map[]
    {
      this.plan := plan;
      memo := map[];
    }

    /** `dur`: the heaviest chain ending in the step; what was known stays, and what is known is right. */
    method Dur(no: int, ghost rank: seq<nat>) returns (total: nat)
      requires Ranked(plan, rank) && IsStep(plan, no) && MemoIsSound()
      modifies this
      ensures MemoIsSound() && Longest(plan, no, total)
      ensures no in memo && memo[no] == total
      ensures forall k :: k in old(memo) ==> k in memo && memo[k] == old(memo)[k]
      decreases rank[no - 1]
    {
      if no in memo { return memo[no]; }
      var s := Get(plan, no);
      var depMax: nat := 0;
      for k := 0 to |s.dependsOn|
        invariant MemoIsSound()
        invariant forall j :: j in old(memo) ==> j in memo && memo[j] == old(memo)[j]
        invariant forall j :: 0 <= j < k ==> BoundsChainsTo(plan, s.dependsOn[j], depMax)
        invariant if k == 0 then depMax == 0 else exists j :: 0 <= j < k && Attained(plan, s.dependsOn[j], depMax)
      {
        var d := Dur(s.dependsOn[k], rank);
        if k == 0 || depMax < d {
          forall j | 0 <= j < k ensures BoundsChainsTo(plan, s.dependsOn[j], d) { Loosen(plan, s.dependsOn[j], depMax, d); }
          depMax := d;
          assert Attained(plan, s.dependsOn[k], depMax);
        }
        Loosen(plan, s.dependsOn[k], d, depMax);
      }
      LongestThroughDeps(plan, no, depMax);
      total := depMax + s.duration;
      memo := memo[no := total];
    }

    /** `durationSec`: the weight of the heaviest chain of the plan. `Math.max()` of no steps at all is
        -Infinity, here None. */
    method DurationSec() returns (r: Option<nat>)
      requires DepsExist(plan) && Acyclic(plan) && MemoIsSound()
      modifies this
      ensures MemoIsSound()
      ensures r.None? <==> plan == []
      ensures r.Some? ==>
        && r.value <= Sum(plan)
        && (exists path :: Chain(plan, path) && Weight(plan, path) == r.value)
        && (forall path :: Chain(plan, path) ==> Weight(plan, path) <= r.value)
    {
      if |plan| == 0 { return None; }
      ghost var rank := RankOf(plan);
      var best := Dur(1, rank);
      ghost var at := 1;
      for no := 2 to |plan| + 1
        invariant MemoIsSound()
        invariant 1 <= at < no && Longest(plan, at, best)
        invariant forall j :: 1 <= j < no ==> BoundsChainsTo(plan, j, best)
      {
        var d := Dur(no, rank);
        if best < d {
          forall j | 1 <= j < no ensures BoundsChainsTo(plan, j, d) { Loosen(plan, j, best, d); }
          best, at := d, no;
        }
        Loosen(plan, no, d, best);
      }
      ghost var path :| ChainTo(plan, path, at) && Weight(plan, path) == best;
      ChainsAreAtMostTheSum(plan, rank, path);
      forall path | Chain(plan, path) ensures Weight(plan, path) <= best {
        assert BoundsChainsTo(plan, path[|path| - 1], best);
        assert ChainTo(plan, path, path[|path| - 1]);
      }
      r := Some(best);
    }
  }

  // ---------------------------------------------------------------- the risk envelope

  /** `Array.from(new Set(…))`: first occurrences, in order. */
  function Unique(classes: seq<string>): seq<string> {
    if classes == [] then []
    else
      var front, last := Unique(classes[..|classes| - 1]), classes[|classes| - 1];
      if last in front then front else front + [last]
  }

  lemma {:induction false} UniqueKeepsEachOnce(classes: seq<string>)
    ensures forall c :: c in Unique(classes) <==> c in classes
    ensures forall i, j :: 0 <= i < j < |Unique(classes)| ==> Unique(classes)[i] != Unique(classes)[j]
  {
    if classes != [] {
      UniqueKeepsEachOnce(classes[..|classes| - 1]);
      assert classes == classes[..|classes| - 1] + [classes[|classes| - 1]];
    }
  }

  function Classes(plan: Plan): (r: seq<string>)
    ensures |r| == |plan| && forall k :: 0 <= k < |r| ==> r[k] == plan[k].riskClass
  {
    if plan == [] then [] else Classes(plan[..|plan| - 1]) + [plan[|plan| - 1].riskClass]
  }

  function RiskEnvelope(plan: Plan): seq<string> { Unique(Classes(plan)) }

  /** `replan`'s test against the envelope stored when the plan was proposed. */
  predicate WillEscalate(envelope: seq<string>, replanned: Plan) {
    exists k :: 0 <= k < |RiskEnvelope(replanned)| && RiskEnvelope(replanned)[k] !in envelope
  }

  /** A replan asks for approval again exactly when one of its steps has a risk class no step of the
      proposed plan had. */
  lemma {:induction false} EscalatesOnNewClassOnly(proposed: Plan, replanned: Plan)
    ensures WillEscalate(RiskEnvelope(proposed), replanned) <==>
      exists i :: 0 <= i < |replanned| && forall j :: 0 <= j < |proposed| ==> replanned[i].riskClass != proposed[j].riskClass
  {
    var before, after := Classes(proposed), Classes(replanned);
    UniqueKeepsEachOnce(before);
    UniqueKeepsEachOnce(after);
    if WillEscalate(RiskEnvelope(proposed), replanned) {
      var k :| 0 <= k < |RiskEnvelope(replanned)| && RiskEnvelope(replanned)[k] !in RiskEnvelope(proposed);
      var c := RiskEnvelope(replanned)[k];
      assert c in after && c !in before;
      var i :| 0 <= i < |after| && after[i] == c;
      assert forall j :: 0 <= j < |proposed| ==> before[j] != c;
    }
    if i :| 0 <= i < |replanned| && forall j :: 0 <= j < |proposed| ==> replanned[i].riskClass != proposed[j].riskClass {
      assert after[i] !in before;
      assert after[i] in RiskEnvelope(replanned);
    }
  }
}
