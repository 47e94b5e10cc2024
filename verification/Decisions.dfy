/**
 Decisions of the event store (src/persistence.ts) and the operator policy (src/security/respond-policy.ts):
 a question is created, answered or swept when overdue, and callers wait for the answer with a timeout.

 Each step is one synchronous store call or one timer firing; between them any interleaving can happen.
 The emitter is modelled by its registrations: which awaiters listen, and which timers are armed.
 */
module Decisions {
  import opened Wrappers

  type CorrelationId = string
  type AwaiterId = nat

  datatype Status = Open | Responded | Expired

  datatype Answer = Answer(option: string, responder: string, reason: string)

  /** A row; `answer` holds the three response columns, NULL until the update that sets them together. */
  datatype Decision = Decision(
    options: seq<string>,
    source: Option<string>,
    expiresAt: int,
    status: Status,
    answer: Option<Answer>)

  datatype Outcome = Resolved(answer: Answer) | TimedOut

  /** One promise: every call of its `resolve` or `reject` is kept, in order. */
  datatype Awaiter = Awaiter(cid: CorrelationId, settled: seq<Outcome>)

  datatype State = State(
    decisions: map<CorrelationId, Decision>,
    awaiters: map<AwaiterId, Awaiter>,
    listening: set<AwaiterId>,
    timers: set<AwaiterId>)

  const START: State := State(map[], map[], {}, {})

  datatype RespondError =
    | NotFound | AlreadyResponded | IsExpired | InvalidOption | ResponderIsRequester | OperatorRequired

  datatype Step =
    | Create(cid: CorrelationId, options: seq<string>, source: Option<string>, expiresAt: int)
    | Respond(cid: CorrelationId, answer: Answer)
    | Sweep(now: int)
    | Await(id: AwaiterId, cid: CorrelationId)
    | TimerFires(id: AwaiterId)

  // ---------------------------------------------------------------- who may answer

  const SWITCH_DEFAULT: string := "switch-default"
  const UNSTAMPED: string := "unstamped-loopback"
  const LOOPBACK: string := "loopback:"
  const NOTIFY: string := "notify:"

  predicate IsOperatorAuthorized(actor: string) {
    actor == UNSTAMPED || LOOPBACK <= actor || NOTIFY <= actor
  }

  /** The requester is known: a missing or empty `source_agent` is not. */
  predicate IsRequester(d: Decision, actor: string) {
    d.source == Some(actor) && actor != ""
  }

  /** `mayRespond`, the policy the callers of the store apply. */
  function MayRespond(d: Decision, caller: string): Option<RespondError> {
    if IsRequester(d, caller) then Some(ResponderIsRequester)
    else if !IsOperatorAuthorized(caller) then Some(OperatorRequired)
    else None
  }

  /** `respondToDecision`'s refusals, in its order; None is acceptance. */
  function Refusal(st: State, cid: CorrelationId, a: Answer): Option<RespondError> {
    if cid !in st.decisions then Some(NotFound)
    else
      var d := st.decisions[cid];
      if d.status.Responded? then Some(AlreadyResponded)
      else if d.status.Expired? then Some(IsExpired)
      else if a.option !in d.options then Some(InvalidOption)
      else if a.responder != SWITCH_DEFAULT && IsRequester(d, a.responder) then Some(ResponderIsRequester)
      else if a.responder != SWITCH_DEFAULT && !IsOperatorAuthorized(a.responder) then Some(OperatorRequired)
      else None
  }

  /** The store's fence is as narrow as the policy: leaving the synthetic timeout responder aside, it
      turns away exactly the callers the policy turns away, for the same reason. */
  lemma {:induction false} FenceAgreesWithPolicy(st: State, cid: CorrelationId, a: Answer)
    requires cid in st.decisions && st.decisions[cid].status.Open? && a.option in st.decisions[cid].options
    requires a.responder != SWITCH_DEFAULT
    ensures Refusal(st, cid, a) == MayRespond(st.decisions[cid], a.responder)
  {
  }

  // ---------------------------------------------------------------- steps

  predicate Enabled(st: State, step: Step) {
    match step
    case Await(id, _) => id !in st.awaiters
    case TimerFires(id) => id in st.timers && id in st.awaiters
    case _ => true
  }

  /** An insert under a correlation id already used violates the primary key and changes nothing. */
  function CreateRow(st: State, cid: CorrelationId, options: seq<string>, source: Option<string>, expiresAt: int): State {
    if cid in st.decisions then st
    else st.(decisions := st.decisions[cid := Decision(options, source, expiresAt, Open, None)])
  }

  predicate Wakes(st: State, id: AwaiterId, cid: CorrelationId) {
    id in st.listening && id in st.awaiters && st.awaiters[id].cid == cid
  }

  /** `responses.emit(cid, …)`: each listener is called once, clears its timer and resolves. */
  function Emit(st: State, cid: CorrelationId, a: Answer): State {
    var woken := set id | id in st.awaiters && Wakes(st, id, cid);
    st.(awaiters := map id | id in st.awaiters ::
          if Wakes(st, id, cid) then Settle(st.awaiters[id], Resolved(a)) else st.awaiters[id],
        listening := st.listening - woken,
        timers := st.timers - woken)
  }

  function Settle(w: Awaiter, o: Outcome): Awaiter { w.(settled := w.settled + [o]) }

  function Record(st: State, cid: CorrelationId, a: Answer): State
    requires cid in st.decisions
  {
    st.(decisions := st.decisions[cid := st.decisions[cid].(status := Responded, answer := Some(a))])
  }

  function RespondRow(st: State, cid: CorrelationId, a: Answer): State {
    if Refusal(st, cid, a).Some? then st else Emit(Record(st, cid, a), cid, a)
  }

  function Swept(d: Decision, now: int): Decision {
    if d.status.Open? && d.expiresAt < now then d.(status := Expired) else d
  }

  function SweepRows(st: State, now: int): State {
    st.(decisions := map cid | cid in st.decisions :: Swept(st.decisions[cid], now))
  }

  /** The answer an awaiter gets at once: the row is responded and its option id is not the empty string,
      which JavaScript takes for absent. */
  function ReadyAnswer(st: State, cid: CorrelationId): Option<Answer> {
    if cid in st.decisions && st.decisions[cid].status.Responded?
       && st.decisions[cid].answer.Some? && st.decisions[cid].answer.value.option != ""
    then st.decisions[cid].answer else None
  }

  function AwaitAnswer(st: State, id: AwaiterId, cid: CorrelationId): State {
    match ReadyAnswer(st, cid)
    case Some(a) => st.(awaiters := st.awaiters[id := Awaiter(cid, [Resolved(a)])])
    case None =>
      st.(awaiters := st.awaiters[id := Awaiter(cid, [])], listening := st.listening + {id}, timers := st.timers + {id})
  }

  function Expire(st: State, id: AwaiterId): State
    requires id in st.awaiters
  {
    st.(awaiters := st.awaiters[id := Settle(st.awaiters[id], TimedOut)],
        listening := st.listening - {id}, timers := st.timers - {id})
  }

  function Apply(st: State, step: Step): State
    requires Enabled(st, step)
  {
    match step
    case Create(cid, options, source, expiresAt) => CreateRow(st, cid, options, source, expiresAt)
    case Respond(cid, a) => RespondRow(st, cid, a)
    case Sweep(now) => SweepRows(st, now)
    case Await(id, cid) => AwaitAnswer(st, id, cid)
    case TimerFires(id) => Expire(st, id)
  }

  predicate Possible(st: State, steps: seq<Step>)
    decreases |steps|, 0
  {
    steps != [] ==> Possible(st, steps[..|steps| - 1]) && Enabled(Run(st, steps[..|steps| - 1]), steps[|steps| - 1])
  }

  function Run(st: State, steps: seq<Step>): State
    requires Possible(st, steps)
    decreases |steps|, 1
  {
    if steps == [] then st else Apply(Run(st, steps[..|steps| - 1]), steps[|steps| - 1])
  }

  // ---------------------------------------------------------------- a decision is answered at most once

  lemma {:induction false} StepKeepsClosed(st: State, step: Step, cid: CorrelationId)
    requires Enabled(st, step) && cid in st.decisions
    ensures cid in Apply(st, step).decisions
    ensures !st.decisions[cid].status.Open? ==> Apply(st, step).decisions[cid] == st.decisions[cid]
    ensures Apply(st, step).decisions[cid].options == st.decisions[cid].options
    ensures Apply(st, step).decisions[cid].source == st.decisions[cid].source
  {
  }

  /** Responded and expired are absorbing: nothing later changes any column of such a row. */
  lemma {:induction false} ClosedRowsNeverChange(st: State, steps: seq<Step>, cid: CorrelationId)
    requires Possible(st, steps) && cid in st.decisions && !st.decisions[cid].status.Open?
    ensures cid in Run(st, steps).decisions && Run(st, steps).decisions[cid] == st.decisions[cid]
  {
    if steps != [] {
      ClosedRowsNeverChange(st, steps[..|steps| - 1], cid);
      StepKeepsClosed(Run(st, steps[..|steps| - 1]), steps[|steps| - 1], cid);
    }
  }

  lemma {:induction false} PrefixPossible(st: State, steps: seq<Step>, k: nat)
    requires Possible(st, steps) && k <= |steps|
    ensures Possible(st, steps[..k])
    decreases |steps|
  {
    if k == |steps| {
      assert steps[..k] == steps;
    } else {
      PrefixPossible(st, steps[..|steps| - 1], k);
      assert steps[..|steps| - 1][..k] == steps[..k];
    }
  }

  /** Step `k` of the run is a response the store accepted. */
  predicate AcceptedAt(steps: seq<Step>, k: nat)
    requires Possible(START, steps)
  {
    && k < |steps| && steps[k].Respond?
    && Possible(START, steps[..k])
    && Refusal(Run(START, steps[..k]), steps[k].cid, steps[k].answer).None?
  }

  lemma {:induction false} AcceptedIsKept(steps: seq<Step>, i: nat, upto: nat)
    requires Possible(START, steps) && AcceptedAt(steps, i) && i < upto <= |steps|
    ensures Possible(START, steps[..upto])
    ensures var rows := Run(START, steps[..upto]).decisions;
      steps[i].cid in rows && rows[steps[i].cid].status.Responded? && rows[steps[i].cid].answer == Some(steps[i].answer)
    decreases upto
  {
    PrefixPossible(START, steps, upto);
    var cut := steps[..upto];
    assert cut[..upto - 1] == steps[..upto - 1];
    if upto > i + 1 {
      AcceptedIsKept(steps, i, upto - 1);
      StepKeepsClosed(Run(START, steps[..upto - 1]), cut[upto - 1], steps[i].cid);
    }
  }

  /** In any interleaving a decision is answered at most once, and the row holds that answer ever after. */
  lemma {:induction false} AnsweredAtMostOnce(steps: seq<Step>, i: nat, j: nat)
    requires Possible(START, steps) && AcceptedAt(steps, i) && AcceptedAt(steps, j)
    ensures i != j ==> steps[i].cid != steps[j].cid
    ensures var rows := Run(START, steps).decisions;
      steps[i].cid in rows && rows[steps[i].cid].answer == Some(steps[i].answer)
  {
    assert steps[..|steps|] == steps;
    AcceptedIsKept(steps, i, |steps|);
    if i < j { AcceptedIsKept(steps, i, j); }
    if j < i { AcceptedIsKept(steps, j, i); }
  }

  // ---------------------------------------------------------------- what a stored answer can be

  /** The answer is one of the options, and the responder is the timeout fallback or an operator who is
      not the known requester. */
  predicate Legitimate(d: Decision, a: Answer) {
    && a.option in d.options
    && (a.responder == SWITCH_DEFAULT || (!IsRequester(d, a.responder) && IsOperatorAuthorized(a.responder)))
  }

  predicate RowIsSound(d: Decision) {
    && (d.status.Responded? <==> d.answer.Some?)
    && (d.answer.Some? ==> Legitimate(d, d.answer.value))
  }

  predicate RowsAreSound(st: State) {
    forall cid :: cid in st.decisions ==> RowIsSound(st.decisions[cid])
  }

  lemma {:induction false} StepKeepsRowsSound(st: State, step: Step)
    requires RowsAreSound(st) && Enabled(st, step)
    ensures RowsAreSound(Apply(st, step))
  {
  }

  /** In every reachable state a row is responded exactly when it carries an answer, and that answer was
      one the store had every reason to take. */
  lemma {:induction false} StoredAnswersAreLegitimate(steps: seq<Step>)
    requires Possible(START, steps)
    ensures RowsAreSound(Run(START, steps))
  {
    if steps != [] {
      StoredAnswersAreLegitimate(steps[..|steps| - 1]);
      StepKeepsRowsSound(Run(START, steps[..|steps| - 1]), steps[|steps| - 1]);
    }
  }

  /** A row is expired exactly by a sweep later than its deadline that finds it open. */
  lemma {:induction false} OnlyOverdueRowsExpire(steps: seq<Step>, cid: CorrelationId)
    requires Possible(START, steps) && cid in Run(START, steps).decisions
    requires Run(START, steps).decisions[cid].status.Expired?
    ensures exists k :: 0 <= k < |steps| && steps[k].Sweep? && steps[k].now > Run(START, steps).decisions[cid].expiresAt
    decreases |steps|
  {
    var front, last := steps[..|steps| - 1], steps[|steps| - 1];
    var before := Run(START, front);
    if cid in before.decisions && before.decisions[cid].status.Expired? {
      StepKeepsClosed(before, last, cid);
      OnlyOverdueRowsExpire(front, cid);
      var k :| 0 <= k < |front| && front[k].Sweep? && front[k].now > before.decisions[cid].expiresAt;
      assert steps[k] == front[k];
    } else {
      OnlySweepsExpire(before, last, cid);
      assert steps[|steps| - 1].Sweep?;
    }
  }

  lemma {:induction false} OnlySweepsExpire(st: State, step: Step, cid: CorrelationId)
    requires Enabled(st, step) && cid in Apply(st, step).decisions
    requires Apply(st, step).decisions[cid].status.Expired?
    requires cid in st.decisions ==> !st.decisions[cid].status.Expired?
    ensures step.Sweep? && step.now > Apply(st, step).decisions[cid].expiresAt
  {
  }

  // ---------------------------------------------------------------- when an answer is taken, by the history alone

  /** Step `i` of the run created the decision. */
  predicate CreatedAt(steps: seq<Step>, i: int, cid: CorrelationId) {
    && 0 <= i < |steps| && steps[i].Create? && steps[i].cid == cid
    && forall j :: 0 <= j < i ==> !(steps[j].Create? && steps[j].cid == cid)
  }

  /** An answer the policy and the options of the creating step allow. */
  predicate Allowed(created: Step, a: Answer)
    requires created.Create?
  {
    && a.option in created.options
    && (a.responder == SWITCH_DEFAULT || MayRespond(Row(created), a.responder).None?)
  }

  function Row(created: Step): Decision
    requires created.Create?
  {
    Decision(created.options, created.source, created.expiresAt, Open, None)
  }

  /** Between the creation at `i` and step `k` nobody gave an allowed answer, and no sweep came later than the
      deadline: the first of these two to happen closes the decision. */
  predicate StillOpen(steps: seq<Step>, i: int, k: int, cid: CorrelationId)
    requires CreatedAt(steps, i, cid) && k <= |steps|
  {
    forall j :: i < j < k ==>
      && !(steps[j].Respond? && steps[j].cid == cid && Allowed(steps[i], steps[j].answer))
      && !(steps[j].Sweep? && steps[i].expiresAt < steps[j].now)
  }

  /** Step `j` closed the decision created at `i`: the first allowed answer, or a sweep past the deadline before one. */
  predicate ClosedBy(steps: seq<Step>, i: int, j: int, cid: CorrelationId)
    requires CreatedAt(steps, i, cid)
  {
    && i < j < |steps| && StillOpen(steps, i, j, cid)
    && ((steps[j].Respond? && steps[j].cid == cid && Allowed(steps[i], steps[j].answer))
        || (steps[j].Sweep? && steps[i].expiresAt < steps[j].now))
  }

  ghost predicate AnsweredBefore(steps: seq<Step>, i: int, cid: CorrelationId)
    requires CreatedAt(steps, i, cid)
  {
    exists j :: ClosedBy(steps, i, j, cid) && steps[j].Respond?
  }

  ghost predicate ExpiredBefore(steps: seq<Step>, i: int, cid: CorrelationId)
    requires CreatedAt(steps, i, cid)
  {
    exists j :: ClosedBy(steps, i, j, cid) && steps[j].Sweep?
  }

  lemma {:induction false} StillOpenOfPrefix(steps: seq<Step>, i: int, j: int, n: nat, cid: CorrelationId)
    requires j <= n <= |steps| && CreatedAt(steps, i, cid) && CreatedAt(steps[..n], i, cid)
    ensures StillOpen(steps[..n], i, j, cid) <==> StillOpen(steps, i, j, cid)
  {
    hide Allowed;
    assert forall j :: 0 <= j < n ==> steps[..n][j] == steps[j];
  }

  lemma {:induction false} ClosedByOfPrefix(steps: seq<Step>, i: int, j: int, n: nat, cid: CorrelationId)
    requires n <= |steps| && CreatedAt(steps, i, cid) && CreatedAt(steps[..n], i, cid)
    ensures ClosedBy(steps[..n], i, j, cid) <==> ClosedBy(steps, i, j, cid) && j < n
  {
    hide Allowed, StillOpen;
    if i < j < n { StillOpenOfPrefix(steps, i, j, n, cid); }
  }

  /** The last step can be what answers a decision. */
  lemma {:induction false} AnsweredBeforeStep(steps: seq<Step>, i: int, cid: CorrelationId)
    requires steps != [] && i < |steps| - 1 && CreatedAt(steps, i, cid) && CreatedAt(steps[..|steps| - 1], i, cid)
    ensures var front, last := steps[..|steps| - 1], steps[|steps| - 1];
      AnsweredBefore(steps, i, cid) <==>
        || AnsweredBefore(front, i, cid)
        || (StillOpen(front, i, |front|, cid) && last.Respond? && last.cid == cid && Allowed(steps[i], last.answer))
  {
    var n := |steps| - 1;
    var front := steps[..n];
    StillOpenOfPrefix(steps, i, n, n, cid);
    hide Allowed, StillOpen;
    assert ClosedBy(steps, i, n, cid) && steps[n].Respond? <==>
      StillOpen(front, i, n, cid) && steps[n].Respond? && steps[n].cid == cid && Allowed(steps[i], steps[n].answer);
    hide ClosedBy;
    if j :| ClosedBy(front, i, j, cid) && front[j].Respond? {
      ClosedByOfPrefix(steps, i, j, n, cid);
      assert front[j] == steps[j];
    }
    if j :| ClosedBy(steps, i, j, cid) && steps[j].Respond? {
      ClosedByOfPrefix(steps, i, j, n, cid);
      if j < n { assert front[j] == steps[j]; }
    }
  }

  /** What has closed a decision is one step, an answer or a sweep; while there is none it is open. */
  lemma {:induction false} ClosedByFirst(steps: seq<Step>, i: int, n: nat, cid: CorrelationId)
    requires n <= |steps| && CreatedAt(steps, i, cid)
    ensures StillOpen(steps, i, n, cid) <==> forall j :: j < n ==> !ClosedBy(steps, i, j, cid)
  {
    hide Allowed;
    if n > 0 {
      ClosedByFirst(steps, i, n - 1, cid);
      if StillOpen(steps, i, n - 1, cid) && !StillOpen(steps, i, n, cid) { assert ClosedBy(steps, i, n - 1, cid); }
    }
  }

  /** What a step does to one row. */
  lemma {:induction false} RowStep(st: State, step: Step, cid: CorrelationId)
    requires Enabled(st, step)
    ensures cid in Apply(st, step).decisions <==> cid in st.decisions || (step.Create? && step.cid == cid)
    ensures cid !in st.decisions && step.Create? && step.cid == cid ==> Apply(st, step).decisions[cid] == Row(step)
    ensures cid in st.decisions ==>
      var d, e := st.decisions[cid], Apply(st, step).decisions[cid];
      && e.options == d.options && e.source == d.source && e.expiresAt == d.expiresAt
      && (e.status.Open? <==>
            && d.status.Open?
            && !(step.Respond? && step.cid == cid && Refusal(st, cid, step.answer).None?)
            && !(step.Sweep? && d.expiresAt < step.now))
      && (e.status.Responded? <==>
            || d.status.Responded?
            || (d.status.Open? && step.Respond? && step.cid == cid && Refusal(st, cid, step.answer).None?))
  {
  }

  predicate NeverCreated(steps: seq<Step>, cid: CorrelationId) {
    forall j :: 0 <= j < |steps| ==> !(steps[j].Create? && steps[j].cid == cid)
  }

  /** The rows are the history's: each is the creating step's, and open exactly while the history leaves it so. */
  ghost predicate RowIsHistory(steps: seq<Step>, st: State, cid: CorrelationId) {
    && (cid !in st.decisions ==> NeverCreated(steps, cid))
    && (cid in st.decisions ==>
          exists i :: CreatedAt(steps, i, cid) && AgreesWith(steps, i, st.decisions[cid], cid))
  }

  ghost predicate AgreesWith(steps: seq<Step>, i: int, d: Decision, cid: CorrelationId)
    requires CreatedAt(steps, i, cid)
  {
    && d.options == steps[i].options && d.source == steps[i].source && d.expiresAt == steps[i].expiresAt
    && (d.status.Open? <==> StillOpen(steps, i, |steps|, cid))
    && (d.status.Responded? <==> AnsweredBefore(steps, i, cid))
  }

  lemma {:induction false} CreatedInPrefix(steps: seq<Step>, i: int, cid: CorrelationId)
    requires steps != []
    ensures i < |steps| - 1 ==> (CreatedAt(steps[..|steps| - 1], i, cid) <==> CreatedAt(steps, i, cid))
  {
  }

  lemma {:induction false} StillOpenStep(steps: seq<Step>, i: int, cid: CorrelationId)
    requires steps != [] && i < |steps| - 1 && CreatedAt(steps, i, cid) && CreatedAt(steps[..|steps| - 1], i, cid)
    ensures var front, last := steps[..|steps| - 1], steps[|steps| - 1];
      StillOpen(steps, i, |steps|, cid) <==>
        && StillOpen(front, i, |front|, cid)
        && !(last.Respond? && last.cid == cid && Allowed(steps[i], last.answer))
        && !(last.Sweep? && steps[i].expiresAt < last.now)
  {
    hide Allowed;
    var front := steps[..|steps| - 1];
    assert forall j :: 0 <= j < |front| ==> front[j] == steps[j];
  }

  lemma {:induction false} AllowedIsTaken(st: State, cid: CorrelationId, created: Step, a: Answer)
    requires created.Create? && cid in st.decisions && st.decisions[cid].status.Open?
    requires st.decisions[cid].options == created.options && st.decisions[cid].source == created.source
    ensures Refusal(st, cid, a).None? <==> Allowed(created, a)
  {
    if a.option in created.options && a.responder != SWITCH_DEFAULT { FenceAgreesWithPolicy(st, cid, a); }
  }

  lemma {:induction false} RowsAreHistory(steps: seq<Step>, cid: CorrelationId)
    requires Possible(START, steps)
    ensures RowIsHistory(steps, Run(START, steps), cid)
  {
    if steps != [] {
      var n := |steps| - 1;
      var front, last := steps[..n], steps[n];
      var st := Run(START, front);
      RowsAreHistory(front, cid);
      RowStep(st, last, cid);
      hide Apply, Refusal, Allowed, StillOpen, AnsweredBefore, Enabled;
      if cid in st.decisions {
        var i :| CreatedAt(front, i, cid) && AgreesWith(front, i, st.decisions[cid], cid);
        CreatedInPrefix(steps, i, cid);
        StillOpenStep(steps, i, cid);
        AnsweredBeforeStep(steps, i, cid);
        if st.decisions[cid].status.Open? && last.Respond? { AllowedIsTaken(st, cid, steps[i], last.answer); }
        assert AgreesWith(steps, i, Run(START, steps).decisions[cid], cid);
      } else {
        NotCreatedBefore(steps, cid);
      }
    }
  }

  lemma {:induction false} NotCreatedBefore(steps: seq<Step>, cid: CorrelationId)
    requires steps != [] && NeverCreated(steps[..|steps| - 1], cid)
    ensures var last := steps[|steps| - 1];
      if last.Create? && last.cid == cid then CreatedAt(steps, |steps| - 1, cid) && StillOpen(steps, |steps| - 1, |steps|, cid)
      else NeverCreated(steps, cid)
  {
    var front := steps[..|steps| - 1];
    assert forall j :: 0 <= j < |front| ==> front[j] == steps[j];
  }

  lemma {:induction false} HistoryOfPrefix(steps: seq<Step>, i: int, k: nat, cid: CorrelationId)
    requires k <= |steps|
    ensures CreatedAt(steps[..k], i, cid) <==> CreatedAt(steps, i, cid) && i < k
    ensures CreatedAt(steps[..k], i, cid) ==> (StillOpen(steps[..k], i, k, cid) <==> StillOpen(steps, i, k, cid))
  {
    hide Allowed;
    assert forall j :: 0 <= j < k ==> steps[..k][j] == steps[j];
  }

  /** By the history alone: a response is accepted exactly when the decision was created before, the answer is
      allowed by what it was created with, no allowed answer came in between, and no sweep came in between later
      than its deadline. A response past the deadline is still taken as long as no sweep has come. */
  lemma {:induction false} AcceptedExactlyWhen(steps: seq<Step>, k: nat)
    requires Possible(START, steps) && k < |steps| && steps[k].Respond?
    ensures AcceptedAt(steps, k) <==>
      exists i :: i < k && CreatedAt(steps, i, steps[k].cid)
        && StillOpen(steps, i, k, steps[k].cid) && Allowed(steps[i], steps[k].answer)
  {
    var cid := steps[k].cid;
    var front := steps[..k];
    PrefixPossible(START, steps, k);
    RowsAreHistory(front, cid);
    hide Apply, Allowed, StillOpen, Run, Possible;
    var st := Run(START, front);
    if cid in st.decisions {
      var i :| CreatedAt(front, i, cid) && AgreesWith(front, i, st.decisions[cid], cid);
      HistoryOfPrefix(steps, i, k, cid);
      if st.decisions[cid].status.Open? { AllowedIsTaken(st, cid, steps[i], steps[k].answer); }
      assert forall j :: CreatedAt(steps, j, cid) ==> j == i;
    } else {
      assert forall j :: 0 <= j < k ==> front[j] == steps[j];
    }
  }

  lemma {:induction false} ExpiredIsTheRest(steps: seq<Step>, i: int, cid: CorrelationId)
    requires CreatedAt(steps, i, cid)
    ensures ExpiredBefore(steps, i, cid) <==> !StillOpen(steps, i, |steps|, cid) && !AnsweredBefore(steps, i, cid)
  {
    ClosedByFirst(steps, i, |steps|, cid);
    if j :| ClosedBy(steps, i, j, cid) && steps[j].Sweep? {
      forall e | ClosedBy(steps, i, e, cid) ensures e == j {
        ClosedByFirst(steps, i, e, cid);
        ClosedByFirst(steps, i, j, cid);
      }
    }
  }

  /** The operator's identities: on the daemon's own host, or by a verified notification. */
  ghost predicate Operator(actor: string) {
    || actor == "unstamped-loopback"
    || (exists rest :: actor == "loopback:" + rest)
    || (exists rest :: actor == "notify:" + rest)
  }

  lemma {:induction false} OperatorsAreAuthorized(actor: string)
    ensures IsOperatorAuthorized(actor) <==> Operator(actor)
  {
    if LOOPBACK <= actor { assert actor == "loopback:" + actor[|LOOPBACK|..]; }
    if NOTIFY <= actor { assert actor == "notify:" + actor[|NOTIFY|..]; }
  }

  /** The responder may be asked: the timeout fallback, or an operator who is not the one who asked. */
  ghost predicate Entitled(created: Step, responder: string)
    requires created.Create?
  {
    responder == "switch-default" || (!Asked(created, responder) && Operator(responder))
  }

  predicate Asked(created: Step, responder: string)
    requires created.Create?
  {
    responder != "" && created.source == Some(responder)
  }

  /** Why a response is turned away, by the history alone: the decision was never created, or an answer or an overdue
      sweep closed it first, or it is open and the option was not offered, or the responder is the one who asked, or
      no operator. */
  lemma {:induction false} RefusedExactlyWhen(steps: seq<Step>, cid: CorrelationId, a: Answer)
    requires Possible(START, steps)
    ensures var refused := Refusal(Run(START, steps), cid, a);
      && (refused == Some(NotFound) <==> NeverCreated(steps, cid))
      && forall i :: CreatedAt(steps, i, cid) ==>
          var open, offered := StillOpen(steps, i, |steps|, cid), a.option in steps[i].options;
          && (refused == Some(AlreadyResponded) <==> AnsweredBefore(steps, i, cid))
          && (refused == Some(IsExpired) <==> ExpiredBefore(steps, i, cid))
          && (refused == Some(InvalidOption) <==> open && !offered)
          && (refused == Some(ResponderIsRequester) <==>
                open && offered && a.responder != "switch-default" && Asked(steps[i], a.responder))
          && (refused == Some(OperatorRequired) <==>
                open && offered && !Asked(steps[i], a.responder) && !Entitled(steps[i], a.responder))
          && (refused == None <==> open && offered && Entitled(steps[i], a.responder))
  {
    RowsAreHistory(steps, cid);
    OperatorsAreAuthorized(a.responder);
    hide StillOpen, AnsweredBefore, ExpiredBefore, Run, Possible, IsOperatorAuthorized, Operator;
    if cid in Run(START, steps).decisions {
      var i :| CreatedAt(steps, i, cid) && AgreesWith(steps, i, Run(START, steps).decisions[cid], cid);
      assert forall j :: CreatedAt(steps, j, cid) ==> j == i;
      ExpiredIsTheRest(steps, i, cid);
    }
  }

  // ---------------------------------------------------------------- awaiters

  /** A promise is settled by at most one call, and while it is not, its listener and timer both stand. */
  predicate AwaiterIsSound(st: State, id: AwaiterId)
    requires id in st.awaiters
  {
    var w := st.awaiters[id];
    && |w.settled| <= 1
    && (w.settled == [] <==> id in st.listening)
    && (id in st.listening <==> id in st.timers)
    && (w.settled != [] && w.settled[0].Resolved? ==>
          w.cid in st.decisions && st.decisions[w.cid].answer == Some(w.settled[0].answer))
    && (w.settled == [] && w.cid in st.decisions && st.decisions[w.cid].status.Responded? ==>
          st.decisions[w.cid].answer.Some? && st.decisions[w.cid].answer.value.option == "")
  }

  predicate AwaitersAreSound(st: State) {
    && (forall id :: id in st.awaiters ==> AwaiterIsSound(st, id))
    && st.listening <= st.awaiters.Keys && st.timers <= st.awaiters.Keys
  }

  lemma {:induction false} RespondKeepsAwaiters(st: State, cid: CorrelationId, a: Answer)
    requires RowsAreSound(st) && AwaitersAreSound(st)
    ensures AwaitersAreSound(RespondRow(st, cid, a))
  {
  }

  lemma {:induction false} SweepKeepsAwaiters(st: State, now: int)
    requires RowsAreSound(st) && AwaitersAreSound(st)
    ensures AwaitersAreSound(SweepRows(st, now))
  {
  }

  lemma {:induction false} AwaitKeepsAwaiters(st: State, id: AwaiterId, cid: CorrelationId)
    requires RowsAreSound(st) && AwaitersAreSound(st) && id !in st.awaiters
    ensures AwaitersAreSound(AwaitAnswer(st, id, cid))
  {
  }

  lemma {:induction false} TimerKeepsAwaiters(st: State, id: AwaiterId)
    requires RowsAreSound(st) && AwaitersAreSound(st) && id in st.awaiters && id in st.timers
    ensures AwaitersAreSound(Expire(st, id))
  {
  }

  lemma {:induction false} CreateKeepsAwaiters(st: State, cid: CorrelationId, options: seq<string>,
                                               source: Option<string>, expiresAt: int)
    requires RowsAreSound(st) && AwaitersAreSound(st)
    ensures AwaitersAreSound(CreateRow(st, cid, options, source, expiresAt))
  {
  }

  /** Over every interleaving: an awaiter settles at most once, is never left without a timer to end it,
      agrees with the stored row when it resolves, and never sleeps through an answer, unless the option
      chosen has the empty string for its id. */
  lemma {:induction false} AwaitersSettleOnceAndAgree(steps: seq<Step>)
    requires Possible(START, steps)
    ensures AwaitersAreSound(Run(START, steps))
  {
    if steps != [] {
      var front, last := steps[..|steps| - 1], steps[|steps| - 1];
      var st := Run(START, front);
      AwaitersSettleOnceAndAgree(front);
      StoredAnswersAreLegitimate(front);
      match last
      case Create(cid, options, source, expiresAt) => CreateKeepsAwaiters(st, cid, options, source, expiresAt);
      case Respond(cid, a) => RespondKeepsAwaiters(st, cid, a);
      case Sweep(now) => SweepKeepsAwaiters(st, now);
      case Await(id, cid) => AwaitKeepsAwaiters(st, id, cid);
      case TimerFires(id) => TimerKeepsAwaiters(st, id);
    }
  }

  /** Any two awaiters of one decision that resolve get the same answer, however they came by it. */
  lemma {:induction false} ResolvedAwaitersAgree(steps: seq<Step>, a: AwaiterId, b: AwaiterId)
    requires Possible(START, steps)
    requires var ws := Run(START, steps).awaiters;
      && a in ws && b in ws && ws[a].cid == ws[b].cid
      && ws[a].settled != [] && ws[b].settled != [] && ws[a].settled[0].Resolved? && ws[b].settled[0].Resolved?
    ensures var ws := Run(START, steps).awaiters; ws[a].settled == ws[b].settled
  {
    AwaitersSettleOnceAndAgree(steps);
    var st := Run(START, steps);
    assert AwaiterIsSound(st, a) && AwaiterIsSound(st, b);
    assert st.awaiters[a].settled == [st.awaiters[a].settled[0]];
    assert st.awaiters[b].settled == [st.awaiters[b].settled[0]];
  }

  /** A settled promise stays as it is: neither a late answer nor a late timer touches it. */
  lemma {:induction false} SettledIsFinal(st: State, step: Step, id: AwaiterId)
    requires AwaitersAreSound(st) && Enabled(st, step) && id in st.awaiters && st.awaiters[id].settled != []
    ensures id in Apply(st, step).awaiters && Apply(st, step).awaiters[id] == st.awaiters[id]
  {
  }

  // ---------------------------------------------------------------- how an awaiter ends, by the history

  /** Step `j` took an answer for the decision. */
  predicate TakenAt(steps: seq<Step>, j: nat, cid: CorrelationId)
    requires Possible(START, steps)
  {
    AcceptedAt(steps, j) && steps[j].cid == cid
  }

  /** Step `j` ends the waiting: it takes an answer, or the awaiter's timer fires. */
  predicate EndsWaiting(steps: seq<Step>, j: nat, id: AwaiterId, cid: CorrelationId)
    requires Possible(START, steps)
  {
    TakenAt(steps, j, cid) || (j < |steps| && steps[j] == TimerFires(id))
  }

  function EndOf(step: Step): Outcome { if step.Respond? then Resolved(step.answer) else TimedOut }

  /** Before step `a` an answer with a name had been taken. */
  predicate NamedAnswerAt(steps: seq<Step>, k: nat, a: nat, cid: CorrelationId)
    requires Possible(START, steps)
  {
    k < a && TakenAt(steps, k, cid) && steps[k].answer.option != ""
  }

  /** Nothing from step `a` to step `j` ends the waiting. */
  predicate WaitsUntil(steps: seq<Step>, a: nat, j: nat, id: AwaiterId, cid: CorrelationId)
    requires Possible(START, steps)
  {
    forall e: nat :: a < e < j ==> !EndsWaiting(steps, e, id, cid)
  }

  /** The wait begun at step `a`: over at once if an answer with a name had been taken, else ended by the first step
      that ends it, else still on. */
  ghost predicate WaitAgrees(steps: seq<Step>, a: nat, id: AwaiterId, cid: CorrelationId, settled: seq<Outcome>)
    requires Possible(START, steps)
  {
    && (forall k: nat :: NamedAnswerAt(steps, k, a, cid) ==> settled == [Resolved(steps[k].answer)])
    && ((forall k: nat :: !NamedAnswerAt(steps, k, a, cid)) ==>
          && (WaitsUntil(steps, a, |steps|, id, cid) ==> settled == [])
          && forall j: nat :: a < j && EndsWaiting(steps, j, id, cid) && WaitsUntil(steps, a, j, id, cid) ==>
              settled == [EndOf(steps[j])])
  }

  lemma {:induction false} RespondedWasTaken(steps: seq<Step>, cid: CorrelationId) returns (k: nat)
    requires Possible(START, steps) && cid in Run(START, steps).decisions
    requires Run(START, steps).decisions[cid].status.Responded?
    ensures TakenAt(steps, k, cid) && Run(START, steps).decisions[cid].answer == Some(steps[k].answer)
  {
    var n := |steps| - 1;
    var front := steps[..n];
    var st := Run(START, front);
    if cid in st.decisions && st.decisions[cid].status.Responded? {
      k := RespondedWasTaken(front, cid);
      StepKeepsClosed(st, steps[n], cid);
      assert front[..k] == steps[..k];
    } else {
      k := n;
    }
  }

  lemma {:induction false} TakenOfPrefix(steps: seq<Step>, n: nat, j: nat, id: AwaiterId, cid: CorrelationId)
    requires Possible(START, steps) && n <= |steps| && Possible(START, steps[..n]) && j < n
    ensures TakenAt(steps[..n], j, cid) <==> TakenAt(steps, j, cid)
    ensures EndsWaiting(steps[..n], j, id, cid) <==> EndsWaiting(steps, j, id, cid)
  {
    hide Refusal;
    assert steps[..n][..j] == steps[..j];
  }

  lemma {:induction false} WaitBegins(steps: seq<Step>, id: AwaiterId, cid: CorrelationId)
    requires Possible(START, steps) && steps != [] && steps[|steps| - 1] == Await(id, cid)
    ensures var st := Run(START, steps);
      id in st.awaiters && st.awaiters[id].cid == cid && WaitAgrees(steps, |steps| - 1, id, cid, st.awaiters[id].settled)
  {
    var n := |steps| - 1;
    var front := steps[..n];
    var st := Run(START, front);
    StoredAnswersAreLegitimate(front);
    forall k: nat | k < n && TakenAt(steps, k, cid)
      ensures cid in st.decisions && st.decisions[cid].status.Responded? && st.decisions[cid].answer == Some(steps[k].answer)
    {
      TakenOfPrefix(steps, n, k, id, cid);
      AcceptedIsKept(front, k, n);
      assert front[..n] == front;
    }
    if cid in st.decisions && st.decisions[cid].status.Responded? {
      var k := RespondedWasTaken(front, cid);
      TakenOfPrefix(steps, n, k, id, cid);
      assert NamedAnswerAt(steps, k, n, cid) <==> steps[k].answer.option != "";
    }
  }

  /** What a step does to an awaiter that is there. */
  lemma {:induction false} WaitStep(st: State, step: Step, id: AwaiterId)
    requires AwaitersAreSound(st) && Enabled(st, step) && id in st.awaiters
    ensures var w, after := st.awaiters[id], Apply(st, step).awaiters;
      id in after && after[id] ==
        if w.settled == [] && step.Respond? && step.cid == w.cid && Refusal(st, step.cid, step.answer).None?
        then Settle(w, Resolved(step.answer))
        else if step == TimerFires(id) then Settle(w, TimedOut) else w
  {
    assert AwaiterIsSound(st, id);
    hide Refusal;
  }

  lemma {:induction false} TimerFindsItWaiting(st: State, id: AwaiterId)
    requires AwaitersAreSound(st) && Enabled(st, TimerFires(id))
    ensures st.awaiters[id].settled == []
  {
    assert AwaiterIsSound(st, id);
  }

  lemma {:induction false} WaitsUntilOfPrefix(steps: seq<Step>, n: nat, a: nat, j: nat, id: AwaiterId, cid: CorrelationId)
    requires Possible(START, steps) && n <= |steps| && Possible(START, steps[..n]) && j <= n
    ensures WaitsUntil(steps[..n], a, j, id, cid) <==> WaitsUntil(steps, a, j, id, cid)
  {
    hide EndsWaiting;
    forall e: nat | a < e < j ensures EndsWaiting(steps[..n], e, id, cid) <==> EndsWaiting(steps, e, id, cid) {
      TakenOfPrefix(steps, n, e, id, cid);
    }
  }

  /** What one more step changes in the story of a wait. */
  lemma {:induction false} StoryGoesOn(steps: seq<Step>, a: nat, id: AwaiterId, cid: CorrelationId)
    requires Possible(START, steps) && a < |steps| - 1 && Possible(START, steps[..|steps| - 1])
    ensures var n := |steps| - 1; var front := steps[..n];
      && (forall k: nat :: NamedAnswerAt(front, k, a, cid) <==> NamedAnswerAt(steps, k, a, cid))
      && (forall j: nat :: j <= n ==> (WaitsUntil(front, a, j, id, cid) <==> WaitsUntil(steps, a, j, id, cid)))
      && (forall j: nat :: j < n ==> (EndsWaiting(front, j, id, cid) <==> EndsWaiting(steps, j, id, cid)))
      && (WaitsUntil(steps, a, n + 1, id, cid) <==> WaitsUntil(steps, a, n, id, cid) && !EndsWaiting(steps, n, id, cid))
  {
    var n := |steps| - 1;
    var front := steps[..n];
    hide AcceptedAt;
    forall k: nat ensures NamedAnswerAt(front, k, a, cid) <==> NamedAnswerAt(steps, k, a, cid) {
      if k < a { TakenOfPrefix(steps, n, k, id, cid); }
    }
    forall j: nat | j <= n
      ensures WaitsUntil(front, a, j, id, cid) <==> WaitsUntil(steps, a, j, id, cid)
      ensures j < n ==> (EndsWaiting(front, j, id, cid) <==> EndsWaiting(steps, j, id, cid))
    {
      WaitsUntilOfPrefix(steps, n, a, j, id, cid);
      if j < n { TakenOfPrefix(steps, n, j, id, cid); }
    }
  }

  /** What one more step does to a wait that agrees with its story. */
  lemma {:induction false} NextAgrees(
      steps: seq<Step>, a: nat, id: AwaiterId, cid: CorrelationId, before: seq<Outcome>, after: seq<Outcome>)
    requires Possible(START, steps) && a < |steps| - 1 && Possible(START, steps[..|steps| - 1])
    requires WaitAgrees(steps[..|steps| - 1], a, id, cid, before)
    requires after == if before == [] && EndsWaiting(steps, |steps| - 1, id, cid) then [EndOf(steps[|steps| - 1])] else before
    ensures WaitAgrees(steps, a, id, cid, after)
  {
    StoryGoesOn(steps, a, id, cid);
    hide Possible, TakenAt, EndsWaiting, NamedAnswerAt, WaitsUntil;
    var n := |steps| - 1;
    assert EndsWaiting(steps, n, id, cid) && WaitsUntil(steps, a, n, id, cid) && (forall k: nat :: !NamedAnswerAt(steps, k, a, cid))
      ==> before == [];
    EndsAreSteps(steps, id, cid);
  }

  lemma {:induction false} EndsAreSteps(steps: seq<Step>, id: AwaiterId, cid: CorrelationId)
    requires Possible(START, steps)
    ensures forall j: nat :: EndsWaiting(steps, j, id, cid) ==> j < |steps|
  {
  }

  lemma {:induction false} WaitGoesOn(steps: seq<Step>, a: nat, id: AwaiterId, cid: CorrelationId)
    requires Possible(START, steps) && a < |steps| - 1 && Possible(START, steps[..|steps| - 1])
    requires var st := Run(START, steps[..|steps| - 1]);
      id in st.awaiters && st.awaiters[id].cid == cid && WaitAgrees(steps[..|steps| - 1], a, id, cid, st.awaiters[id].settled)
    ensures var st := Run(START, steps);
      id in st.awaiters && st.awaiters[id].cid == cid && WaitAgrees(steps, a, id, cid, st.awaiters[id].settled)
  {
    hide WaitAgrees;
    var n := |steps| - 1;
    var front, last := steps[..n], steps[n];
    var st := Run(START, front);
    AwaitersSettleOnceAndAgree(front);
    WaitStep(st, last, id);
    if last == TimerFires(id) { TimerFindsItWaiting(st, id); }
    assert TakenAt(steps, n, cid) <==> last.Respond? && last.cid == cid && Refusal(st, cid, last.answer).None?;
    hide Apply, Refusal;
    NextAgrees(steps, a, id, cid, st.awaiters[id].settled, Run(START, steps).awaiters[id].settled);
  }

  /** Every wait, by the history: it waits for the decision it was asked for, is over at once if a named answer had
      been taken, and otherwise ends with the first of the answer and its timer. */
  lemma {:induction false} WaitsEndAsTheyShould(steps: seq<Step>, a: nat, id: AwaiterId, cid: CorrelationId)
    requires Possible(START, steps) && a < |steps| && steps[a] == Await(id, cid)
    ensures var st := Run(START, steps);
      id in st.awaiters && st.awaiters[id].cid == cid && WaitAgrees(steps, a, id, cid, st.awaiters[id].settled)
  {
    if a == |steps| - 1 {
      WaitBegins(steps, id, cid);
    } else {
      WaitsEndAsTheyShould(steps[..|steps| - 1], a, id, cid);
      WaitGoesOn(steps, a, id, cid);
    }
  }

  predicate OffersNoEmptyId(steps: seq<Step>) {
    forall k :: 0 <= k < |steps| && steps[k].Create? ==> "" !in steps[k].options
  }

  /** What callers get: while every decision created offers named options only, as the tools that create them demand,
      no awaiter of a responded decision is left waiting, whenever it came and in whatever interleaving. */
  lemma {:induction false} NamedAnswersReachEveryAwaiter(steps: seq<Step>, id: AwaiterId)
    requires Possible(START, steps) && OffersNoEmptyId(steps)
    requires var st := Run(START, steps);
      id in st.awaiters && st.awaiters[id].cid in st.decisions && st.decisions[st.awaiters[id].cid].status.Responded?
    ensures Run(START, steps).awaiters[id].settled != []
  {
    var st := Run(START, steps);
    var cid := st.awaiters[id].cid;
    AwaitersSettleOnceAndAgree(steps);
    StoredAnswersAreLegitimate(steps);
    RowsAreHistory(steps, cid);
    assert AwaiterIsSound(st, id) && RowIsSound(st.decisions[cid]);
    var i :| CreatedAt(steps, i, cid) && AgreesWith(steps, i, st.decisions[cid], cid);
  }

  /** The store itself does not forbid an empty option id. Under one, waiting on a responded decision does not
      resolve at once, and nothing but the timer can ever settle the promise. */
  lemma {:induction false} LateAwaitersResolveIffNamed(st: State, id: AwaiterId, cid: CorrelationId)
    requires RowsAreSound(st) && id !in st.awaiters && cid in st.decisions && st.decisions[cid].status.Responded?
    ensures AwaitAnswer(st, id, cid).awaiters[id].settled ==
      if st.decisions[cid].answer.value.option != "" then [Resolved(st.decisions[cid].answer.value)] else []
  {
  }

  lemma {:induction false} StrandedUntilTimer(st: State, steps: seq<Step>, id: AwaiterId)
    requires Possible(st, steps) && id in st.awaiters && st.awaiters[id].settled == []
    requires st.awaiters[id].cid in st.decisions && st.decisions[st.awaiters[id].cid].status.Responded?
    requires forall k :: 0 <= k < |steps| ==> steps[k] != TimerFires(id)
    ensures id in Run(st, steps).awaiters && Run(st, steps).awaiters[id] == st.awaiters[id]
  {
    if steps != [] {
      var front, last := steps[..|steps| - 1], steps[|steps| - 1];
      assert forall k :: 0 <= k < |front| ==> front[k] == steps[k];
      StrandedUntilTimer(st, front, id);
      ClosedRowsNeverChange(st, front, st.awaiters[id].cid);
      assert last != TimerFires(id);
    }
  }

  // ---------------------------------------------------------------- the store, updated in place

  class DecisionStore {
    var decisions: map<CorrelationId, Decision>
    var awaiters: map<AwaiterId, Awaiter>
    var listening: set<AwaiterId>
    var timers: set<AwaiterId>

    ghost function Value(): State
      reads this
    {
      State(decisions, awaiters, listening, timers)
    }

    constructor ()
      ensures Value() == START
    {
      decisions, awaiters, listening, timers := map[], map[], {}, {};
    }

    /** False is the primary key violation. */
    method CreateDecision(cid: CorrelationId, options: seq<string>, source: Option<string>, requestedAt: int, timeoutSec: int)
      returns (created: bool)
      modifies `decisions
      ensures Value() == CreateRow(old(Value()), cid, options, source, requestedAt + 1000 * timeoutSec)
      ensures created <==> cid !in old(decisions)
    {
      created := cid !in decisions;
      if created {
        decisions := decisions[cid := Decision(options, source, requestedAt + timeoutSec * 1000, Open, None)];
      }
    }

    method RespondToDecision(cid: CorrelationId, chosen: string, reason: string, responder: string)
      returns (refused: Option<RespondError>)
      modifies this
      ensures refused == Refusal(old(Value()), cid, Answer(chosen, responder, reason))
      ensures Value() == Apply(old(Value()), Respond(cid, Answer(chosen, responder, reason)))
    {
      if cid !in decisions { return Some(NotFound); }
      var existing := decisions[cid];
      if existing.status == Responded { return Some(AlreadyResponded); }
      if existing.status == Expired { return Some(IsExpired); }
      if chosen !in existing.options { return Some(InvalidOption); }
      if responder != SWITCH_DEFAULT {
        if existing.source.Some? && existing.source.value != "" && responder == existing.source.value {
          return Some(ResponderIsRequester);
        }
        if !IsOperatorAuthorized(responder) { return Some(OperatorRequired); }
      }
      decisions := decisions[cid := existing.(status := Responded, answer := Some(Answer(chosen, responder, reason)))];
      EmitResponse(cid, Answer(chosen, responder, reason));
      refused := None;
    }

    /** One `once` listener: it is off the emitter before it runs, clears its timer and resolves. */
    method OnResponse(id: AwaiterId, a: Answer)
      requires id in awaiters
      modifies `awaiters, `listening, `timers
      ensures awaiters == old(awaiters)[id := Settle(old(awaiters)[id], Resolved(a))]
      ensures listening == old(listening) - {id} && timers == old(timers) - {id}
    {
      listening := listening - {id};
      timers := timers - {id};
      awaiters := awaiters[id := Settle(awaiters[id], Resolved(a))];
    }

    method EmitResponse(cid: CorrelationId, a: Answer)
      modifies `awaiters, `listening, `timers
      ensures Value() == Emit(old(Value()), cid, a)
    {
      ghost var st := Value();
      var woken := set id | id in listening && id in awaiters && awaiters[id].cid == cid;
      var left := woken;
      while left != {}
        invariant left <= woken && woken <= awaiters.Keys && awaiters.Keys == st.awaiters.Keys
        invariant forall id :: id in awaiters ==>
          awaiters[id] == if id in woken && id !in left then Settle(st.awaiters[id], Resolved(a)) else st.awaiters[id]
        invariant listening == st.listening - (woken - left) && timers == st.timers - (woken - left)
        decreases left
      {
        var id :| id in left;
        OnResponse(id, a);
        left := left - {id};
      }
      assert woken == set id | id in st.awaiters && Wakes(st, id, cid);
      assert awaiters == Emit(st, cid, a).awaiters;
    }

    /** Updates the overdue rows one by one and returns their ids. */
    method SweepExpiredDecisions(now: int) returns (expired: set<CorrelationId>)
      modifies `decisions
      ensures Value() == Apply(old(Value()), Sweep(now))
      ensures forall cid :: cid in expired <==>
        cid in old(decisions) && old(decisions)[cid].status.Open? && decisions[cid].status.Expired?
    {
      ghost var st := Value();
      var due := set cid | cid in decisions && decisions[cid].status.Open? && decisions[cid].expiresAt < now;
      expired := {};
      while due - expired != {}
        invariant expired <= due && decisions.Keys == st.decisions.Keys
        invariant forall cid :: cid in decisions ==>
          decisions[cid] == if cid in expired then st.decisions[cid].(status := Expired) else st.decisions[cid]
        decreases due - expired
      {
        var cid :| cid in due - expired;
        decisions := decisions[cid := decisions[cid].(status := Expired)];
        expired := expired + {cid};
      }
      assert expired == due;
      assert decisions == SweepRows(st, now).decisions;
    }

    method AwaitDecisionResponse(id: AwaiterId, cid: CorrelationId)
      requires Enabled(Value(), Await(id, cid))
      modifies this
      ensures Value() == Apply(old(Value()), Await(id, cid))
    {
      if cid in decisions && decisions[cid].status == Responded
         && decisions[cid].answer.Some? && decisions[cid].answer.value.option != "" {
        awaiters := awaiters[id := Awaiter(cid, [Resolved(decisions[cid].answer.value)])];
        return;
      }
      awaiters := awaiters[id := Awaiter(cid, [])];
      timers := timers + {id};
      listening := listening + {id};
    }

    method TimerFired(id: AwaiterId)
      requires Enabled(Value(), TimerFires(id))
      modifies this
      ensures Value() == Apply(old(Value()), TimerFires(id))
    {
      listening, timers := listening - {id}, timers - {id};
      awaiters := awaiters[id := Settle(awaiters[id], TimedOut)];
    }
  }
}
