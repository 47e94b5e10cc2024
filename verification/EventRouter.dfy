/**
 The Governor's toast router (governor/src/event_router.rs): which broker events become an OS toast, given
 a debounce per event kind and an operator mute. Instants are milliseconds.
 */
module EventRouter {
  import opened Wrappers

  const DEBOUNCE_WINDOW: int := 10_000

  datatype Severity = Info | Warn | Crit

  /** `completed` is whether the payload's `reason` is the string "completed". */
  datatype BrokerEvent = BrokerEvent(kind: string, completed: bool)

  function KindTemplate(kind: string): Option<Severity> {
    match kind
    case "notification_requested" => Some(Warn)
    case "decision_request" => Some(Crit)
    case "decision_required" => Some(Crit)
    case "host_exec_denied" => Some(Crit)
    case "trust_scope_proposed" => Some(Info)
    case "trust_scope_revoked" => Some(Warn)
    case "trust_scope_completed" => Some(Info)
    case "worker_terminated" => Some(Warn)
    case "worker_failed" => Some(Crit)
    case "worker_blocked_by_av" => Some(Crit)
    case "daemon_health_changed" => Some(Warn)
    case "scope_expired" => Some(Info)
    case "cc_quota_warning" => Some(Warn)
    case "worker_dispatch_failed" => Some(Warn)
    case _ => None
  }

  /** Worth a toast at all: in the table, and not the routine end of a worker. */
  predicate Relevant(ev: BrokerEvent) {
    KindTemplate(ev.kind).Some? && !(ev.kind == "worker_terminated" && ev.completed)
  }

  // What an operator is told of, by how loudly.
  const CRITICAL: seq<string> :=
    ["decision_request", "decision_required", "host_exec_denied", "worker_failed", "worker_blocked_by_av"]
  const WARNING: seq<string> :=
    ["notification_requested", "trust_scope_revoked", "worker_terminated", "daemon_health_changed",
     "cc_quota_warning", "worker_dispatch_failed"]
  const INFORMATION: seq<string> := ["trust_scope_proposed", "trust_scope_completed", "scope_expired"]

  /** The fourteen kinds of the three lists, and of workers that terminated only those that did not just complete. */
  predicate ConcernsOperator(ev: BrokerEvent) {
    && (ev.kind in CRITICAL || ev.kind in WARNING || ev.kind in INFORMATION)
    && (ev.kind == "worker_terminated" ==> !ev.completed)
  }

  lemma {:induction false} RelevantExactlyWhen(ev: BrokerEvent)
    ensures Relevant(ev) <==> ConcernsOperator(ev)
    ensures KindTemplate(ev.kind) == Some(Crit) <==> ev.kind in CRITICAL
    ensures KindTemplate(ev.kind) == Some(Warn) <==> ev.kind in WARNING
    ensures KindTemplate(ev.kind) == Some(Info) <==> ev.kind in INFORMATION
  {
  }

  datatype State = State(lastEmit: map<string, int>, muteUntil: Option<int>)

  const START: State := State(map[], None)

  datatype Step = Route(event: BrokerEvent, now: int) | Mute(until: int) | Unmute

  /** `duration_since` is zero when the clock went back. */
  function Elapsed(now: int, since: int): int { if now < since then 0 else now - since }

  predicate Muted(st: State, now: int) { st.muteUntil.Some? && now < st.muteUntil.value }

  predicate Debounced(st: State, kind: string, now: int) {
    kind in st.lastEmit && Elapsed(now, st.lastEmit[kind]) < DEBOUNCE_WINDOW
  }

  predicate Shows(st: State, ev: BrokerEvent, now: int) {
    Relevant(ev) && !Muted(st, now) && !Debounced(st, ev.kind, now)
  }

  function Apply(st: State, step: Step): State {
    match step
    case Route(ev, now) => if Shows(st, ev, now) then st.(lastEmit := st.lastEmit[ev.kind := now]) else st
    case Mute(until) =>
      st.(muteUntil := Some(if st.muteUntil.Some? && st.muteUntil.value > until then st.muteUntil.value else until))
    case Unmute => st.(muteUntil := None)
  }

  function Run(steps: seq<Step>): State {
    if steps == [] then START else Apply(Run(steps[..|steps| - 1]), steps[|steps| - 1])
  }

  // ---------------------------------------------------------------- what the history says

  /** Step `k` rendered a toast. */
  predicate RenderedAt(steps: seq<Step>, k: int) {
    0 <= k < |steps| && steps[k].Route? && Shows(Run(steps[..k]), steps[k].event, steps[k].now)
  }

  predicate ToastOf(steps: seq<Step>, k: int, kind: string) { RenderedAt(steps, k) && steps[k].event.kind == kind }

  /** Step `i` asked for a mute that no unmute has ended before step `k`. */
  predicate MuteStands(steps: seq<Step>, i: int, k: int) {
    0 <= i < k <= |steps| && steps[i].Mute? && forall j :: i < j < k ==> !steps[j].Unmute?
  }

  predicate Monotone(steps: seq<Step>) {
    forall i, j :: 0 <= i < j < |steps| && steps[i].Route? && steps[j].Route? ==> steps[i].now <= steps[j].now
  }

  /** The stored mute end is the latest asked for since the last unmute. */
  ghost predicate IsMuteEnd(steps: seq<Step>, n: nat, end: Option<int>) {
    && (forall i :: MuteStands(steps, i, n) ==> end.Some? && steps[i].until <= end.value)
    && (end.Some? ==> exists i :: MuteStands(steps, i, n) && steps[i].until == end.value)
  }

  lemma {:induction false} MuteEndIsLatest(steps: seq<Step>, n: nat)
    requires n <= |steps|
    ensures IsMuteEnd(steps, n, Run(steps[..n]).muteUntil)
    decreases n
  {
    if n > 0 {
      var front, step := steps[..n - 1], steps[n - 1];
      assert steps[..n][..n - 1] == front;
      MuteEndIsLatest(steps, n - 1);
      MuteEndStep(steps, n - 1, Run(front));
    }
  }

  lemma {:induction false} MuteEndStep(steps: seq<Step>, n: nat, st: State)
    requires n < |steps| && IsMuteEnd(steps, n, st.muteUntil)
    ensures IsMuteEnd(steps, n + 1, Apply(st, steps[n]).muteUntil)
  {
    hide Shows;
    forall i | 0 <= i < n
      ensures MuteStands(steps, i, n + 1) <==> MuteStands(steps, i, n) && !steps[n].Unmute?
    {
    }
    if steps[n].Mute? {
      assert MuteStands(steps, n, n + 1);
    }
  }

  /** The debounce table holds, for each kind, the time of the last toast of that kind. */
  ghost predicate IsLastToast(steps: seq<Step>, n: nat, kind: string, at: Option<int>) {
    && (at.None? ==> forall i :: i < n ==> !ToastOf(steps, i, kind))
    && (at.Some? ==> exists i :: i < n && ToastOf(steps, i, kind) && steps[i].now == at.value
                      && forall j :: i < j < n ==> !ToastOf(steps, j, kind))
  }

  function Stored(st: State, kind: string): Option<int> {
    if kind in st.lastEmit then Some(st.lastEmit[kind]) else None
  }

  lemma {:induction false} TableHoldsLastToasts(steps: seq<Step>, n: nat, kind: string)
    requires n <= |steps|
    ensures IsLastToast(steps, n, kind, Stored(Run(steps[..n]), kind))
    decreases n
  {
    hide Shows;
    if n > 0 {
      var st := Run(steps[..n - 1]);
      assert steps[..n][..n - 1] == steps[..n - 1];
      TableHoldsLastToasts(steps, n - 1, kind);
      assert ToastOf(steps, n - 1, kind) ==> Stored(Run(steps[..n]), kind) == Some(steps[n - 1].now);
      assert !ToastOf(steps, n - 1, kind) ==> Stored(Run(steps[..n]), kind) == Stored(st, kind);
    }
  }

  // ---------------------------------------------------------------- over whole runs

  /** By the history alone: no standing mute reaches past `now`, and no toast of the kind is under 10 s old. */
  ghost predicate Clear(steps: seq<Step>, k: nat)
    requires k < |steps| && steps[k].Route?
  {
    && (forall i :: MuteStands(steps, i, k) ==> steps[i].until <= steps[k].now)
    && (forall i :: i < k && ToastOf(steps, i, steps[k].event.kind) ==> steps[k].now - steps[i].now >= DEBOUNCE_WINDOW)
  }

  /** With a clock that does not go back, an event becomes a toast exactly when it concerns the operator and
      the history is clear. So every suppressed event of concern is explained by a mute still standing or by a
      rendered toast of its kind under 10 s earlier, and nothing explained that way is ever shown. */
  lemma {:induction false} RenderedExactlyWhenClear(steps: seq<Step>, k: nat)
    requires Monotone(steps) && k < |steps| && steps[k].Route?
    ensures RenderedAt(steps, k) <==> ConcernsOperator(steps[k].event) && Clear(steps, k)
  {
    hide Relevant, ConcernsOperator;
    RelevantExactlyWhen(steps[k].event);
    MutedByHistory(steps, k, steps[k].now);
    DebouncedByHistory(steps, k);
  }

  lemma {:induction false} MutedByHistory(steps: seq<Step>, k: nat, now: int)
    requires k <= |steps|
    ensures Muted(Run(steps[..k]), now) <==> exists i :: MuteStands(steps, i, k) && now < steps[i].until
  {
    MuteEndIsLatest(steps, k);
  }

  lemma {:induction false} DebouncedByHistory(steps: seq<Step>, k: nat)
    requires Monotone(steps) && k < |steps| && steps[k].Route?
    ensures var kind, now := steps[k].event.kind, steps[k].now;
      Debounced(Run(steps[..k]), kind, now) <==>
      exists i :: i < k && ToastOf(steps, i, kind) && now - steps[i].now < DEBOUNCE_WINDOW
  {
    hide Shows;
    var kind, now := steps[k].event.kind, steps[k].now;
    TableHoldsLastToasts(steps, k, kind);
    var st := Run(steps[..k]);
    if kind in st.lastEmit {
      var last :| last < k && ToastOf(steps, last, kind) && steps[last].now == st.lastEmit[kind]
        && forall j :: last < j < k ==> !ToastOf(steps, j, kind);
      forall i | i < k && ToastOf(steps, i, kind) ensures steps[i].now <= st.lastEmit[kind] {
        assert i <= last;
      }
    }
  }

  /** Rendered toasts of one kind are at least 10 s apart. */
  lemma {:induction false} ToastsOfAKindAreSpaced(steps: seq<Step>, i: nat, j: nat)
    requires Monotone(steps) && i < j && RenderedAt(steps, i) && RenderedAt(steps, j)
    requires steps[i].event.kind == steps[j].event.kind
    ensures steps[j].now - steps[i].now >= 10_000
  {
    hide Shows;
    RenderedExactlyWhenClear(steps, j);
    assert ToastOf(steps, i, steps[j].event.kind);
  }

  /** No toast comes before the end of any mute asked for since the last unmute. */
  lemma {:induction false} NoToastBeforeMuteEnd(steps: seq<Step>, i: nat, k: nat)
    requires RenderedAt(steps, k) && MuteStands(steps, i, k)
    ensures steps[k].now >= steps[i].until
  {
    MutedByHistory(steps, k, steps[k].now);
  }

  datatype Toast = Toast(kind: string, at: int)

  /** The toasts of a run, in order. */
  function Toasts(steps: seq<Step>): seq<Toast> {
    if steps == [] then []
    else
      var front, last := steps[..|steps| - 1], steps[|steps| - 1];
      if last.Route? && Shows(Run(front), last.event, last.now)
      then Toasts(front) + [Toast(last.event.kind, last.now)] else Toasts(front)
  }

  /** A run without the events that arrived while a mute was active. */
  function WithoutMuted(steps: seq<Step>): seq<Step> {
    if steps == [] then []
    else
      var front, last := steps[..|steps| - 1], steps[|steps| - 1];
      if last.Route? && Muted(Run(front), last.now) then WithoutMuted(front) else WithoutMuted(front) + [last]
  }

  /** Events dropped by a mute leave no trace, whatever the struct's own comment says: the run in which they never
      came ends in the same state and has shown the same toasts. So after a mute the first event of a kind is held
      back only by a toast that was really shown. */
  lemma {:induction false} MutedEventsLeaveNoTrace(steps: seq<Step>)
    ensures Run(WithoutMuted(steps)) == Run(steps) && Toasts(WithoutMuted(steps)) == Toasts(steps)
  {
    hide Relevant, Debounced;
    if steps != [] {
      var front, last := steps[..|steps| - 1], steps[|steps| - 1];
      MutedEventsLeaveNoTrace(front);
      var kept := WithoutMuted(front);
      assert (kept + [last])[..|kept|] == kept;
    }
  }

  // ---------------------------------------------------------------- the router

  class Router {
    var lastEmit: map<string, int>
    var muteUntil: Option<int>
    ghost var steps: seq<Step>

    ghost predicate Valid()
      reads this
    {
      State(lastEmit, muteUntil) == Run(steps)
    }

    constructor ()
      ensures Valid() && steps == []
    {
      lastEmit, muteUntil, steps := map[], None, [];
    }

    /** True when a toast was rendered. */
    method RouteEvent(ev: BrokerEvent, now: int) returns (shown: bool)
      requires Valid()
      modifies this
      ensures Valid() && steps == old(steps) + [Route(ev, now)]
      ensures shown <==> RenderedAt(steps, |steps| - 1)
    {
      hide Relevant;
      ghost var before := steps;
      steps := steps + [Route(ev, now)];
      assert steps[..|before|] == before;
      if !Relevant(ev) { return false; }
      if muteUntil.Some? && now < muteUntil.value { return false; }
      if ev.kind in lastEmit && Elapsed(now, lastEmit[ev.kind]) < DEBOUNCE_WINDOW { return false; }
      lastEmit := lastEmit[ev.kind := now];
      shown := true;
    }

    method MuteUntil(until: int)
      requires Valid()
      modifies this
      ensures Valid() && steps == old(steps) + [Mute(until)]
      ensures IsMuteEnd(steps, |steps|, muteUntil)
    {
      ghost var before := steps;
      steps := steps + [Mute(until)];
      assert steps[..|before|] == before && steps[..|steps|] == steps;
      muteUntil := match muteUntil
        case Some(existing) => if existing > until then Some(existing) else Some(until)
        case None => Some(until);
      MuteEndIsLatest(steps, |steps|);
    }

    method UnmuteNow()
      requires Valid()
      modifies this
      ensures Valid() && steps == old(steps) + [Unmute] && muteUntil == None
    {
      ghost var before := steps;
      steps := steps + [Unmute];
      assert steps[..|before|] == before;
      muteUntil := None;
    }

    method IsMuted(now: int) returns (muted: bool)
      requires Valid()
      ensures muted <==> exists i :: MuteStands(steps, i, |steps|) && now < steps[i].until
    {
      assert steps[..|steps|] == steps;
      MutedByHistory(steps, |steps|, now);
      muted := muteUntil.Some? && now < muteUntil.value;
    }
  }
}
