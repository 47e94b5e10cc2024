/**
 The Governor's supervision state machine (governor/src/state.rs): probe streaks, the settle
 window after a boot or restart, the sliding-window restart limiter and the backoff ladder.

 `Machine` is the value of one machine; `Apply` is one call on it. The class at the end keeps the
 same fields and updates them in place. Statements about whole runs compare the machine with
 histories (`Admitted`, `Reference`, `Held`, `HealthyEntry`, `Streak`) computed from the inputs alone.
 */
module GovernorState {
  import opened Wrappers

  /** A monotonic clock reading, in nanoseconds. */
  type Instant = int

  const SECOND: nat := 1_000_000_000
  const GIVEUP_THRESHOLD: nat := 5
  const GIVEUP_WINDOW: nat := 300 * SECOND
  const UNREACHABLE_TO_DOWN: nat := 3
  const DEGRADED_TO_DOWN: nat := 30 * SECOND
  const SETTLE_WINDOW: nat := 60 * SECOND
  const U32_MAX: nat := 0xFFFF_FFFF
  const BACKOFF_SCHEDULE: seq<nat> := [1, 2, 4, 8, 16, 32, 60]

  datatype DaemonState = Unknown | Healthy | Degraded | Down | Restarting | StoppedManually | GiveUp {
    predicate IsOperatorHeld() { StoppedManually? || GiveUp? }
  }

  datatype StateChange = StateChange(from: DaemonState, to: DaemonState)

  datatype ProbeOutcome = ProbeOk | Unhealthy | Unreachable

  /** Elapsed time, zero when the clock reads earlier than the mark. */
  function Since(now: Instant, mark: Instant): nat {
    if now >= mark then now - mark else 0
  }

  datatype Machine = Machine(
    state: DaemonState,
    consecutiveUnreachable: nat,
    lastProbe: Option<Instant>,
    lastOkProbe: Option<Instant>,
    lastChange: Instant,
    restartAttempts: seq<Instant>,
    backoffStep: nat,
    bootAt: Instant,
    lastRestartStartedAt: Option<Instant>,
    lastHealthyAt: Option<Instant>,
    settleWindow: nat)
  {
    function SettleReference(): Instant {
      match lastRestartStartedAt
      case Some(r) => if r > bootAt then r else bootAt
      case None => bootAt
    }

    predicate InSettleWindow(now: Instant) {
      if lastHealthyAt.Some? && lastHealthyAt.value >= SettleReference() then false
      else Since(now, SettleReference()) < settleWindow
    }

    function Transition(to: DaemonState, now: Instant): Machine {
      if state == to then this
      else if to == Healthy then
        this.(state := to, lastChange := now, consecutiveUnreachable := 0, backoffStep := 0,
              lastHealthyAt := Some(now))
      else this.(state := to, lastChange := now)
    }

    /** The wait before the next attempt, in seconds. */
    function NextBackoff(): nat { if backoffStep < |BACKOFF_SCHEDULE| then BACKOFF_SCHEDULE[backoffStep] else 60 }

    predicate StaleSince(now: Instant, streak: nat) {
      match lastOkProbe
      case Some(t) => Since(now, t) > DEGRADED_TO_DOWN
      case None => streak >= UNREACHABLE_TO_DOWN
    }
  }

  function Change(before: Machine, after: Machine): Option<StateChange> {
    if before.state == after.state then None else Some(StateChange(before.state, after.state))
  }

  function Boot(now: Instant, settleWindow: nat): Machine {
    Machine(Unknown, 0, None, None, now, [], 0, now, None, None, settleWindow)
  }

  function Saturated(n: nat): nat {
    if n < U32_MAX then n else U32_MAX
  }

  function RecordProbe(m: Machine, outcome: ProbeOutcome, now: Instant): Machine {
    var p := m.(lastProbe := Some(now));
    if p.state.IsOperatorHeld() then p
    else match outcome
      case ProbeOk =>
        p.(consecutiveUnreachable := 0, lastOkProbe := Some(now)).Transition(Healthy, now)
      case Unhealthy =>
        p.(consecutiveUnreachable := 0).Transition(Degraded, now)
      case Unreachable =>
        var q := p.(consecutiveUnreachable := Saturated(p.consecutiveUnreachable + 1));
        var promote :=
          q.consecutiveUnreachable >= UNREACHABLE_TO_DOWN || q.StaleSince(now, q.consecutiveUnreachable);
        q.Transition(if promote && !q.InSettleWindow(now) then Down else Degraded, now)
  }

  /** Drops attempts from the front while they are older than the give-up window. */
  function Pruned(attempts: seq<Instant>, now: Instant): seq<Instant> {
    if attempts != [] && Since(now, attempts[0]) > GIVEUP_WINDOW then Pruned(attempts[1..], now) else attempts
  }

  function StartRestart(m: Machine, now: Instant): Machine {
    var p := m.(restartAttempts := Pruned(m.restartAttempts, now));
    if |p.restartAttempts| >= GIVEUP_THRESHOLD then p.Transition(GiveUp, now)
    else p.(restartAttempts := p.restartAttempts + [now], lastRestartStartedAt := Some(now))
          .Transition(Restarting, now)
  }

  function AdvanceBackoff(m: Machine): Machine {
    if m.backoffStep + 1 < |BACKOFF_SCHEDULE| then m.(backoffStep := m.backoffStep + 1) else m
  }

  function Reset(m: Machine, now: Instant): Machine {
    m.(restartAttempts := [], backoffStep := 0, consecutiveUnreachable := 0, bootAt := now,
       lastRestartStartedAt := None, lastHealthyAt := None).Transition(Unknown, now)
  }

  /** One call on the machine, with the clock reading it was made at. */
  datatype Action = Probe(outcome: ProbeOutcome) | Restart | Advance | Pause | OperatorReset
  datatype Input = Input(action: Action, at: Instant)

  function Apply(m: Machine, i: Input): Machine {
    match i.action
    case Probe(outcome) => RecordProbe(m, outcome, i.at)
    case Restart => StartRestart(m, i.at)
    case Advance => AdvanceBackoff(m)
    case Pause => m.Transition(StoppedManually, i.at)
    case OperatorReset => Reset(m, i.at)
  }

  function Run(m: Machine, inputs: seq<Input>): Machine {
    if inputs == [] then m else Apply(Run(m, inputs[..|inputs| - 1]), inputs[|inputs| - 1])
  }

  /** The latest clock reading of a run that booted at `t0`. */
  function Clock(t0: Instant, inputs: seq<Input>): Instant {
    if inputs == [] then t0 else inputs[|inputs| - 1].at
  }

  /** The clock never steps back, from boot to the last input. */
  predicate Monotone(t0: Instant, inputs: seq<Input>) {
    inputs != [] ==>
      && Monotone(t0, inputs[..|inputs| - 1])
      && Clock(t0, inputs[..|inputs| - 1]) <= inputs[|inputs| - 1].at
  }

  // ---------------------------------------------------------------- histories

  /** How many of the attempts lie within the give-up window ending at `now`. */
  function CountRecent(attempts: seq<Instant>, now: Instant): nat {
    if attempts == [] then 0
    else
      CountRecent(attempts[..|attempts| - 1], now)
      + if now - attempts[|attempts| - 1] <= GIVEUP_WINDOW then 1 else 0
  }

  /** One step of a restart limiter that never forgets: an attempt is admitted when fewer than five
      admitted ones lie within the window. */
  function NextAdmitted(admitted: seq<Instant>, i: Input): seq<Instant> {
    match i.action
    case OperatorReset => []
    case Restart => if CountRecent(admitted, i.at) < GIVEUP_THRESHOLD then admitted + [i.at] else admitted
    case _ => admitted
  }

  /** Every attempt that limiter admits since the last reset. */
  function Admitted(inputs: seq<Input>): seq<Instant> {
    if inputs == [] then [] else NextAdmitted(Admitted(inputs[..|inputs| - 1]), inputs[|inputs| - 1])
  }

  /** The last boot, reset or admitted restart. */
  function Reference(t0: Instant, inputs: seq<Input>): Instant {
    if inputs == [] then t0
    else
      var front, last := inputs[..|inputs| - 1], inputs[|inputs| - 1];
      match last.action
      case OperatorReset => last.at
      case Restart => if CountRecent(Admitted(front), last.at) < GIVEUP_THRESHOLD then last.at
                      else Reference(t0, front)
      case _ => Reference(t0, front)
  }

  /** Whether the operator must intervene: after a pause or a refused restart, until a reset or an admitted one. */
  predicate Held(inputs: seq<Input>) {
    inputs != [] &&
      var front, last := inputs[..|inputs| - 1], inputs[|inputs| - 1];
      match last.action
      case Pause => true
      case OperatorReset => false
      case Restart => CountRecent(Admitted(front), last.at) >= GIVEUP_THRESHOLD
      case _ => Held(front)
  }

  /** Whether the last thing heard is a good answer: probes are heeded while nothing is held. */
  predicate Well(inputs: seq<Input>) {
    inputs != [] &&
      var front, last := inputs[..|inputs| - 1], inputs[|inputs| - 1];
      match last.action
      case Probe(outcome) => !Held(front) && outcome.ProbeOk?
      case Advance => Well(front)
      case _ => false
  }

  /** When the daemon last became well after it had not been, since the last reset. */
  function HealthyEntry(inputs: seq<Input>): Option<Instant> {
    if inputs == [] then None
    else
      var front, last := inputs[..|inputs| - 1], inputs[|inputs| - 1];
      if last.action.OperatorReset? then None
      else if !Well(front) && Well(inputs) then Some(last.at)
      else HealthyEntry(front)
  }

  /** The last good answer that was heeded. */
  function LastAnswer(inputs: seq<Input>): Option<Instant> {
    if inputs == [] then None
    else
      var front, last := inputs[..|inputs| - 1], inputs[|inputs| - 1];
      if last.action == Probe(ProbeOk) && !Held(front) then Some(last.at) else LastAnswer(front)
  }

  /** Unreachable probes heeded since the last heeded answer or reset. */
  function Streak(inputs: seq<Input>): nat {
    if inputs == [] then 0
    else
      var front, last := inputs[..|inputs| - 1], inputs[|inputs| - 1];
      match last.action
      case OperatorReset => 0
      case Probe(outcome) =>
        if Held(front) then Streak(front) else if outcome.Unreachable? then Streak(front) + 1 else 0
      case _ => Streak(front)
  }

  /** Reasons to call the daemon down: three unreachable probes in a row or 30 s without a good answer, once the
      settle window is over. */
  predicate Outage(t0: Instant, settleWindow: nat, front: seq<Input>, at: Instant) {
    var healthy, ok := HealthyEntry(front), LastAnswer(front);
    && (Streak(front) + 1 >= UNREACHABLE_TO_DOWN || (ok.Some? && at - ok.value > DEGRADED_TO_DOWN))
    && ((healthy.Some? && healthy.value >= Reference(t0, front)) || at - Reference(t0, front) >= settleWindow)
  }

  /** The state by the last input that decides one. */
  function Verdict(t0: Instant, settleWindow: nat, inputs: seq<Input>): DaemonState {
    if inputs == [] then Unknown
    else
      var front, last := inputs[..|inputs| - 1], inputs[|inputs| - 1];
      match last.action
      case Pause => StoppedManually
      case OperatorReset => Unknown
      case Restart => if CountRecent(Admitted(front), last.at) >= GIVEUP_THRESHOLD then GiveUp else Restarting
      case Advance => Verdict(t0, settleWindow, front)
      case Probe(outcome) =>
        if Held(front) then Verdict(t0, settleWindow, front)
        else match outcome
          case ProbeOk => Healthy
          case Unhealthy => Degraded
          case Unreachable => if Outage(t0, settleWindow, front, last.at) then Down else Degraded
  }

  /** When the verdict last changed. */
  function LastTurn(t0: Instant, settleWindow: nat, inputs: seq<Input>): Instant {
    if inputs == [] then t0
    else
      var front := inputs[..|inputs| - 1];
      if Verdict(t0, settleWindow, inputs) != Verdict(t0, settleWindow, front) then inputs[|inputs| - 1].at
      else LastTurn(t0, settleWindow, front)
  }

  function LastHeard(inputs: seq<Input>): Option<Instant> {
    if inputs == [] then None
    else if inputs[|inputs| - 1].action.Probe? then Some(inputs[|inputs| - 1].at)
    else LastHeard(inputs[..|inputs| - 1])
  }

  /** Restart attempts that came to nothing since the daemon last became well or was reset. */
  function Failures(inputs: seq<Input>): nat {
    if inputs == [] then 0
    else
      var front, last := inputs[..|inputs| - 1], inputs[|inputs| - 1];
      if last.action.OperatorReset? || (!Well(front) && Well(inputs)) then 0
      else Failures(front) + (if last.action.Advance? then 1 else 0)
  }

  // ---------------------------------------------------------------- restart limiter

  predicate Sorted(ts: seq<Instant>) {
    forall i, j :: 0 <= i <= j < |ts| ==> ts[i] <= ts[j]
  }

  /** `kept` is what remains of `all` after dropping, from the front, times out of the window at `now`. */
  predicate RecentSuffix(kept: seq<Instant>, all: seq<Instant>, now: Instant) {
    && |kept| <= |all|
    && kept == all[|all| - |kept|..]
    && forall i :: 0 <= i < |all| - |kept| ==> now - all[i] > GIVEUP_WINDOW
  }

  /** The deque of a machine whose clock reads `now` against the full history of admitted attempts. */
  predicate Tracks(kept: seq<Instant>, all: seq<Instant>, now: Instant) {
    && Sorted(all)
    && (all != [] ==> all[|all| - 1] <= now)
    && RecentSuffix(kept, all, now)
    && |kept| <= GIVEUP_THRESHOLD
  }

  lemma {:induction false} PrunedIsRecentSuffix(kept: seq<Instant>, all: seq<Instant>, then_: Instant, now: Instant)
    requires RecentSuffix(kept, all, then_) && then_ <= now
    ensures RecentSuffix(Pruned(kept, now), all, now)
    ensures Pruned(kept, now) != [] ==> Since(now, Pruned(kept, now)[0]) <= GIVEUP_WINDOW
    decreases |kept|
  {
    if kept != [] && Since(now, kept[0]) > GIVEUP_WINDOW {
      PrunedIsRecentSuffix(kept[1..], all, now, now);
    }
  }

  /** In a sorted history nobody in the past half counts unless everything later counts too. */
  lemma {:induction false} CountRecentIsSuffixLength(all: seq<Instant>, cut: nat, now: Instant)
    requires Sorted(all) && cut <= |all|
    requires forall i :: 0 <= i < cut ==> now - all[i] > GIVEUP_WINDOW
    requires forall i :: cut <= i < |all| ==> now - all[i] <= GIVEUP_WINDOW
    ensures CountRecent(all, now) == |all| - cut
  {
    if all != [] {
      var front := all[..|all| - 1];
      CountRecentIsSuffixLength(front, if cut < |all| then cut else |front|, now);
    }
  }

  /** The deque, once pruned, holds exactly the recent part of the full history. */
  lemma {:induction false} PrunedCountsHistory(kept: seq<Instant>, all: seq<Instant>, then_: Instant, now: Instant)
    requires Tracks(kept, all, then_) && then_ <= now
    ensures Tracks(Pruned(kept, now), all, now)
    ensures |Pruned(kept, now)| == CountRecent(all, now)
  {
    PrunedIsRecentSuffix(kept, all, then_, now);
    var p := Pruned(kept, now);
    var cut := |all| - |p|;
    forall i | cut <= i < |all| ensures now - all[i] <= GIVEUP_WINDOW {
      assert all[i] == p[i - cut] && p[0] == all[cut];
    }
    CountRecentIsSuffixLength(all, cut, now);
    PrunedNoLonger(kept, now);
  }

  lemma {:induction false} PrunedNoLonger(attempts: seq<Instant>, now: Instant)
    ensures |Pruned(attempts, now)| <= |attempts|
    decreases |attempts|
  {
    if attempts != [] && Since(now, attempts[0]) > GIVEUP_WINDOW {
      PrunedNoLonger(attempts[1..], now);
    }
  }

  lemma {:induction false} PushTracks(kept: seq<Instant>, all: seq<Instant>, now: Instant)
    requires Tracks(kept, all, now) && |kept| < GIVEUP_THRESHOLD
    ensures Tracks(kept + [now], all + [now], now)
  {
    var k, a := kept + [now], all + [now];
    assert a[|a| - |k|..] == all[|all| - |kept|..] + [now];
  }

  lemma {:induction false} LaterTracks(kept: seq<Instant>, all: seq<Instant>, then_: Instant, now: Instant)
    requires Tracks(kept, all, then_) && then_ <= now
    ensures Tracks(kept, all, now)
  {
  }

  /** What one call does to the attempts. */
  function NextAttempts(attempts: seq<Instant>, i: Input): seq<Instant> {
    match i.action
    case OperatorReset => []
    case Restart =>
      var p := Pruned(attempts, i.at);
      if |p| >= GIVEUP_THRESHOLD then p else p + [i.at]
    case _ => attempts
  }

  lemma {:induction false} ApplyAttempts(m: Machine, i: Input)
    ensures Apply(m, i).restartAttempts == NextAttempts(m.restartAttempts, i)
    ensures i.action.Restart? ==>
      var full := |Pruned(m.restartAttempts, i.at)| >= GIVEUP_THRESHOLD;
      && Apply(m, i).lastRestartStartedAt == (if full then m.lastRestartStartedAt else Some(i.at))
      && Apply(m, i).state == (if full then GiveUp else Restarting)
  {
  }

  lemma {:induction false} RestartTracks(kept: seq<Instant>, all: seq<Instant>, then_: Instant, now: Instant)
    requires Tracks(kept, all, then_) && then_ <= now
    ensures var i := Input(Restart, now);
      Tracks(NextAttempts(kept, i), NextAdmitted(all, i), now)
  {
    PrunedCountsHistory(kept, all, then_, now);
    if |Pruned(kept, now)| < GIVEUP_THRESHOLD {
      PushTracks(Pruned(kept, now), all, now);
    }
  }

  lemma {:induction false} NextAttemptsTracks(kept: seq<Instant>, all: seq<Instant>, then_: Instant, i: Input)
    requires Tracks(kept, all, then_) && then_ <= i.at
    ensures Tracks(NextAttempts(kept, i), NextAdmitted(all, i), i.at)
  {
    if i.action.Restart? {
      RestartTracks(kept, all, then_, i.at);
    } else if !i.action.OperatorReset? {
      LaterTracks(kept, all, then_, i.at);
    }
  }

  /** Over every run: the deque is a recent, sorted suffix of at most five of the admitted attempts. */
  lemma {:induction false} AttemptsTrackHistory(t0: Instant, settleWindow: nat, inputs: seq<Input>)
    requires Monotone(t0, inputs)
    ensures Tracks(Run(Boot(t0, settleWindow), inputs).restartAttempts, Admitted(inputs), Clock(t0, inputs))
  {
    if inputs != [] {
      var front, last := inputs[..|inputs| - 1], inputs[|inputs| - 1];
      AttemptsTrackHistory(t0, settleWindow, front);
      var m := Run(Boot(t0, settleWindow), front);
      ApplyAttempts(m, last);
      NextAttemptsTracks(m.restartAttempts, Admitted(front), Clock(t0, front), last);
    }
  }

  lemma {:induction false} StartRestartStep(m: Machine, all: seq<Instant>, then_: Instant, now: Instant)
    requires Tracks(m.restartAttempts, all, then_) && then_ <= now
    ensures var after := StartRestart(m, now);
      var full := CountRecent(all, now) >= GIVEUP_THRESHOLD;
      && after.state == (if full then GiveUp else Restarting)
      && (!full ==> after.lastRestartStartedAt == Some(now)
                    && |after.restartAttempts| == CountRecent(all, now) + 1)
      && (full ==> after.lastRestartStartedAt == m.lastRestartStartedAt
                   && |after.restartAttempts| == CountRecent(all, now))
  {
    PrunedCountsHistory(m.restartAttempts, all, then_, now);
  }

  /** A restart request ends in GiveUp exactly when five admitted attempts lie within the last 300 s,
      and then nothing is recorded; the change is reported unless the machine was there already. */
  lemma {:induction false} GiveUpExactlyAtThreshold(t0: Instant, settleWindow: nat, inputs: seq<Input>, now: Instant)
    requires Monotone(t0, inputs) && Clock(t0, inputs) <= now
    ensures var m := Run(Boot(t0, settleWindow), inputs);
      var after := StartRestart(m, now);
      var recent := CountRecent(Admitted(inputs), now);
      && (after.state.GiveUp? <==> recent >= GIVEUP_THRESHOLD)
      && (after.state.Restarting? <==> recent < GIVEUP_THRESHOLD)
      && |after.restartAttempts| == (if recent < GIVEUP_THRESHOLD then recent + 1 else recent)
      && after.lastRestartStartedAt == (if recent < GIVEUP_THRESHOLD then Some(now) else m.lastRestartStartedAt)
      && (Change(m, after) == Some(StateChange(m.state, GiveUp))
          <==> recent >= GIVEUP_THRESHOLD && !m.state.GiveUp?)
  {
    AttemptsTrackHistory(t0, settleWindow, inputs);
    var m := Run(Boot(t0, settleWindow), inputs);
    StartRestartStep(m, Admitted(inputs), Clock(t0, inputs), now);
  }

  lemma {:induction false} RecentTailCounts(all: seq<Instant>, k: nat, now: Instant)
    requires Sorted(all) && 0 < k <= |all| && now - all[|all| - k] <= GIVEUP_WINDOW
    ensures CountRecent(all, now) >= k
  {
    if k > 1 {
      RecentTailCounts(all[..|all| - 1], k - 1, now);
    }
  }

  /** Between resets, any six consecutive admitted restarts span more than 300 s. */
  lemma {:induction false} AdmittedRestartsAreSpaced(t0: Instant, settleWindow: nat, inputs: seq<Input>, i: nat)
    requires Monotone(t0, inputs)
    requires i + GIVEUP_THRESHOLD < |Admitted(inputs)|
    ensures Admitted(inputs)[i + GIVEUP_THRESHOLD] - Admitted(inputs)[i] > GIVEUP_WINDOW
  {
    var front, last := inputs[..|inputs| - 1], inputs[|inputs| - 1];
    var adm := Admitted(front);
    if i + GIVEUP_THRESHOLD < |adm| {
      AdmittedRestartsAreSpaced(t0, settleWindow, front, i);
    } else {
      AttemptsTrackHistory(t0, settleWindow, front);
      if last.at - adm[i] <= GIVEUP_WINDOW {
        RecentTailCounts(adm, GIVEUP_THRESHOLD, last.at);
      }
    }
  }

  // ---------------------------------------------------------------- settle window

  /** What one call does to the marks the settle window and the streak are read from. */
  lemma {:induction false} ApplyMarks(m: Machine, i: Input)
    ensures var r := Apply(m, i);
      && r.settleWindow == m.settleWindow
      && r.bootAt == (if i.action.OperatorReset? then i.at else m.bootAt)
      && r.lastHealthyAt == (if i.action.OperatorReset? then None
                             else if !m.state.Healthy? && r.state.Healthy? then Some(i.at)
                             else m.lastHealthyAt)
      && r.consecutiveUnreachable == (
          match i.action
          case OperatorReset => 0
          case Probe(outcome) =>
            if m.state.IsOperatorHeld() then m.consecutiveUnreachable
            else if outcome.Unreachable? then Saturated(m.consecutiveUnreachable + 1) else 0
          case _ => m.consecutiveUnreachable)
      && r.lastOkProbe == (if i.action == Probe(ProbeOk) && !m.state.IsOperatorHeld() then Some(i.at) else m.lastOkProbe)
      && (i.action.OperatorReset? ==> r.lastRestartStartedAt.None?)
      && (!i.action.OperatorReset? && !i.action.Restart? ==> r.lastRestartStartedAt == m.lastRestartStartedAt)
  {
  }

  /** What an unreachable probe does to a machine the operator is not holding. */
  lemma {:induction false} UnreachableStep(m: Machine, now: Instant)
    requires !m.state.IsOperatorHeld()
    ensures var r := RecordProbe(m, Unreachable, now);
      && r.consecutiveUnreachable == Saturated(m.consecutiveUnreachable + 1)
      && r.state == (if (r.consecutiveUnreachable >= UNREACHABLE_TO_DOWN || m.StaleSince(now, r.consecutiveUnreachable))
                        && !m.InSettleWindow(now) then Down else Degraded)
      && r.lastHealthyAt == m.lastHealthyAt && r.lastRestartStartedAt == m.lastRestartStartedAt
      && r.bootAt == m.bootAt && r.settleWindow == m.settleWindow
  {
  }

  /** What a restart request does to the state, by the full history of admitted attempts. */
  lemma {:induction false} ApplyRestart(m: Machine, all: seq<Instant>, then_: Instant, i: Input)
    requires Tracks(m.restartAttempts, all, then_) && then_ <= i.at && i.action.Restart?
    ensures var r, full := Apply(m, i), CountRecent(all, i.at) >= GIVEUP_THRESHOLD;
      && r.state == (if full then GiveUp else Restarting)
      && r.lastRestartStartedAt == (if full then m.lastRestartStartedAt else Some(i.at))
  {
    StartRestartStep(m, all, then_, i.at);
  }

  /** What one call other than a restart does to the state. */
  lemma {:induction false} ApplyState(m: Machine, i: Input)
    requires !i.action.Restart?
    ensures var r := Apply(m, i).state;
      && (r.IsOperatorHeld() <==> i.action.Pause? || (!i.action.OperatorReset? && m.state.IsOperatorHeld()))
      && (r.Healthy? <==> match i.action
            case Probe(outcome) => !m.state.IsOperatorHeld() && outcome.ProbeOk?
            case Advance => m.state.Healthy?
            case _ => false)
  {
  }

  /** Over every run the machine's marks are the history's, which is computed from the inputs alone. */
  lemma {:induction false} MarksTrackHistory(t0: Instant, settleWindow: nat, inputs: seq<Input>)
    requires Monotone(t0, inputs)
    ensures var m0 := Boot(t0, settleWindow);
      var m := Run(m0, inputs);
      && m.SettleReference() == Reference(t0, inputs) <= Clock(t0, inputs)
      && m.bootAt <= Clock(t0, inputs)
      && (m.state.IsOperatorHeld() <==> Held(inputs)) && (m.state.Healthy? <==> Well(inputs))
      && m.lastHealthyAt == HealthyEntry(inputs) && m.lastOkProbe == LastAnswer(inputs)
      && m.consecutiveUnreachable == (if Streak(inputs) <= 0xFFFF_FFFF then Streak(inputs) else 0xFFFF_FFFF)
      && m.settleWindow == settleWindow
  {
    if inputs != [] {
      var front, last := inputs[..|inputs| - 1], inputs[|inputs| - 1];
      var m := Run(Boot(t0, settleWindow), front);
      MarksTrackHistory(t0, settleWindow, front);
      AttemptsTrackHistory(t0, settleWindow, front);
      ApplyMarks(m, last);
      hide Apply, Tracks, Admitted, CountRecent;
      if last.action.Restart? {
        ApplyRestart(m, Admitted(front), Clock(t0, front), last);
      } else {
        ApplyState(m, last);
      }
    }
  }

  /** By the history of the inputs, a machine that is not Down enters Down exactly on an unreachable probe while
      nothing is held, after three in a row or 30 s without an answer, with the settle window left, either because
      the daemon has been Healthy since the last boot, reset or restart, or because the whole window has elapsed
      since then. */
  lemma {:induction false} DownEnteredExactlyWhen(t0: Instant, settleWindow: nat, inputs: seq<Input>, last: Input)
    requires Monotone(t0, inputs + [last])
    requires !Run(Boot(t0, settleWindow), inputs).state.Down?
    ensures Run(Boot(t0, settleWindow), inputs + [last]).state.Down? <==>
      last.action == Probe(Unreachable) && !Held(inputs) && Outage(t0, settleWindow, inputs, last.at)
  {
    assert (inputs + [last])[..|inputs|] == inputs;
    MarksTrackHistory(t0, settleWindow, inputs);
    var m := Run(Boot(t0, settleWindow), inputs);
    ApplyMarks(m, last);
    match last.action
    case Restart => ApplyAttempts(m, last);
    case Probe(Unreachable) =>
      if !m.state.IsOperatorHeld() {
        UnreachableStep(m, last.at);
      }
    case _ =>
  }

  /** Inputs that neither restart nor reset. */
  predicate Passive(inputs: seq<Input>) {
    forall i <- inputs :: !i.action.Restart? && !i.action.OperatorReset?
  }

  /** Once left, the settle window stays left until the next restart or reset. */
  lemma {:induction false} LeavingSettleWindowIsPermanent(m: Machine, now: Instant, inputs: seq<Input>)
    requires !m.InSettleWindow(now) && Passive(inputs) && Monotone(now, inputs)
    requires m.lastHealthyAt.Some? ==> m.lastHealthyAt.value <= now
    ensures var r := Run(m, inputs);
      && !r.InSettleWindow(Clock(now, inputs))
      && now <= Clock(now, inputs)
      && r.SettleReference() == m.SettleReference()
      && (r.lastHealthyAt.Some? ==> r.lastHealthyAt.value <= Clock(now, inputs))
      && (m.lastHealthyAt.Some? ==> r.lastHealthyAt.Some? && m.lastHealthyAt.value <= r.lastHealthyAt.value)
      && r.settleWindow == m.settleWindow
  {
    if inputs != [] {
      var front, last := inputs[..|inputs| - 1], inputs[|inputs| - 1];
      LeavingSettleWindowIsPermanent(m, now, front);
      ApplyMarks(Run(m, front), last);
    }
  }

  /** Three unreachable probes in a row, the last outside the settle window, always end in Down. */
  lemma {:induction false} ThreeUnreachableEndInDown(m: Machine, a: Instant, b: Instant, c: Instant)
    requires !m.state.IsOperatorHeld() && !m.InSettleWindow(c)
    ensures var probes := [Input(Probe(Unreachable), a), Input(Probe(Unreachable), b), Input(Probe(Unreachable), c)];
      var r := Run(m, probes);
      r.state.Down? && r.consecutiveUnreachable >= UNREACHABLE_TO_DOWN && !r.InSettleWindow(c)
      && r.lastHealthyAt == m.lastHealthyAt
  {
    var p, q, r := Input(Probe(Unreachable), a), Input(Probe(Unreachable), b), Input(Probe(Unreachable), c);
    assert [p, q, r][..2] == [p, q] && [p, q][..1] == [p] && [p][..0] == [];
    var m1 := RecordProbe(m, Unreachable, a);
    var m2 := RecordProbe(m1, Unreachable, b);
    assert Run(m, [p]) == m1 by { assert Run(m, []) == m; }
    assert Run(m, [p, q]) == m2;
    UnreachableStep(m, a);
    UnreachableStep(m1, b);
    UnreachableStep(m2, c);
  }

  /** An answer ends an outage and its streak: a good one makes the daemon Healthy, leaves the settle window
      and resets the ladder, and two unreachable probes within 30 s of it are not enough for Down. */
  lemma {:induction false} AnswerEndsOutage(m: Machine, outcome: ProbeOutcome, now: Instant, b: Instant, c: Instant)
    requires !m.state.IsOperatorHeld() && !outcome.Unreachable?
    requires m.SettleReference() <= now <= b <= c <= now + DEGRADED_TO_DOWN
    ensures var answered := RecordProbe(m, outcome, now);
      && answered.state == (if outcome.ProbeOk? then Healthy else Degraded)
      && answered.consecutiveUnreachable == 0
      && (outcome.ProbeOk? ==> answered.lastOkProbe == Some(now))
      && (outcome.ProbeOk? && !m.state.Healthy? ==> !answered.InSettleWindow(c) && answered.backoffStep == 0)
    ensures var answered := RecordProbe(m, outcome, now);
      outcome.ProbeOk? ==>
        && RecordProbe(answered, Unreachable, b).state.Degraded?
        && RecordProbe(RecordProbe(answered, Unreachable, b), Unreachable, c).state.Degraded?
  {
  }

  /** Down for good reason at `now`: outside the settle window, and by one of the two routes. */
  predicate StandsDown(m: Machine, now: Instant) {
    && m.state.Down? && !m.InSettleWindow(now)
    && (m.consecutiveUnreachable >= UNREACHABLE_TO_DOWN || m.StaleSince(now, m.consecutiveUnreachable))
  }

  lemma {:induction false} DownStandsLonger(m: Machine, now: Instant, later: Instant)
    requires StandsDown(m, now) && now <= later
    ensures StandsDown(m, later)
  {
  }

  lemma {:induction false} StepStandsDown(m: Machine, i: Input)
    requires Apply(m, i).state.Down? && (m.state.Down? ==> StandsDown(m, i.at))
    ensures StandsDown(Apply(m, i), i.at)
  {
  }

  lemma {:induction false} ReachableDownStands(t0: Instant, settleWindow: nat, inputs: seq<Input>, at: Instant)
    requires Monotone(t0, inputs) && Clock(t0, inputs) <= at && Run(Boot(t0, settleWindow), inputs).state.Down?
    ensures StandsDown(Run(Boot(t0, settleWindow), inputs), at)
  {
    hide Apply, StandsDown;
    if inputs != [] {
      var front, last := inputs[..|inputs| - 1], inputs[|inputs| - 1];
      var m := Run(Boot(t0, settleWindow), front);
      if m.state.Down? { ReachableDownStands(t0, settleWindow, front, last.at); }
      StepStandsDown(m, last);
      DownStandsLonger(Apply(m, last), last.at, at);
    }
  }

  lemma {:induction false} ProbeKeepsDown(m: Machine, now: Instant)
    requires StandsDown(m, now)
    ensures RecordProbe(m, Unreachable, now).state.Down?
  {
    UnreachableStep(m, now);
  }

  /** From every Down a run can reach, by either route, unreachable probes keep the machine down. */
  lemma {:induction false} UnreachableKeepsDown(t0: Instant, settleWindow: nat, inputs: seq<Input>, probes: seq<Input>)
    requires Monotone(t0, inputs + probes) && Run(Boot(t0, settleWindow), inputs).state.Down?
    requires forall p <- probes :: p.action == Probe(Unreachable)
    ensures Run(Boot(t0, settleWindow), inputs + probes).state.Down?
  {
    if probes == [] {
      assert inputs + probes == inputs;
    } else {
      var front, last := probes[..|probes| - 1], probes[|probes| - 1];
      assert (inputs + probes)[..|inputs + probes| - 1] == inputs + front;
      UnreachableKeepsDown(t0, settleWindow, inputs, front);
      ReachableDownStands(t0, settleWindow, inputs + front, last.at);
      ProbeKeepsDown(Run(Boot(t0, settleWindow), inputs + front), last.at);
    }
  }

  /** Probes and backoff steps never leave an operator-held state, nor count towards a streak. */
  lemma {:induction false} ProbesNeverClearOperatorHold(m: Machine, inputs: seq<Input>)
    requires m.state.IsOperatorHeld()
    requires forall i <- inputs :: i.action.Probe? || i.action.Advance?
    ensures var r := Run(m, inputs);
      r.state == m.state && r.consecutiveUnreachable == m.consecutiveUnreachable
      && r.restartAttempts == m.restartAttempts && r.lastOkProbe == m.lastOkProbe
  {
    if inputs != [] {
      ProbesNeverClearOperatorHold(m, inputs[..|inputs| - 1]);
    }
  }

  /** What one call does to the marks nothing else is read from. */
  lemma {:induction false} ApplyOtherMarks(m: Machine, i: Input)
    ensures var r := Apply(m, i);
      && r.lastProbe == (if i.action.Probe? then Some(i.at) else m.lastProbe)
      && r.lastChange == (if r.state != m.state then i.at else m.lastChange)
      && r.backoffStep == (
          if i.action.OperatorReset? || (!m.state.Healthy? && r.state.Healthy?) then 0
          else if i.action.Advance? && m.backoffStep + 1 < |BACKOFF_SCHEDULE| then m.backoffStep + 1
          else m.backoffStep)
  {
  }

  lemma {:induction false} ApplyVerdict(m: Machine, i: Input)
    requires !i.action.Restart? && !(i.action == Probe(Unreachable))
    ensures var r := Apply(m, i).state;
      r == match i.action
        case Pause => StoppedManually
        case OperatorReset => Unknown
        case Advance => m.state
        case Probe(outcome) =>
          if m.state.IsOperatorHeld() then m.state else if outcome.ProbeOk? then Healthy else Degraded
        case _ => r
  {
  }

  lemma {:induction false} ApplyUnreachable(m: Machine, now: Instant)
    ensures var r := Apply(m, Input(Probe(Unreachable), now));
      if m.state.IsOperatorHeld() then r.state == m.state
      else r.state.Degraded? || r.state.Down?
  {
  }

  /** The rest of the machine by the history: its state is the verdict of the inputs, and it knows when that last
      changed, when it was last probed and how many failed attempts to wait for. */
  lemma {:induction false} StateIsVerdict(t0: Instant, settleWindow: nat, inputs: seq<Input>)
    requires Monotone(t0, inputs)
    ensures var m := Run(Boot(t0, settleWindow), inputs);
      && m.state == Verdict(t0, settleWindow, inputs)
      && m.lastChange == LastTurn(t0, settleWindow, inputs)
      && m.lastProbe == LastHeard(inputs)
      && m.backoffStep == (if Failures(inputs) < |BACKOFF_SCHEDULE| then Failures(inputs) else |BACKOFF_SCHEDULE| - 1)
  {
    if inputs != [] {
      var front, last := inputs[..|inputs| - 1], inputs[|inputs| - 1];
      var m := Run(Boot(t0, settleWindow), front);
      StateIsVerdict(t0, settleWindow, front);
      MarksTrackHistory(t0, settleWindow, front);
      MarksTrackHistory(t0, settleWindow, inputs);
      ApplyOtherMarks(m, last);
      NextVerdict(t0, settleWindow, front, last);
      hide Apply, Verdict, Held;
    }
  }

  lemma {:induction false} NextVerdict(t0: Instant, settleWindow: nat, front: seq<Input>, last: Input)
    requires Monotone(t0, front + [last]) && Run(Boot(t0, settleWindow), front).state == Verdict(t0, settleWindow, front)
    ensures Apply(Run(Boot(t0, settleWindow), front), last).state == Verdict(t0, settleWindow, front + [last])
  {
    var m := Run(Boot(t0, settleWindow), front);
    assert (front + [last])[..|front|] == front;
    MarksTrackHistory(t0, settleWindow, front);
    hide Apply, Outage;
    if last.action.Restart? {
      AttemptsTrackHistory(t0, settleWindow, front);
      ApplyRestart(m, Admitted(front), Clock(t0, front), last);
    } else if last.action == Probe(Unreachable) {
      ApplyUnreachable(m, last.at);
      if !m.state.IsOperatorHeld() { UnreachableVerdict(t0, settleWindow, front, last.at); }
    } else {
      ApplyVerdict(m, last);
    }
  }

  lemma {:induction false} UnreachableVerdict(t0: Instant, settleWindow: nat, front: seq<Input>, at: Instant)
    requires Monotone(t0, front) && Clock(t0, front) <= at && !Run(Boot(t0, settleWindow), front).state.IsOperatorHeld()
    ensures Apply(Run(Boot(t0, settleWindow), front), Input(Probe(Unreachable), at)).state.Down?
      <==> Outage(t0, settleWindow, front, at)
  {
    MarksTrackHistory(t0, settleWindow, front);
    UnreachableStep(Run(Boot(t0, settleWindow), front), at);
  }

  function Doubled(n: nat): nat { if n == 0 then 1 else 2 * Doubled(n - 1) }

  /** Whatever else comes between, restarts and bad probes included, the wait before the next attempt is a second,
      doubled with every failed attempt since the daemon was last well or reset, and never more than a minute. */
  lemma {:induction false} BackoffClimbsTheLadder(t0: Instant, settleWindow: nat, inputs: seq<Input>)
    requires Monotone(t0, inputs)
    ensures Run(Boot(t0, settleWindow), inputs).NextBackoff() ==
      if Doubled(Failures(inputs)) <= 60 then Doubled(Failures(inputs)) else 60
  {
    StateIsVerdict(t0, settleWindow, inputs);
    var n := Failures(inputs);
    hide Run, Boot, Failures;
    assert Doubled(2) == 4 && Doubled(4) == 16 && Doubled(6) == 64;
    if n > 6 { DoubledGrows(6, n); }
  }

  lemma {:induction false} DoubledGrows(a: nat, b: nat)
    requires a <= b
    ensures Doubled(a) <= Doubled(b)
  {
    if a < b { DoubledGrows(a, b - 1); }
  }

  // ---------------------------------------------------------------- the machine itself

  class StateMachine {
    var state: DaemonState
    var consecutiveUnreachable: nat
    var lastProbe: Option<Instant>
    var lastOkProbe: Option<Instant>
    var lastChange: Instant
    var restartAttempts: seq<Instant>
    var backoffStep: nat
    var bootAt: Instant
    var lastRestartStartedAt: Option<Instant>
    var lastHealthyAt: Option<Instant>
    var settleWindow: nat

    ghost function Value(): Machine
      reads this
    {
      Machine(state, consecutiveUnreachable, lastProbe, lastOkProbe, lastChange, restartAttempts, backoffStep,
              bootAt, lastRestartStartedAt, lastHealthyAt, settleWindow)
    }

    constructor (now: Instant)
      ensures Value() == Boot(now, SETTLE_WINDOW)
    {
      state, consecutiveUnreachable, lastProbe, lastOkProbe := Unknown, 0, None, None;
      lastChange, restartAttempts, backoffStep := now, [], 0;
      bootAt, lastRestartStartedAt, lastHealthyAt := now, None, None;
      settleWindow := SETTLE_WINDOW;
    }

    method InSettleWindow(now: Instant) returns (inside: bool)
      ensures inside == Value().InSettleWindow(now)
    {
      var reference := bootAt;
      if lastRestartStartedAt.Some? && lastRestartStartedAt.value > bootAt {
        reference := lastRestartStartedAt.value;
      }
      if lastHealthyAt.Some? && lastHealthyAt.value >= reference {
        return false;
      }
      inside := Since(now, reference) < settleWindow;
    }

    method Transition(to: DaemonState, now: Instant) returns (change: Option<StateChange>)
      modifies this
      ensures Value() == old(Value()).Transition(to, now)
      ensures change == Change(old(Value()), Value())
    {
      if state == to {
        return None;
      }
      change := Some(StateChange(state, to));
      state := to;
      lastChange := now;
      if to == Healthy {
        consecutiveUnreachable := 0;
        backoffStep := 0;
        lastHealthyAt := Some(now);
      }
    }

    method RecordProbe(outcome: ProbeOutcome, now: Instant) returns (change: Option<StateChange>)
      modifies this
      ensures Value() == Apply(old(Value()), Input(Probe(outcome), now))
      ensures change == Change(old(Value()), Value())
    {
      lastProbe := Some(now);
      if state.IsOperatorHeld() {
        return None;
      }
      match outcome
      case ProbeOk =>
        consecutiveUnreachable := 0;
        lastOkProbe := Some(now);
        change := Transition(Healthy, now);
      case Unhealthy =>
        consecutiveUnreachable := 0;
        change := Transition(Degraded, now);
      case Unreachable =>
        if consecutiveUnreachable < U32_MAX {
          consecutiveUnreachable := consecutiveUnreachable + 1;
        } else {
          consecutiveUnreachable := U32_MAX;
        }
        var stale := consecutiveUnreachable >= UNREACHABLE_TO_DOWN;
        if lastOkProbe.Some? {
          stale := Since(now, lastOkProbe.value) > DEGRADED_TO_DOWN;
        }
        var settling := InSettleWindow(now);
        if (consecutiveUnreachable >= UNREACHABLE_TO_DOWN || stale) && !settling {
          change := Transition(Down, now);
        } else {
          change := Transition(Degraded, now);
        }
    }

    method PruneAttempts(now: Instant)
      modifies this`restartAttempts
      ensures restartAttempts == Pruned(old(restartAttempts), now)
    {
      while restartAttempts != [] && Since(now, restartAttempts[0]) > GIVEUP_WINDOW
        invariant Pruned(restartAttempts, now) == Pruned(old(restartAttempts), now)
        decreases |restartAttempts|
      {
        restartAttempts := restartAttempts[1..];
      }
    }

    method StartRestart(now: Instant) returns (change: Option<StateChange>)
      modifies this
      ensures Value() == Apply(old(Value()), Input(Restart, now))
      ensures change == Change(old(Value()), Value())
    {
      PruneAttempts(now);
      if |restartAttempts| >= GIVEUP_THRESHOLD {
        change := Transition(GiveUp, now);
        return;
      }
      restartAttempts := restartAttempts + [now];
      lastRestartStartedAt := Some(now);
      change := Transition(Restarting, now);
    }

    method AdvanceBackoff()
      modifies this
      ensures forall now: Instant :: Value() == Apply(old(Value()), Input(Advance, now))
    {
      if backoffStep + 1 < |BACKOFF_SCHEDULE| {
        backoffStep := backoffStep + 1;
      }
    }

    method NextBackoff() returns (seconds: nat)
      ensures seconds == Value().NextBackoff()
    {
      seconds := 60;
      if backoffStep < |BACKOFF_SCHEDULE| {
        seconds := BACKOFF_SCHEDULE[backoffStep];
      }
    }

    method PauseByOperator(now: Instant) returns (change: Option<StateChange>)
      modifies this
      ensures Value() == Apply(old(Value()), Input(Pause, now))
      ensures change == Change(old(Value()), Value())
    {
      change := Transition(StoppedManually, now);
    }

    method Reset(now: Instant) returns (change: Option<StateChange>)
      modifies this
      ensures Value() == Apply(old(Value()), Input(OperatorReset, now))
      ensures change == Change(old(Value()), Value())
    {
      restartAttempts := [];
      backoffStep := 0;
      consecutiveUnreachable := 0;
      bootAt := now;
      lastRestartStartedAt := None;
      lastHealthyAt := None;
      change := Transition(Unknown, now);
    }
  }
}
