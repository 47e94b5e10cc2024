/**
 The `/mcp` session lifecycle (src/transports.ts) against the broker's subscriber table
 (src/broker.ts): initialising POST, adoption of a transport id by the SDK, the handler finishing or
 throwing, DELETE, `onclose`, the 30 s sweep it arms, the janitor, and fanout dropping a subscriber.
 Any step can come at any moment its code can run; a step is the code between two `await`s.

 A session is named by its broker id, which `createSwitchServer` draws fresh; it is also known by the
 transport id once the SDK has adopted one.
 */
module McpSessions {
  import opened Wrappers

  type BrokerId = string
  type TransportId = string
  type CallId = string

  /** Where the handler of the initialising POST stands. */
  datatype Phase = Connecting | ConnectThrew | Serving | Finished

  /** One session object. `armed` holds the transport ids its close handler saw and armed a sweep for; the
      last five fields follow its tool calls. */
  datatype Session = Session(
    phase: Phase,
    transport: Option<TransportId>,
    keepalive: bool,
    closed: bool,
    armed: set<TransportId>,
    inFlight: set<CallId>,
    started: set<CallId>,
    delivered: set<CallId>,
    abandoned: set<CallId>,
    abandonedCount: nat)

  const NEW_SESSION: Session := Session(Connecting, None, false, false, {}, {}, {}, {}, {}, 0)

  datatype State = State(
    subscribers: set<BrokerId>,
    stdio: set<BrokerId>,
    sessions: map<BrokerId, Session>,
    listed: map<TransportId, BrokerId>)   // the `sseSessions` map

  datatype Step =
    | StartStdio(b: BrokerId)
    | InitPost(b: BrokerId)
    | Connected(b: BrokerId)
    | ConnectThrows(b: BrokerId)
    | Adopt(b: BrokerId, t: TransportId)
    | CallArrives(b: BrokerId, c: CallId)
    | ResponseSent(b: BrokerId, c: CallId)
    | HandlerReturns(b: BrokerId)
    | HandlerThrows(b: BrokerId)
    | OnClose(b: BrokerId)
    | SweepFires(t: TransportId, b: BrokerId)
    | Delete(t: TransportId)
    | Janitor(t: TransportId)
    | FanoutDrop(b: BrokerId)

  predicate Wired(st: State, b: BrokerId) {
    b in st.sessions && (st.sessions[b].phase.Serving? || st.sessions[b].phase.Finished?)
  }

  /** When a step can happen. Ids are fresh and a client never reuses a call id within a session; a
      sweep carries the ids its `onclose` saw. */
  predicate Enabled(st: State, step: Step) {
    match step
    case StartStdio(b) => b !in st.sessions && b !in st.stdio
    case InitPost(b) => b !in st.sessions && b !in st.stdio
    case Connected(b) => b in st.sessions && st.sessions[b].phase.Connecting?
    case ConnectThrows(b) => b in st.sessions && st.sessions[b].phase.Connecting?
    case Adopt(b, t) =>
      && b in st.sessions && st.sessions[b].phase.Serving? && st.sessions[b].transport.None?
      && forall o :: o in st.sessions ==> st.sessions[o].transport != Some(t)
    case CallArrives(b, c) => Wired(st, b) && c !in st.sessions[b].started
    case ResponseSent(b, c) => Wired(st, b)
    case HandlerReturns(b) => b in st.sessions && st.sessions[b].phase.Serving?
    case HandlerThrows(b) => b in st.sessions && st.sessions[b].phase.Serving?
    case OnClose(b) => Wired(st, b)
    case SweepFires(t, b) => b in st.sessions && st.sessions[b].transport == Some(t) && t in st.sessions[b].armed
    case Delete(t) => true
    case Janitor(t) => true
    case FanoutDrop(b) => true
  }

  /** What is still in flight when a session goes is counted as abandoned. */
  function Abandon(s: Session): Session {
    s.(inFlight := {}, abandoned := s.abandoned + s.inFlight, abandonedCount := s.abandonedCount + |s.inFlight|,
       keepalive := false)
  }

  /** What the close handler does to its session: it arms a sweep when it sees a transport id. */
  function CloseSession(s: Session): Session {
    Abandon(s).(closed := true, armed := if s.transport.Some? then s.armed + {s.transport.value} else s.armed)
  }

  function Started(s: Session, c: CallId): Session { s.(inFlight := s.inFlight + {c}, started := s.started + {c}) }

  /** A response that went out; one whose call is no longer in flight changes nothing. */
  function Answered(s: Session, c: CallId): Session {
    s.(inFlight := s.inFlight - {c}, delivered := s.delivered + (s.inFlight * {c}))
  }

  /** Takes a session out of both tables. */
  function Unlist(st: State, t: TransportId, b: BrokerId): State {
    st.(subscribers := st.subscribers - {b}, listed := st.listed - {t})
  }

  function UnlistIfAdopted(st: State, b: BrokerId): State
    requires b in st.sessions
  {
    match st.sessions[b].transport
    case Some(t) => Unlist(st, t, b)
    case None => st.(subscribers := st.subscribers - {b})
  }

  function Update(st: State, b: BrokerId, s: Session): State { st.(sessions := st.sessions[b := s]) }

  function Apply(st: State, step: Step): State
    requires Enabled(st, step)
  {
    match step
    case StartStdio(b) => st.(subscribers := st.subscribers + {b}, stdio := st.stdio + {b})
    case InitPost(b) => Update(st, b, NEW_SESSION).(subscribers := st.subscribers + {b})
    case Connected(b) => Update(st, b, st.sessions[b].(phase := Serving))
    case ConnectThrows(b) => Update(st, b, st.sessions[b].(phase := ConnectThrew))
    case Adopt(b, t) => Update(st, b, st.sessions[b].(transport := Some(t)))
    case CallArrives(b, c) => Update(st, b, Started(st.sessions[b], c))
    case ResponseSent(b, c) => Update(st, b, Answered(st.sessions[b], c))
    case HandlerReturns(b) =>
      var s := st.sessions[b];
      if s.transport.Some?
      then Update(st, b, s.(phase := Finished, keepalive := true)).(listed := st.listed[s.transport.value := b])
      else Update(st, b, s.(phase := Finished)).(subscribers := st.subscribers - {b})
    case HandlerThrows(b) => UnlistIfAdopted(Update(st, b, st.sessions[b].(phase := Finished)), b)
    case OnClose(b) => UnlistIfAdopted(Update(st, b, CloseSession(st.sessions[b])), b)
    case SweepFires(t, b) => if t in st.listed then Unlist(st, t, b) else st
    case Delete(t) => if t in st.listed then Unlist(st, t, st.listed[t]) else st
    case Janitor(t) =>
      if t in st.listed && st.listed[t] in st.sessions
      then Unlist(Update(st, st.listed[t], Abandon(st.sessions[st.listed[t]])), t, st.listed[t])
      else st
    case FanoutDrop(b) => st.(subscribers := st.subscribers - {b})
  }

  const START: State := State({}, {}, map[], map[])

  /** A run: every step possible where it happens. */
  predicate Possible(st: State, steps: seq<Step>)
    decreases |steps|, 0
  {
    steps != [] ==> Possible(st, steps[..|steps| - 1]) && Enabled(Run(st, steps[..|steps| - 1]), steps[|steps| - 1])
  }

  function Run(st: State, steps: seq<Step>): State
    requires Possible(st, steps)
    decreases |steps|, 1
  {
    if steps == [] then st else Apply(Run(st, steps[..|steps| - 1]), steps[|steps| - 1])
  }

  // ---------------------------------------------------------------- nothing is left behind

  predicate Listed(st: State, b: BrokerId) {
    b in st.sessions && st.sessions[b].transport.Some?
    && st.sessions[b].transport.value in st.listed && st.listed[st.sessions[b].transport.value] == b
  }

  /** Why a broker id may be in the subscriber table. */
  predicate Accounted(st: State, b: BrokerId) {
    || b in st.stdio
    || (b in st.sessions && (st.sessions[b].phase.Connecting? || st.sessions[b].phase.Serving?))
    || (b in st.sessions && st.sessions[b].phase.ConnectThrew?)
    || Listed(st, b)
  }

  /** Every subscriber has a reason to be there, and none of them has been closed. */
  predicate SubscribersAccounted(st: State) {
    && (forall b :: b in st.subscribers ==> Accounted(st, b))
    && (forall b :: b in st.subscribers && b in st.sessions ==> !st.sessions[b].closed)
  }

  /** Listed sessions are known by the transport id they are listed under, and their handler is done. */
  predicate ListingsMatch(st: State) {
    forall t :: t in st.listed ==>
      st.listed[t] in st.sessions && st.sessions[st.listed[t]].transport == Some(t)
      && st.sessions[st.listed[t]].phase.Finished?
  }

  predicate TransportsDistinct(st: State) {
    forall a, b :: a in st.sessions && b in st.sessions && st.sessions[a].transport.Some? ==>
      (st.sessions[a].transport == st.sessions[b].transport ==> a == b)
  }

  predicate OnlyWiredAdopt(st: State) {
    forall b :: b in st.sessions ==> b !in st.stdio && (!Wired(st, b) ==> st.sessions[b].transport.None?)
  }

  predicate IdsDistinct(st: State) { TransportsDistinct(st) && OnlyWiredAdopt(st) }

  predicate Tables(st: State) { SubscribersAccounted(st) && ListingsMatch(st) && IdsDistinct(st) }

  /** What a step does to the session objects: one may be added, and none goes, changes the transport id it
      has, or comes back from a handler that is done. */
  lemma {:induction false} SessionsOnlyGrow(st: State, step: Step, b: BrokerId)
    requires Enabled(st, step) && b in st.sessions
    ensures var after := Apply(st, step);
      && b in after.sessions
      && (st.sessions[b].transport.Some? ==> after.sessions[b].transport == st.sessions[b].transport)
      && (st.sessions[b].transport.None? && after.sessions[b].transport.Some? ==>
            step == Adopt(b, after.sessions[b].transport.value))
      && (Wired(st, b) ==> Wired(after, b))
      && (st.sessions[b].phase.Finished? ==> after.sessions[b].phase.Finished?)
      && (st.sessions[b].closed ==> after.sessions[b].closed)
  {
  }

  lemma {:induction false} NewSessionsAreBare(st: State, step: Step, b: BrokerId)
    requires Enabled(st, step) && b !in st.sessions && b in Apply(st, step).sessions
    ensures Apply(st, step).sessions[b] == NEW_SESSION && b !in Apply(st, step).stdio
  {
  }

  lemma {:induction false} StepKeepsTransportsDistinct(st: State, step: Step)
    requires TransportsDistinct(st) && Enabled(st, step)
    ensures TransportsDistinct(Apply(st, step))
  {
    var after := Apply(st, step);
    forall a, b | a in after.sessions && b in after.sessions && after.sessions[a].transport.Some?
      ensures after.sessions[a].transport == after.sessions[b].transport ==> a == b
    {
      if a in st.sessions { SessionsOnlyGrow(st, step, a); } else { NewSessionsAreBare(st, step, a); }
      if b in st.sessions { SessionsOnlyGrow(st, step, b); } else { NewSessionsAreBare(st, step, b); }
    }
  }

  lemma {:induction false} StdioGrowsByStart(st: State, step: Step, b: BrokerId)
    requires Enabled(st, step) && b in Apply(st, step).stdio
    ensures b in st.stdio || step == StartStdio(b)
  {
  }

  lemma {:induction false} StepKeepsOnlyWiredAdopt(st: State, step: Step)
    requires OnlyWiredAdopt(st) && Enabled(st, step)
    ensures OnlyWiredAdopt(Apply(st, step))
  {
    var after := Apply(st, step);
    forall b | b in after.sessions
      ensures b !in after.stdio && (!Wired(after, b) ==> after.sessions[b].transport.None?)
    {
      if b in st.sessions {
        SessionsOnlyGrow(st, step, b);
        if b in after.stdio { StdioGrowsByStart(st, step, b); }
      } else {
        NewSessionsAreBare(st, step, b);
      }
    }
  }

  /** Only the handler returning lists a session. */
  lemma {:induction false} ListedByReturnOnly(st: State, step: Step, t: TransportId)
    requires Enabled(st, step) && t in Apply(st, step).listed
    ensures var b := Apply(st, step).listed[t];
      || (t in st.listed && st.listed[t] == b)
      || (step == HandlerReturns(b) && st.sessions[b].transport == Some(t)
          && Apply(st, step).sessions[b].phase.Finished?)
  {
  }

  lemma {:induction false} StepKeepsListings(st: State, step: Step)
    requires ListingsMatch(st) && Enabled(st, step)
    ensures ListingsMatch(Apply(st, step))
  {
    var after := Apply(st, step);
    forall t | t in after.listed
      ensures after.listed[t] in after.sessions && after.sessions[after.listed[t]].transport == Some(t)
        && after.sessions[after.listed[t]].phase.Finished?
    {
      ListedByReturnOnly(st, step, t);
      SessionsOnlyGrow(st, step, after.listed[t]);
    }
  }

  lemma {:induction false} SubscribersGrowByRegistering(st: State, step: Step, b: BrokerId)
    requires Enabled(st, step) && b in Apply(st, step).subscribers
    ensures b in st.subscribers || step == StartStdio(b) || step == InitPost(b)
  {
  }

  lemma {:induction false} NewSubscribersAreAccounted(st: State, step: Step, b: BrokerId)
    requires Tables(st) && Enabled(st, step) && (step == StartStdio(b) || step == InitPost(b))
    ensures Accounted(Apply(st, step), b)
    ensures b in Apply(st, step).sessions ==> !Apply(st, step).sessions[b].closed
  {
  }

  lemma {:induction false} SubscribersStayAccounted(st: State, step: Step, b: BrokerId)
    requires Tables(st) && Enabled(st, step) && b in st.subscribers && b in Apply(st, step).subscribers
    ensures Accounted(Apply(st, step), b)
  {
    assert Accounted(st, b);
  }

  lemma {:induction false} SubscribersStayOpen(st: State, step: Step, b: BrokerId)
    requires Tables(st) && Enabled(st, step) && b in st.subscribers && b in Apply(st, step).subscribers
    requires b in st.sessions
    ensures b in Apply(st, step).sessions && !Apply(st, step).sessions[b].closed
  {
    SessionsOnlyGrow(st, step, b);
  }

  lemma {:induction false} StepKeepsSubscribers(st: State, step: Step)
    requires Tables(st) && Enabled(st, step)
    ensures SubscribersAccounted(Apply(st, step))
  {
    hide Apply, Enabled, Accounted;
    var after := Apply(st, step);
    forall b | b in after.subscribers
      ensures Accounted(after, b) && (b in after.sessions ==> !after.sessions[b].closed)
    {
      SubscribersGrowByRegistering(st, step, b);
      if step == StartStdio(b) || step == InitPost(b) {
        NewSubscribersAreAccounted(st, step, b);
      } else {
        SubscribersStayAccounted(st, step, b);
        if b in st.sessions {
          SubscribersStayOpen(st, step, b);
        } else if b in after.sessions {
          NewSessionsAreBare(st, step, b);
        }
      }
    }
  }

  /** In every interleaving each subscriber belongs to a handler still running, a listed session or
      stdio, or to a handler whose `server.connect` threw. */
  lemma {:induction false} SubscribersAreAccountedFor(steps: seq<Step>)
    requires Possible(START, steps)
    ensures Tables(Run(START, steps))
  {
    if steps != [] {
      var front, last := steps[..|steps| - 1], steps[|steps| - 1];
      SubscribersAreAccountedFor(front);
      StepKeepsTransportsDistinct(Run(START, front), last);
      StepKeepsOnlyWiredAdopt(Run(START, front), last);
      StepKeepsListings(Run(START, front), last);
      StepKeepsSubscribers(Run(START, front), last);
    }
  }

  /** No handler is running and no session is listed. */
  predicate Drained(st: State) {
    st.listed == map[] && forall b :: b in st.sessions ==> !st.sessions[b].phase.Connecting? && !st.sessions[b].phase.Serving?
  }

  /** The sessions whose handler threw in `server.connect`, before there was anything to clean up. */
  function ConnectLeaks(st: State): set<BrokerId> {
    set b | b in st.sessions && st.sessions[b].phase.ConnectThrew?
  }

  predicate WithoutFanoutDrops(steps: seq<Step>) {
    forall i :: 0 <= i < |steps| ==> !steps[i].FanoutDrop?
  }

  lemma {:induction false} NothingElseRemovesThem(steps: seq<Step>)
    requires Possible(START, steps) && WithoutFanoutDrops(steps)
    ensures var st := Run(START, steps);
      && st.stdio <= st.subscribers
      && (forall b :: b in st.sessions && !Wired(st, b) ==> b in st.subscribers)
  {
    if steps != [] {
      var front, last := steps[..|steps| - 1], steps[|steps| - 1];
      assert forall i :: 0 <= i < |front| ==> front[i] == steps[i];
      NothingElseRemovesThem(front);
      SubscribersAreAccountedFor(front);
      assert !last.FanoutDrop?;
      StepSparesThem(Run(START, front), last);
    }
  }

  lemma {:induction false} StepSparesThem(st: State, step: Step)
    requires Tables(st) && Enabled(st, step) && !step.FanoutDrop?
    requires st.stdio <= st.subscribers && forall b :: b in st.sessions && !Wired(st, b) ==> b in st.subscribers
    ensures var after := Apply(st, step);
      after.stdio <= after.subscribers && forall b :: b in after.sessions && !Wired(after, b) ==> b in after.subscribers
  {
  }

  /** Once every handler and session is gone the subscribers are stdio's, plus one for each connect that
      threw; fanout drops can only take further ones away. So the count is back at its baseline exactly
      when no connect threw. */
  lemma {:induction false} DrainReturnsToBaseline(steps: seq<Step>)
    requires Possible(START, steps) && Drained(Run(START, steps))
    ensures var st := Run(START, steps);
      && st.subscribers <= st.stdio + ConnectLeaks(st)
      && (WithoutFanoutDrops(steps) ==> st.subscribers == st.stdio + ConnectLeaks(st))
      && (WithoutFanoutDrops(steps) ==> (|st.subscribers| == |st.stdio| <==> ConnectLeaks(st) == {}))
  {
    SubscribersAreAccountedFor(steps);
    var st := Run(START, steps);
    if WithoutFanoutDrops(steps) {
      NothingElseRemovesThem(steps);
      assert st.stdio !! ConnectLeaks(st);
      assert |st.stdio + ConnectLeaks(st)| == |st.stdio| + |ConnectLeaks(st)|;
    }
  }

  /** The leak, for any id: a handler whose `server.connect` threw has nothing listed and nothing running, and its
      subscriber is still there. */
  lemma {:induction false} ThrownConnectLeaks(b: BrokerId)
    ensures var steps := [InitPost(b), ConnectThrows(b)];
      && Possible(START, steps) && Drained(Run(START, steps)) && Run(START, steps).stdio == {}
      && Run(START, steps).subscribers == {b} == ConnectLeaks(Run(START, steps))
  {
    var none: seq<Step> := [];
    AddStep(none, InitPost(b));
    assert none + [InitPost(b)] == [InitPost(b)];
    AddStep([InitPost(b)], ConnectThrows(b));
    assert [InitPost(b)] + [ConnectThrows(b)] == [InitPost(b), ConnectThrows(b)];
  }

  // ---------------------------------------------------------------- teardown is final

  predicate Gone(st: State, b: BrokerId) {
    b in st.sessions && st.sessions[b].phase.Finished? && !Listed(st, b) && b !in st.subscribers
  }

  lemma {:induction false} StepKeepsGone(st: State, step: Step, b: BrokerId)
    requires Tables(st) && Enabled(st, step) && Gone(st, b)
    ensures Gone(Apply(st, step), b)
  {
    SessionsOnlyGrow(st, step, b);
    if b in Apply(st, step).subscribers { SubscribersGrowByRegistering(st, step, b); }
    hide Apply;
    if Listed(Apply(st, step), b) { ListedByReturnOnly(st, step, st.sessions[b].transport.value); }
  }

  /** After its handler a session torn down by any path, in any order, is in neither table for good. */
  lemma {:induction false} TeardownIsFinal(steps: seq<Step>, more: seq<Step>, b: BrokerId)
    requires Possible(START, steps + more) && Possible(START, steps) && Gone(Run(START, steps), b)
    ensures Gone(Run(START, steps + more), b)
  {
    if more == [] {
      assert steps + more == steps;
    } else {
      var all, front := steps + more, more[..|more| - 1];
      assert all[..|all| - 1] == steps + front && all[|all| - 1] == more[|more| - 1];
      TeardownIsFinal(steps, front, b);
      SubscribersAreAccountedFor(steps + front);
      StepKeepsGone(Run(START, steps + front), more[|more| - 1], b);
    }
  }

  /** Each of the teardown paths does it: `onclose`, DELETE, the sweep and the janitor for a listed
      session, a throw for one still being served. */
  lemma {:induction false} EveryTeardownPathWorks(st: State, b: BrokerId, t: TransportId)
    requires Tables(st) && b in st.sessions && st.sessions[b].transport == Some(t)
    ensures Listed(st, b) ==> Gone(Apply(st, OnClose(b)), b) && Gone(Apply(st, Delete(t)), b)
    ensures Listed(st, b) ==> Gone(Apply(st, Janitor(t)), b)
    ensures Listed(st, b) && t in st.sessions[b].armed ==> Gone(Apply(st, SweepFires(t, b)), b)
    ensures st.sessions[b].phase.Serving? ==> Gone(Apply(st, HandlerThrows(b)), b)
  {
    if Listed(st, b) {
      CloseTearsDown(st, b, t);
      UnlistTearsDown(st, b, t);
    }
    ThrowTearsDown(st, b, t);
  }

  lemma {:induction false} CloseTearsDown(st: State, b: BrokerId, t: TransportId)
    requires Tables(st) && b in st.sessions && st.sessions[b].transport == Some(t) && Listed(st, b)
    ensures Gone(Apply(st, OnClose(b)), b) && Gone(Apply(st, Janitor(t)), b)
  {
  }

  lemma {:induction false} UnlistTearsDown(st: State, b: BrokerId, t: TransportId)
    requires Tables(st) && b in st.sessions && st.sessions[b].transport == Some(t) && Listed(st, b)
    ensures Gone(Apply(st, Delete(t)), b)
    ensures t in st.sessions[b].armed ==> Gone(Apply(st, SweepFires(t, b)), b)
  {
  }

  lemma {:induction false} ThrowTearsDown(st: State, b: BrokerId, t: TransportId)
    requires Tables(st) && b in st.sessions && st.sessions[b].transport == Some(t)
    ensures st.sessions[b].phase.Serving? ==> Gone(Apply(st, HandlerThrows(b)), b)
  {
  }

  // ---------------------------------------------------------------- what a close leaves behind

  lemma {:induction false} PrefixPossible(steps: seq<Step>, k: nat)
    requires Possible(START, steps) && k <= |steps|
    ensures Possible(START, steps[..k])
    decreases |steps|
  {
    if k == |steps| {
      assert steps[..k] == steps;
    } else {
      PrefixPossible(steps[..|steps| - 1], k);
      assert steps[..|steps| - 1][..k] == steps[..k];
    }
  }

  /** Everything a state says of its sessions, as marks that hold or do not. */
  datatype Mark =
    | OnStdio(b: BrokerId)
    | Subscribed(b: BrokerId)
    | InPhase(b: BrokerId, phase: Phase)
    | KnownAs(b: BrokerId, t: TransportId)
    | ListedAs(b: BrokerId, t: TransportId)
    | HasTimer(b: BrokerId)
    | WasClosed(b: BrokerId)
    | HasSweep(b: BrokerId, t: TransportId)
    | CallStarted(b: BrokerId, c: CallId)
    | CallInFlight(b: BrokerId, c: CallId)
    | CallDelivered(b: BrokerId, c: CallId)
    | CallAbandoned(b: BrokerId, c: CallId)

  predicate Holds(st: State, m: Mark) {
    match m
    case OnStdio(b) => b in st.stdio
    case Subscribed(b) => b in st.subscribers
    case InPhase(b, p) => b in st.sessions && st.sessions[b].phase == p
    case KnownAs(b, t) => b in st.sessions && st.sessions[b].transport == Some(t)
    case ListedAs(b, t) => t in st.listed && st.listed[t] == b
    case HasTimer(b) => b in st.sessions && st.sessions[b].keepalive
    case WasClosed(b) => b in st.sessions && st.sessions[b].closed
    case HasSweep(b, t) => b in st.sessions && t in st.sessions[b].armed
    case CallStarted(b, c) => b in st.sessions && c in st.sessions[b].started
    case CallInFlight(b, c) => b in st.sessions && c in st.sessions[b].inFlight
    case CallDelivered(b, c) => b in st.sessions && c in st.sessions[b].delivered
    case CallAbandoned(b, c) => b in st.sessions && c in st.sessions[b].abandoned
  }

  /** The SDK had adopted some id for the session. */
  predicate Adopted(st: State, b: BrokerId) { b in st.sessions && st.sessions[b].transport.Some? }

  /** A close, or the janitor meeting the session's entry. */
  predicate TearsDown(st: State, step: Step, b: BrokerId) {
    step == OnClose(b) || (step.Janitor? && Holds(st, ListedAs(b, step.t)))
  }

  /** What makes a mark hold, by the step and the marks it finds. */
  predicate Sets(st: State, step: Step, m: Mark) {
    match m
    case OnStdio(b) => step == StartStdio(b)
    case Subscribed(b) => step == StartStdio(b) || step == InitPost(b)
    case InPhase(b, Connecting) => step == InitPost(b)
    case InPhase(b, ConnectThrew) => step == ConnectThrows(b)
    case InPhase(b, Serving) => step == Connected(b)
    case InPhase(b, Finished) => step == HandlerReturns(b) || step == HandlerThrows(b)
    case KnownAs(b, t) => step == Adopt(b, t)
    case ListedAs(b, t) => step == HandlerReturns(b) && Holds(st, KnownAs(b, t))
    case HasTimer(b) => step == HandlerReturns(b) && Adopted(st, b)
    case WasClosed(b) => step == OnClose(b)
    case HasSweep(b, t) => step == OnClose(b) && Holds(st, KnownAs(b, t))
    case CallStarted(b, c) => step == CallArrives(b, c)
    case CallInFlight(b, c) => step == CallArrives(b, c)
    case CallDelivered(b, c) => step == ResponseSent(b, c) && Holds(st, CallInFlight(b, c))
    case CallAbandoned(b, c) => TearsDown(st, step, b) && Holds(st, CallInFlight(b, c))
  }

  /** And what ends it. A session leaves the subscribers when fanout drops it, when it is closed, when its handler
      throws or returns without an id, and when DELETE, the janitor or a sweep meets its entry. */
  predicate Clears(st: State, step: Step, m: Mark) {
    match m
    case Subscribed(b) =>
      || step == FanoutDrop(b) || step == OnClose(b) || step == HandlerThrows(b)
      || (step == HandlerReturns(b) && !Adopted(st, b))
      || (step.Delete? && Holds(st, ListedAs(b, step.t))) || (step.Janitor? && Holds(st, ListedAs(b, step.t)))
      || (step.SweepFires? && step.b == b && Holds(st, ListedAs(b, step.t)))
    case InPhase(b, Connecting) => step == Connected(b) || step == ConnectThrows(b)
    case InPhase(b, Serving) => step == HandlerReturns(b) || step == HandlerThrows(b)
    case ListedAs(b, t) => step == OnClose(b) || step == Delete(t) || step == Janitor(t) || step == SweepFires(t, b)
    case HasTimer(b) => TearsDown(st, step, b)
    case CallInFlight(b, c) => step == ResponseSent(b, c) || TearsDown(st, step, b)
    case _ => false
  }

  /** Step `k` of a run, seen in the state it found. */
  predicate SetAt(steps: seq<Step>, k: int, m: Mark) {
    && 0 <= k < |steps| && Possible(START, steps[..k]) && Sets(Run(START, steps[..k]), steps[k], m)
  }

  predicate ClearedAt(steps: seq<Step>, k: int, m: Mark) {
    && 0 <= k < |steps| && Possible(START, steps[..k]) && Clears(Run(START, steps[..k]), steps[k], m)
  }

  lemma {:induction false} StdioStep(st: State, step: Step, m: Mark)
    requires ListingsMatch(st) && IdsDistinct(st) && Enabled(st, step) && m.OnStdio?
    ensures Holds(Apply(st, step), m) <==> Sets(st, step, m) || (Holds(st, m) && !Clears(st, step, m))
  {
  }

  lemma {:induction false} HandlerSubscribedStep(st: State, step: Step, m: Mark)
    requires ListingsMatch(st) && IdsDistinct(st) && Enabled(st, step) && m.Subscribed?
    requires step.OnClose? || step.HandlerThrows? || step.HandlerReturns?
    ensures Holds(Apply(st, step), m) <==> Sets(st, step, m) || (Holds(st, m) && !Clears(st, step, m))
  {
  }

  lemma {:induction false} OtherSubscribedStep(st: State, step: Step, m: Mark)
    requires ListingsMatch(st) && IdsDistinct(st) && Enabled(st, step) && m.Subscribed?
    requires !step.OnClose? && !step.HandlerThrows? && !step.HandlerReturns?
    ensures Holds(Apply(st, step), m) <==> Sets(st, step, m) || (Holds(st, m) && !Clears(st, step, m))
  {
  }

  lemma {:induction false} HandlerListedStep(st: State, step: Step, m: Mark)
    requires ListingsMatch(st) && IdsDistinct(st) && Enabled(st, step) && m.ListedAs?
    requires step.OnClose? || step.HandlerThrows? || step.HandlerReturns?
    ensures Holds(Apply(st, step), m) <==> Sets(st, step, m) || (Holds(st, m) && !Clears(st, step, m))
  {
  }

  lemma {:induction false} OtherListedStep(st: State, step: Step, m: Mark)
    requires ListingsMatch(st) && IdsDistinct(st) && Enabled(st, step) && m.ListedAs?
    requires !step.OnClose? && !step.HandlerThrows? && !step.HandlerReturns?
    ensures Holds(Apply(st, step), m) <==> Sets(st, step, m) || (Holds(st, m) && !Clears(st, step, m))
  {
  }

  lemma {:induction false} PhaseStep(st: State, step: Step, m: Mark)
    requires Enabled(st, step) && (m.InPhase? || m.WasClosed?)
    ensures Holds(Apply(st, step), m) <==> Sets(st, step, m) || (Holds(st, m) && !Clears(st, step, m))
  {
  }

  lemma {:induction false} IdStep(st: State, step: Step, m: Mark)
    requires Enabled(st, step) && (m.KnownAs? || m.HasSweep?)
    ensures Holds(Apply(st, step), m) <==> Sets(st, step, m) || (Holds(st, m) && !Clears(st, step, m))
  {
  }

  lemma {:induction false} TimerStep(st: State, step: Step, m: Mark)
    requires ListingsMatch(st) && Enabled(st, step) && (m.HasTimer?)
    ensures Holds(Apply(st, step), m) <==> Sets(st, step, m) || (Holds(st, m) && !Clears(st, step, m))
  {
  }

  lemma {:induction false} StartedStep(st: State, step: Step, m: Mark)
    requires Enabled(st, step) && (m.CallStarted?)
    ensures Holds(Apply(st, step), m) <==> Sets(st, step, m) || (Holds(st, m) && !Clears(st, step, m))
  {
  }

  lemma {:induction false} InFlightStep(st: State, step: Step, m: Mark)
    requires ListingsMatch(st) && Enabled(st, step) && (m.CallInFlight?)
    ensures Holds(Apply(st, step), m) <==> Sets(st, step, m) || (Holds(st, m) && !Clears(st, step, m))
  {
  }

  lemma {:induction false} DeliveredStep(st: State, step: Step, m: Mark)
    requires ListingsMatch(st) && Enabled(st, step) && (m.CallDelivered?)
    ensures Holds(Apply(st, step), m) <==> Sets(st, step, m) || (Holds(st, m) && !Clears(st, step, m))
  {
  }

  lemma {:induction false} AbandonedStep(st: State, step: Step, m: Mark)
    requires ListingsMatch(st) && Enabled(st, step) && (m.CallAbandoned?)
    ensures Holds(Apply(st, step), m) <==> Sets(st, step, m) || (Holds(st, m) && !Clears(st, step, m))
  {
  }

  lemma {:induction false} MarkStep(st: State, step: Step, m: Mark)
    requires Tables(st) && Enabled(st, step)
    ensures Holds(Apply(st, step), m) <==> Sets(st, step, m) || (Holds(st, m) && !Clears(st, step, m))
  {
    hide Apply, Enabled, Holds, Sets, Clears, ListingsMatch, SubscribersAccounted, IdsDistinct;
    match m
    case OnStdio(_) => StdioStep(st, step, m);
    case Subscribed(_) =>
      if step.OnClose? || step.HandlerThrows? || step.HandlerReturns? {
        HandlerSubscribedStep(st, step, m);
      } else {
        OtherSubscribedStep(st, step, m);
      }
    case ListedAs(_, _) =>
      if step.OnClose? || step.HandlerThrows? || step.HandlerReturns? {
        HandlerListedStep(st, step, m);
      } else {
        OtherListedStep(st, step, m);
      }
    case InPhase(_, _) => PhaseStep(st, step, m);
    case WasClosed(_) => PhaseStep(st, step, m);
    case KnownAs(_, _) => IdStep(st, step, m);
    case HasSweep(_, _) => IdStep(st, step, m);
    case HasTimer(_) => TimerStep(st, step, m);
    case CallStarted(_, _) => StartedStep(st, step, m);
    case CallInFlight(_, _) => InFlightStep(st, step, m);
    case CallDelivered(_, _) => DeliveredStep(st, step, m);
    case CallAbandoned(_, _) => AbandonedStep(st, step, m);
  }

  lemma {:induction false} MarkHistory(steps: seq<Step>, m: Mark, k: int)
    requires Possible(START, steps) && steps != [] && k < |steps| - 1
    ensures SetAt(steps[..|steps| - 1], k, m) <==> SetAt(steps, k, m)
    ensures ClearedAt(steps[..|steps| - 1], k, m) <==> ClearedAt(steps, k, m)
  {
    hide Run, Possible, Sets, Clears;
    if 0 <= k { assert steps[..|steps| - 1][..k] == steps[..k]; }
  }

  /** Some step set the mark and none since has cleared it. */
  ghost predicate SetSince(steps: seq<Step>, m: Mark) {
    exists k :: SetAt(steps, k, m) && forall j :: k < j < |steps| ==> !ClearedAt(steps, j, m)
  }

  lemma {:induction false} SetSinceGoesOn(steps: seq<Step>, m: Mark)
    requires Possible(START, steps) && steps != [] && SetSince(steps[..|steps| - 1], m) && !ClearedAt(steps, |steps| - 1, m)
    ensures SetSince(steps, m)
  {
    hide Run, Possible, Sets, Clears;
    var n := |steps| - 1;
    var k :| SetAt(steps[..n], k, m) && forall j :: k < j < n ==> !ClearedAt(steps[..n], j, m);
    assert k < n;
    hide SetAt, ClearedAt;
    MarkHistory(steps, m, k);
    forall j | k < j < |steps| ensures !ClearedAt(steps, j, m) {
      if j < n { MarkHistory(steps, m, j); }
    }
  }

  lemma {:induction false} SetSinceBefore(steps: seq<Step>, m: Mark)
    requires Possible(START, steps) && steps != [] && SetSince(steps, m) && !SetAt(steps, |steps| - 1, m)
    ensures SetSince(steps[..|steps| - 1], m) && !ClearedAt(steps, |steps| - 1, m)
  {
    hide Run, Possible, Sets, Clears;
    var n := |steps| - 1;
    var k :| SetAt(steps, k, m) && forall j :: k < j <= n ==> !ClearedAt(steps, j, m);
    assert k < n;
    hide SetAt, ClearedAt;
    MarkHistory(steps, m, k);
    forall j | k < j < n ensures !ClearedAt(steps[..n], j, m) { MarkHistory(steps, m, j); }
  }

  /** In every run each mark holds exactly when some step set it and none since has cleared it. So a session is
      subscribed from its POST to the first of its teardowns, and a call is in flight until its response went out
      or the session was torn down. A keepalive timer runs once the handler returned on an adopted transport, until
      a close or a janitor pass over the entry: neither the sweep nor a close that came before that return stops
      it, and DELETE only through the close it asks the transport for, which is a step of its own here. */
  lemma {:induction false} MarksHoldExactlyWhen(steps: seq<Step>, m: Mark)
    requires Possible(START, steps)
    ensures Holds(Run(START, steps), m) <==> SetSince(steps, m)
  {
    if steps != [] {
      var n := |steps| - 1;
      var front := steps[..n];
      MarksHoldExactlyWhen(front, m);
      SubscribersAreAccountedFor(front);
      MarkStep(Run(START, front), steps[n], m);
      assert SetAt(steps, n, m) <==> Sets(Run(START, front), steps[n], m);
      assert ClearedAt(steps, n, m) <==> Clears(Run(START, front), steps[n], m);
      hide Sets, Clears, Holds, ClearedAt, Apply, Tables;
      if SetAt(steps, n, m) { assert forall j :: n < j < |steps| ==> !ClearedAt(steps, j, m); }
      hide SetSince, SetAt;
      if SetSince(front, m) && !ClearedAt(steps, n, m) { SetSinceGoesOn(steps, m); }
      if SetSince(steps, m) && !SetAt(steps, n, m) { SetSinceBefore(steps, m); }
    }
  }

  /** Nobody closed the session or dropped it from the fanout. */
  predicate LeftAlone(steps: seq<Step>, b: BrokerId) {
    forall i :: 0 <= i < |steps| ==> steps[i] != OnClose(b) && steps[i] != FanoutDrop(b)
  }

  lemma {:induction false} StepKeepsServed(st: State, step: Step, b: BrokerId)
    requires Tables(st) && Enabled(st, step) && step != OnClose(b) && step != FanoutDrop(b)
    requires Accounted(st, b) ==> b in st.subscribers
    ensures Accounted(Apply(st, step), b) ==> b in Apply(st, step).subscribers
  {
  }

  /** Who is left alone is subscribed exactly while it has a reason to be: it is stdio's, its handler is still
      running or its connect threw, or it is listed. No session goes deaf when its first POST returns. */
  lemma {:induction false} SubscribedExactlyWhileServed(steps: seq<Step>, b: BrokerId)
    requires Possible(START, steps) && LeftAlone(steps, b)
    ensures b in Run(START, steps).subscribers <==> Accounted(Run(START, steps), b)
  {
    SubscribersAreAccountedFor(steps);
    if steps != [] {
      var front, last := steps[..|steps| - 1], steps[|steps| - 1];
      assert forall i :: 0 <= i < |front| ==> front[i] == steps[i];
      SubscribedExactlyWhileServed(front, b);
      SubscribersAreAccountedFor(front);
      StepKeepsServed(Run(START, front), last, b);
    }
  }

  lemma {:induction false} SweptAfterArming(steps: seq<Step>, b: BrokerId, t: TransportId, k: nat)
    requires Possible(START, steps) && k < |steps| && steps[k] == SweepFires(t, b)
    ensures exists i :: i < k && SetAt(steps, i, HasSweep(b, t))
  {
    var cut := steps[..k + 1];
    PrefixPossible(steps, k + 1);
    assert cut[..k] == steps[..k];
    assert Enabled(Run(START, cut[..k]), cut[k]);
    MarksHoldExactlyWhen(steps[..k], HasSweep(b, t));
    var i :| SetAt(steps[..k], i, HasSweep(b, t));
    assert steps[..k][..i] == steps[..i];
    assert SetAt(steps, i, HasSweep(b, t));
  }

  /** Every close of the session came before the SDK had adopted an id for it. */
  predicate ClosedOnlyBeforeAdoption(steps: seq<Step>, b: BrokerId) {
    forall k :: 0 <= k < |steps| && steps[k] == OnClose(b) && Possible(START, steps[..k]) ==>
      (b in Run(START, steps[..k]).sessions ==> Run(START, steps[..k]).sessions[b].transport.None?)
  }

  /** A session all of whose closes preceded adoption is never swept, though it may be listed: its entry is left
      to DELETE, the janitor or another close. */
  lemma {:induction false} ClosedBeforeAdoptionIsNotSwept(steps: seq<Step>, b: BrokerId, t: TransportId, k: nat)
    requires Possible(START, steps) && ClosedOnlyBeforeAdoption(steps, b) && k < |steps|
    ensures steps[k] != SweepFires(t, b)
  {
    if steps[k] == SweepFires(t, b) {
      SweptAfterArming(steps, b, t, k);
    }
  }

  /** The race the sweep is there for: a session closed between adoption and the return of its first handler is
      listed on return with nobody subscribed under it. The sweep takes the entry out and leaves the timer. */
  lemma {:induction false} ClosedDuringInitIsSweptButKeepsTimer(steps: seq<Step>, b: BrokerId, t: TransportId)
    requires Possible(START, steps) && Holds(Run(START, steps), HasSweep(b, t))
    requires Run(START, steps).sessions[b].phase.Serving?
    ensures var returned := steps + [HandlerReturns(b)];
      var swept := returned + [SweepFires(t, b)];
      && Possible(START, swept) && Possible(START, returned)
      && Listed(Run(START, returned), b) && b !in Run(START, returned).subscribers
      && Gone(Run(START, swept), b) && Holds(Run(START, swept), HasTimer(b))
  {
    var st := Run(START, steps);
    SubscribersAreAccountedFor(steps);
    SweptIsAdopted(steps, b, t);
    ReturnThenSweep(st, b, t);
    AddStep(steps, HandlerReturns(b));
    AddStep(steps + [HandlerReturns(b)], SweepFires(t, b));
  }

  lemma {:induction false} AddStep(steps: seq<Step>, step: Step)
    requires Possible(START, steps) && Enabled(Run(START, steps), step)
    ensures Possible(START, steps + [step]) && Run(START, steps + [step]) == Apply(Run(START, steps), step)
  {
    assert (steps + [step])[..|steps|] == steps;
  }

  /** A sweep is armed only for the id the session has, and only once it is closed. */
  lemma {:induction false} SweptIsAdopted(steps: seq<Step>, b: BrokerId, t: TransportId)
    requires Possible(START, steps) && Holds(Run(START, steps), HasSweep(b, t))
    ensures var s := Run(START, steps).sessions[b]; s.transport == Some(t) && s.closed
  {
    var front, last := steps[..|steps| - 1], steps[|steps| - 1];
    SubscribersAreAccountedFor(front);
    MarkStep(Run(START, front), last, HasSweep(b, t));
    if Holds(Run(START, front), HasSweep(b, t)) {
      SweptIsAdopted(front, b, t);
      SessionsOnlyGrow(Run(START, front), last, b);
    }
  }

  lemma {:induction false} ReturnThenSweep(st: State, b: BrokerId, t: TransportId)
    requires Tables(st) && b in st.sessions && st.sessions[b].phase.Serving? && st.sessions[b].closed
    requires st.sessions[b].transport == Some(t) && t in st.sessions[b].armed
    ensures var returned := Apply(st, HandlerReturns(b));
      && Listed(returned, b) && b !in returned.subscribers && Enabled(returned, SweepFires(t, b))
      && Gone(Apply(returned, SweepFires(t, b)), b) && Holds(Apply(returned, SweepFires(t, b)), HasTimer(b))
  {
  }

  /** The state in which one session is being served. */
  function Serves(b: BrokerId, subscribed: bool, s: Session): State {
    State(if subscribed then {b} else {}, {}, map[b := s], map[])
  }

  lemma {:induction false} FirstSteps(b: BrokerId)
    ensures var steps := [InitPost(b), Connected(b)];
      Possible(START, steps) && Run(START, steps) == Serves(b, true, NEW_SESSION.(phase := Serving))
  {
    var none: seq<Step> := [];
    AddStep(none, InitPost(b));
    assert none + [InitPost(b)] == [InitPost(b)];
    assert Run(START, [InitPost(b)]) == Serves(b, true, NEW_SESSION);
    AddStep([InitPost(b)], Connected(b));
    assert [InitPost(b)] + [Connected(b)] == [InitPost(b), Connected(b)];
  }

  lemma {:induction false} AdoptedThenClosed(b: BrokerId, t: TransportId)
    ensures var steps := [InitPost(b), Connected(b)] + [Adopt(b, t)] + [OnClose(b)];
      Possible(START, steps) && Holds(Run(START, steps), HasSweep(b, t)) && Run(START, steps).sessions[b].phase.Serving?
  {
    hide Possible, Run;
    var steps := [InitPost(b), Connected(b)];
    FirstSteps(b);
    AddStep(steps, Adopt(b, t));
    AddStep(steps + [Adopt(b, t)], OnClose(b));
  }

  /** Such a run from the start, for any two ids. */
  lemma {:induction false} SweptWithTimerRunning(b: BrokerId, t: TransportId)
    ensures var steps := [InitPost(b), Connected(b), Adopt(b, t), OnClose(b), HandlerReturns(b), SweepFires(t, b)];
      Possible(START, steps) && Gone(Run(START, steps), b) && Holds(Run(START, steps), HasTimer(b))
  {
    hide Possible, Run, Gone, Holds;
    var steps := [InitPost(b), Connected(b)] + [Adopt(b, t)] + [OnClose(b)];
    AdoptedThenClosed(b, t);
    ClosedDuringInitIsSweptButKeepsTimer(steps, b, t);
    assert steps + [HandlerReturns(b)] + [SweepFires(t, b)]
      == [InitPost(b), Connected(b), Adopt(b, t), OnClose(b), HandlerReturns(b), SweepFires(t, b)];
  }

  /** And one in which the close comes before adoption: the session ends up listed, with no subscriber and no
      sweep armed. */
  lemma {:induction false} ListedWithNoSweepArmed(b: BrokerId, t: TransportId)
    ensures var steps := [InitPost(b), Connected(b), OnClose(b), Adopt(b, t), HandlerReturns(b)];
      && Possible(START, steps) && Listed(Run(START, steps), b) && b !in Run(START, steps).subscribers
      && forall other :: !Holds(Run(START, steps), HasSweep(b, other))
  {
    hide Possible, Run;
    var steps := [InitPost(b), Connected(b)];
    var closed := steps + [OnClose(b)];
    var adopted := closed + [Adopt(b, t)];
    FirstSteps(b);
    AddStep(steps, OnClose(b));
    assert Run(START, closed) == Serves(b, false, NEW_SESSION.(phase := Serving, closed := true));
    AddStep(closed, Adopt(b, t));
    AddStep(adopted, HandlerReturns(b));
    assert adopted + [HandlerReturns(b)] == [InitPost(b), Connected(b), OnClose(b), Adopt(b, t), HandlerReturns(b)];
  }

  // ---------------------------------------------------------------- every tool call is counted once

  predicate CallsAddUp(s: Session) {
    && s.started == s.delivered + s.abandoned + s.inFlight
    && s.delivered !! s.abandoned && s.delivered !! s.inFlight && s.abandoned !! s.inFlight
    && s.abandonedCount == |s.abandoned|
  }

  predicate AllCallsAddUp(st: State) {
    forall b :: b in st.sessions ==> CallsAddUp(st.sessions[b])
  }

  lemma {:induction false} AbandonAddsUp(s: Session)
    requires CallsAddUp(s)
    ensures CallsAddUp(Abandon(s)) && Abandon(s).inFlight == {}
  {
  }

  lemma {:induction false} StartAddsUp(s: Session, c: CallId)
    requires CallsAddUp(s) && c !in s.started
    ensures CallsAddUp(Started(s, c))
  {
  }

  lemma {:induction false} AnswerAddsUp(s: Session, c: CallId)
    requires CallsAddUp(s)
    ensures CallsAddUp(Answered(s, c))
  {
  }

  /** How far a session's call accounts can move in one step. */
  ghost predicate AccountsMoved(before: Session, after: Session) {
    || SameAccounts(before, after)
    || SameAccounts(Abandon(before), after)
    || (exists c :: SameAccounts(Started(before, c), after) && c !in before.started)
    || (exists c :: SameAccounts(Answered(before, c), after))
  }

  predicate SameAccounts(a: Session, b: Session) {
    && a.inFlight == b.inFlight && a.started == b.started && a.delivered == b.delivered
    && a.abandoned == b.abandoned && a.abandonedCount == b.abandonedCount
  }

  lemma {:induction false} StepMovesAccounts(st: State, step: Step, b: BrokerId)
    requires Enabled(st, step) && b in st.sessions
    ensures b in Apply(st, step).sessions && AccountsMoved(st.sessions[b], Apply(st, step).sessions[b])
  {
    match step
    case CallArrives(a, c) => assert SameAccounts(Started(st.sessions[a], c), Apply(st, step).sessions[a]);
    case ResponseSent(a, c) => assert SameAccounts(Answered(st.sessions[a], c), Apply(st, step).sessions[a]);
    case _ =>
  }

  lemma {:induction false} MovedAccountsAddUp(before: Session, after: Session)
    requires CallsAddUp(before) && AccountsMoved(before, after)
    ensures CallsAddUp(after)
  {
    if SameAccounts(Abandon(before), after) {
      AbandonAddsUp(before);
    } else if c :| SameAccounts(Started(before, c), after) && c !in before.started {
      StartAddsUp(before, c);
    } else if c :| SameAccounts(Answered(before, c), after) {
      AnswerAddsUp(before, c);
    }
  }

  lemma {:induction false} StepKeepsCalls(st: State, step: Step)
    requires AllCallsAddUp(st) && Enabled(st, step)
    ensures AllCallsAddUp(Apply(st, step))
  {
    var after := Apply(st, step);
    forall b | b in after.sessions ensures CallsAddUp(after.sessions[b]) {
      if b in st.sessions {
        StepMovesAccounts(st, step, b);
        MovedAccountsAddUp(st.sessions[b], after.sessions[b]);
      } else {
        NewSessionsAreBare(st, step, b);
      }
    }
  }

  /** Calls started are calls whose response was delivered, plus calls counted abandoned, plus calls in
      flight; none is in two of these, so none is counted abandoned twice or after its delivery. */
  lemma {:induction false} EveryCallIsCountedOnce(steps: seq<Step>)
    requires Possible(START, steps)
    ensures AllCallsAddUp(Run(START, steps))
    ensures forall b :: b in Run(START, steps).sessions ==>
      var s := Run(START, steps).sessions[b];
      |s.started| == |s.delivered| + s.abandonedCount + |s.inFlight|
  {
    if steps != [] {
      var front := steps[..|steps| - 1];
      EveryCallIsCountedOnce(front);
      StepKeepsCalls(Run(START, front), steps[|steps| - 1]);
    }
    var st := Run(START, steps);
    forall b | b in st.sessions
      ensures var s := st.sessions[b]; |s.started| == |s.delivered| + s.abandonedCount + |s.inFlight|
    {
      var s := st.sessions[b];
      assert |s.delivered + s.abandoned| == |s.delivered| + |s.abandoned|;
      assert |s.delivered + s.abandoned + s.inFlight| == |s.delivered + s.abandoned| + |s.inFlight|;
    }
  }

  // ---------------------------------------------------------------- the tables, updated in place

  function BrokersListed(st: State, under: set<TransportId>): set<BrokerId> {
    set t | t in st.listed && t in under :: st.listed[t]
  }

  /** Of what was listed exactly the entries under `gone` have been torn down. */
  predicate Cleared(before: State, after: State, gone: set<TransportId>) {
    && after.listed == before.listed - gone
    && after.stdio == before.stdio
    && after.subscribers == before.subscribers - BrokersListed(before, gone)
    && after.sessions.Keys == before.sessions.Keys
    && forall b :: b in before.sessions ==>
         after.sessions[b] == if b in BrokersListed(before, gone) then Abandon(before.sessions[b]) else before.sessions[b]
  }

  /** A janitor pass over the entries `ts`. */
  function JanitorAll(st: State, ts: seq<TransportId>): State {
    if ts == [] then st else Apply(JanitorAll(st, ts[..|ts| - 1]), Janitor(ts[|ts| - 1]))
  }

  function Members(ts: seq<TransportId>): set<TransportId> { set t | t in ts }

  /** A janitor pass tears down exactly the entries it is given and leaves the others alone, whatever the
      order and however often one is met. */
  lemma {:induction false} JanitorClearsExactly(st: State, ts: seq<TransportId>)
    requires ListingsMatch(st)
    ensures Cleared(st, JanitorAll(st, ts), st.listed.Keys * Members(ts))
  {
    if ts == [] {
      assert Members(ts) == {};
    } else {
      var front, t := ts[..|ts| - 1], ts[|ts| - 1];
      JanitorClearsExactly(st, front);
      assert Members(ts) == Members(front) + {t} by { assert ts == front + [t]; }
      JanitorMeets(st, JanitorAll(st, front), st.listed.Keys * Members(front), t);
      assert st.listed.Keys * Members(ts) ==
        if t in st.listed then st.listed.Keys * Members(front) + {t} else st.listed.Keys * Members(front);
    }
  }

  lemma {:induction false} JanitorMeets(before: State, after: State, gone: set<TransportId>, t: TransportId)
    requires ListingsMatch(before) && Cleared(before, after, gone)
    ensures Cleared(before, Apply(after, Janitor(t)), if t in before.listed then gone + {t} else gone)
  {
    if t in before.listed && t !in gone {
      ClearOneMore(before, after, gone, t);
    } else if t in gone {
      assert gone + {t} == gone && t !in after.listed;
    }
  }

  lemma {:induction false} ClearOneMore(before: State, after: State, gone: set<TransportId>, t: TransportId)
    requires ListingsMatch(before) && Cleared(before, after, gone) && t in before.listed && t !in gone
    ensures t in after.listed && after.listed[t] in after.sessions
    ensures Cleared(before, Apply(after, Janitor(t)), gone + {t})
  {
    var b := before.listed[t];
    assert b !in BrokersListed(before, gone);
    assert BrokersListed(before, gone + {t}) == BrokersListed(before, gone) + {b};
    assert before.listed - gone - {t} == before.listed - (gone + {t});
  }

  /** The two tables and the session objects; every method is one step, run to the next `await`. */
  class Daemon {
    var subscribers: set<BrokerId>
    var stdio: set<BrokerId>
    var sessions: map<BrokerId, Session>
    var listed: map<TransportId, BrokerId>

    ghost function Value(): State
      reads this
    {
      State(subscribers, stdio, sessions, listed)
    }

    constructor ()
      ensures Value() == START
    {
      subscribers, stdio, sessions, listed := {}, {}, map[], map[];
    }

    method RemoveSession(b: BrokerId)
      modifies `subscribers
      ensures Value() == Apply(old(Value()), FanoutDrop(b))
    {
      subscribers := subscribers - {b};
    }

    method CreateSession(b: BrokerId)
      requires Enabled(Value(), InitPost(b))
      modifies this
      ensures Value() == Apply(old(Value()), InitPost(b))
    {
      if b !in subscribers {
        subscribers := subscribers + {b};
      }
      sessions := sessions[b := NEW_SESSION];
    }

    method OnMessage(b: BrokerId, c: CallId)
      requires Enabled(Value(), CallArrives(b, c))
      modifies `sessions
      ensures Value() == Apply(old(Value()), CallArrives(b, c))
    {
      sessions := sessions[b := Started(sessions[b], c)];
    }

    /** After `sdkSend` came back without throwing. */
    method Sent(b: BrokerId, c: CallId)
      requires Enabled(Value(), ResponseSent(b, c))
      modifies `sessions
      ensures Value() == Apply(old(Value()), ResponseSent(b, c))
    {
      var s := sessions[b];
      if c in s.inFlight {
        sessions := sessions[b := s.(inFlight := s.inFlight - {c}, delivered := s.delivered + {c})];
      }
      assert c in s.inFlight ==> s.inFlight * {c} == {c};
      assert c !in s.inFlight ==> s.inFlight * {c} == {} && s.inFlight - {c} == s.inFlight && sessions[b := s] == sessions;
      assert c !in s.inFlight ==> s.delivered + (s.inFlight * {c}) == s.delivered;
    }

    method HandlerReturned(b: BrokerId)
      requires Enabled(Value(), HandlerReturns(b))
      modifies this
      ensures Value() == Apply(old(Value()), HandlerReturns(b))
    {
      sessions := sessions[b := sessions[b].(phase := Finished)];
      match sessions[b].transport {
        case Some(t) =>
          listed := listed[t := b];
          sessions := sessions[b := sessions[b].(keepalive := true)];
        case None =>
          RemoveSession(b);
      }
    }

    method HandlerThrew(b: BrokerId)
      requires Enabled(Value(), HandlerThrows(b))
      modifies this
      ensures Value() == Apply(old(Value()), HandlerThrows(b))
    {
      sessions := sessions[b := sessions[b].(phase := Finished)];
      if sessions[b].transport.Some? {
        listed := listed - {sessions[b].transport.value};
      }
      RemoveSession(b);
    }

    /** Counts the calls in flight one by one, as the close handlers do, then empties the map and stops the
        keepalive timer. */
    method CountAbandoned(b: BrokerId)
      requires b in sessions
      modifies `sessions
      ensures Value() == Update(old(Value()), b, Abandon(old(sessions[b])))
    {
      var s := sessions[b];
      var left, count, calls := s.inFlight, s.abandonedCount, s.abandoned;
      while left != {}
        invariant left <= s.inFlight && count + |left| == s.abandonedCount + |s.inFlight|
        invariant calls == s.abandoned + (s.inFlight - left)
        decreases left
      {
        var c :| c in left;
        left, count, calls := left - {c}, count + 1, calls + {c};
      }
      assert calls == s.abandoned + s.inFlight;
      assert s.(inFlight := {}, abandoned := calls, abandonedCount := count, keepalive := false) == Abandon(s);
      sessions := sessions[b := s.(inFlight := {}, abandoned := calls, abandonedCount := count)];
      if sessions[b].keepalive {
        sessions := sessions[b := sessions[b].(keepalive := false)];
      }
      assert sessions[b] == Abandon(s);
      assert sessions == old(sessions)[b := Abandon(s)];
    }

    method Closed(b: BrokerId)
      requires Enabled(Value(), OnClose(b))
      modifies this
      ensures Value() == Apply(old(Value()), OnClose(b))
    {
      CountAbandoned(b);
      sessions := sessions[b := sessions[b].(closed := true)];
      if sessions[b].transport.Some? {
        var t := sessions[b].transport.value;
        listed := listed - {t};
        sessions := sessions[b := sessions[b].(armed := sessions[b].armed + {t})];
      }
      RemoveSession(b);
      assert sessions[b] == CloseSession(old(sessions[b]));
      assert sessions == old(sessions)[b := CloseSession(old(sessions[b]))];
    }

    /** The sweep 30 s after a close; it looks at the listed sessions only. */
    method Sweep(t: TransportId, b: BrokerId) returns (forced: bool)
      requires Enabled(Value(), SweepFires(t, b))
      modifies this
      ensures Value() == Apply(old(Value()), SweepFires(t, b))
      ensures forced == (t in old(listed))
    {
      forced := t in listed;
      if forced {
        listed := listed - {t};
        RemoveSession(b);
      }
    }

    /** DELETE; false is the 404 answer. */
    method DeleteMcp(t: TransportId) returns (found: bool)
      modifies this
      ensures Value() == Apply(old(Value()), Delete(t))
      ensures found == (t in old(listed))
    {
      found := t in listed;
      if found {
        RemoveSession(listed[t]);
        listed := listed - {t};
      }
    }

    /** One listed entry whose socket the janitor found destroyed. */
    method JanitorRemoves(t: TransportId)
      requires t in listed && listed[t] in sessions
      modifies this
      ensures Value() == Apply(old(Value()), Janitor(t))
    {
      var b := listed[t];
      CountAbandoned(b);
      listed := listed - {t};
      RemoveSession(b);
    }

    /** The five-minute janitor over the listed entries it finds destroyed, in the map's order. */
    method JanitorPass(destroyed: seq<TransportId>)
      requires ListingsMatch(Value())
      modifies this
      ensures Value() == JanitorAll(old(Value()), destroyed)
    {
      ghost var before := Value();
      for i := 0 to |destroyed|
        invariant ListingsMatch(Value()) && Value() == JanitorAll(before, destroyed[..i])
      {
        ghost var was := Value();
        assert destroyed[..i + 1][..i] == destroyed[..i];
        StepKeepsListings(was, Janitor(destroyed[i]));
        if destroyed[i] in listed {
          JanitorRemoves(destroyed[i]);
        }
      }
      assert destroyed[..|destroyed|] == destroyed;
    }
  }
}
