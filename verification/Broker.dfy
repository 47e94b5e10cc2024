/**
 The event broker (src/broker.ts) with its two kinds of subscriber: MCP sessions
 (`subscribe_to_events`, src/server.ts) and raw listeners (`/events/sse`, src/transports.ts).

 One step of the machine is the code between two `await`s. In particular "append the event and call
 `notification` for every matching session" is one step, "add the kinds, read the backlog and send
 its first event" is another, and each further event of a replay is a step of its own.
 */
module Broker {
  import opened Wrappers
  import opened EventStore

  /** An event as it is sent out: its id and content. */
  datatype Stored = Stored(id: string, event: Event)

  /** A replay loop waiting for its last notification, with what it has still to send. */
  datatype Replay = Replay(session: string, queue: seq<Stored>)

  datatype State = State(
    rows: seq<Row>,
    subs: map<string, set<string>>,
    notes: map<string, seq<Stored>>,      // notifications sent to each session, in order
    replays: map<nat, Replay>,
    inFlight: map<nat, Stored>,           // published, fanout still awaited, raw listeners not yet called
    listeners: map<string, Filter>,
    given: map<string, seq<Stored>>)      // frames written to each raw listener, in order

  datatype Step =
    | Register(session: string)
    | Remove(session: string)
    | Subscribe(session: string, kinds: seq<string>, since: Option<string>, replay: nat)
    | Unsubscribe(session: string, dropped: seq<string>)
    | Publish(id: string, event: Event, now: int, persisted: bool, flight: nat)
    | DeliveryFailed(session: string)
    | ReplayNext(replay: nat, ok: bool)
    | FanoutSettled(flight: nat)
    | OpenSse(listener: string, filter: Filter)
    | CloseSse(listener: string)
    | Prune(ids: set<string>)

  const REPLAY_LIMIT: nat := 500

  function Sent(m: map<string, seq<Stored>>, k: string): seq<Stored> { if k in m then m[k] else [] }

  function StoredOf(rows: seq<Row>): (r: seq<Stored>)
    ensures |r| == |rows|
    ensures forall i :: 0 <= i < |rows| ==> r[i] == Stored(rows[i].id, rows[i].event)
  {
    if rows == [] then [] else [Stored(rows[0].id, rows[0].event)] + StoredOf(rows[1..])
  }

  predicate Wants(subscribed: set<string>, e: Event) { e.kind in subscribed || "*" in subscribed }

  function KindSet(kinds: seq<string>): set<string> { set k | k in kinds }

  /** The query a replay makes: no filter when all kinds are asked for. */
  function ReplayFilter(since: string, kinds: seq<string>): Filter {
    Filter(Some(since), None, if kinds != [] && "*" !in kinds then kinds else [], None, None, None)
  }

  function Backlog(rows: seq<Row>, since: string, kinds: seq<string>): seq<Stored> {
    StoredOf(GetPage(rows, ReplayFilter(since, kinds)).events)
  }

  /** Which live events a raw listener is sent. */
  predicate SseWants(f: Filter, e: Event) {
    && (f.kinds != [] && "*" !in f.kinds ==> e.kind in f.kinds)
    && (f.sourceAgent.Some? && f.sourceAgent.value != "" ==> e.sourceAgent == f.sourceAgent.value)
  }

  function Notify(st: State, session: string, x: Stored): State {
    st.(notes := st.notes[session := Sent(st.notes, session) + [x]])
  }

  /** Sends the next event of a replay, or ends it. */
  function Advance(st: State, r: nat): State
    requires r in st.replays
  {
    var replay := st.replays[r];
    if replay.queue == [] then st.(replays := st.replays - {r})
    else Notify(st, replay.session, replay.queue[0])
         .(replays := st.replays[r := replay.(queue := replay.queue[1..])])
  }

  function Apply(st: State, step: Step): State {
    match step
    case Register(s) => if s in st.subs then st else st.(subs := st.subs[s := {}])
    case Remove(s) => st.(subs := st.subs - {s})
    case Subscribe(s, kinds, since, r) =>
      if s !in st.subs then st
      else
        var added := st.(subs := st.subs[s := st.subs[s] + KindSet(kinds)]);
        if since.None? || since.value == "" then added
        else Advance(added.(replays := st.replays[r := Replay(s, Backlog(st.rows, since.value, kinds))]), r)
    case Unsubscribe(s, dropped) =>
      if s !in st.subs then st
      else st.(subs := st.subs[s := if dropped == [] then {} else st.subs[s] - KindSet(dropped)])
    case Publish(id, e, now, persisted, flight) =>
      var x := Stored(id, e);
      st.(rows := if persisted && !HasId(st.rows, id) then st.rows + [Row(id, e, now, NextSeq(st.rows))] else st.rows,
          notes := Fanout(st.subs, st.notes, x),
          inFlight := st.inFlight[flight := x])
    case DeliveryFailed(s) => st.(subs := st.subs - {s})
    case ReplayNext(r, ok) =>
      if r !in st.replays then st
      else if ok then Advance(st, r)
      else st.(subs := st.subs - {st.replays[r].session}, replays := st.replays - {r})
    case FanoutSettled(flight) =>
      if flight !in st.inFlight then st
      else st.(given := FanoutRaw(st.listeners, st.given, st.inFlight[flight]), inFlight := st.inFlight - {flight})
    case OpenSse(l, f) =>
      st.(listeners := st.listeners[l := f], given := st.given[l := StoredOf(GetPage(st.rows, f).events)])
    case CloseSse(l) => st.(listeners := st.listeners - {l})
    case Prune(ids) => st.(rows := Without(st.rows, ids))
  }

  /** One event to every session subscribed to its kind. */
  function Fanout(subs: map<string, set<string>>, notes: map<string, seq<Stored>>, x: Stored): map<string, seq<Stored>> {
    map s | s in notes.Keys + subs.Keys && (s in notes || Wants(subs[s], x.event)) ::
      if s in subs && Wants(subs[s], x.event) then Sent(notes, s) + [x] else Sent(notes, s)
  }

  /** One event to every raw listener whose filter lets it through. */
  function FanoutRaw(listeners: map<string, Filter>, given: map<string, seq<Stored>>, x: Stored): map<string, seq<Stored>> {
    map l | l in given.Keys + listeners.Keys && (l in given || SseWants(listeners[l], x.event)) ::
      if l in listeners && SseWants(listeners[l], x.event) then Sent(given, l) + [x] else Sent(given, l)
  }

  function Run(st: State, steps: seq<Step>): State {
    if steps == [] then st else Apply(Run(st, steps[..|steps| - 1]), steps[|steps| - 1])
  }

  // ---------------------------------------------------------------- snapshot then live, for sessions

  function Wanted(xs: seq<Stored>, kinds: set<string>): seq<Stored> {
    if xs == [] then []
    else if Wants(kinds, xs[|xs| - 1].event) then Wanted(xs[..|xs| - 1], kinds) + [xs[|xs| - 1]]
    else Wanted(xs[..|xs| - 1], kinds)
  }

  /** The events of these kinds published during a run. */
  function Published(steps: seq<Step>, kinds: set<string>): seq<Stored> {
    if steps == [] then []
    else
      var front, last := Published(steps[..|steps| - 1], kinds), steps[|steps| - 1];
      if last.Publish? && Wants(kinds, last.event) then front + [Stored(last.id, last.event)] else front
  }

  function PendingReplay(st: State, r: nat): seq<Stored> { if r in st.replays then st.replays[r].queue else [] }

  /** The session stays healthy and keeps the kinds: nobody removes or drops it, none of its notifications fails,
      and nobody reuses its replay's name. It may subscribe to more kinds, as long as it asks for no second replay,
      and drop others. */
  predicate HealthyStep(step: Step, s: string, r: nat, kinds: set<string>) {
    match step
    case Remove(t) => t != s
    case Subscribe(t, _, since, q) => (t != s || since.None? || since.value == "") && q != r
    case Unsubscribe(t, dropped) => t != s || (dropped != [] && KindSet(dropped) !! kinds)
    case DeliveryFailed(t) => t != s
    case ReplayNext(q, ok) => q == r ==> ok
    case _ => true
  }

  predicate Healthy(steps: seq<Step>, s: string, r: nat, kinds: set<string>) {
    forall i :: 0 <= i < |steps| ==> HealthyStep(steps[i], s, r, kinds)
  }

  predicate AllWanted(xs: seq<Stored>, kinds: set<string>) {
    forall i :: 0 <= i < |xs| ==> Wants(kinds, xs[i].event)
  }

  /** Replay `r` is the only one of session `s`, and what it still has to send is of the wanted kinds. */
  predicate OnlyReplay(st: State, s: string, r: nat, kinds: set<string>) {
    && (forall q :: q in st.replays ==> (st.replays[q].session == s <==> q == r))
    && AllWanted(PendingReplay(st, r), kinds)
  }

  /** Sent to the session since its log held `n` entries, or about to be, of the wanted kinds. */
  function Due(st: State, s: string, r: nat, n: nat, kinds: set<string>): multiset<Stored>
    requires n <= |Sent(st.notes, s)|
  {
    multiset(Wanted(Sent(st.notes, s)[n..], kinds)) + multiset(PendingReplay(st, r))
  }

  predicate Tracking(st: State, s: string, r: nat, n: nat, kinds: set<string>) {
    && s in st.subs && kinds <= st.subs[s]
    && OnlyReplay(st, s, r, kinds)
    && n <= |Sent(st.notes, s)|
  }

  lemma {:induction false} WantedSnoc(xs: seq<Stored>, x: Stored, kinds: set<string>)
    ensures Wanted(xs + [x], kinds) == if Wants(kinds, x.event) then Wanted(xs, kinds) + [x] else Wanted(xs, kinds)
  {
  }

  lemma {:induction false} NotifyAdds(sent: seq<Stored>, n: nat, x: Stored, kinds: set<string>)
    requires n <= |sent|
    ensures multiset(Wanted((sent + [x])[n..], kinds))
            == multiset(Wanted(sent[n..], kinds)) + (if Wants(kinds, x.event) then multiset{x} else multiset{})
  {
    WantedSnoc(sent[n..], x, kinds);
    assert (sent + [x])[n..] == sent[n..] + [x];
  }

  lemma {:induction false} PublishKeepsDue(st: State, step: Step, s: string, r: nat, n: nat, kinds: set<string>)
    requires Tracking(st, s, r, n, kinds) && step.Publish?
    ensures var after := Apply(st, step);
      && Tracking(after, s, r, n, kinds)
      && Due(after, s, r, n, kinds) == Due(st, s, r, n, kinds)
           + (if Wants(kinds, step.event) then multiset{Stored(step.id, step.event)} else multiset{})
  {
    hide Apply, Wanted, Sent;
    PublishNotes(st, step, s);
    NotifyAdds(Sent(st.notes, s), n, Stored(step.id, step.event), kinds);
  }

  /** A publish sends its event to the sessions subscribed to its kind, and touches no subscription and no replay. */
  lemma {:induction false} PublishNotes(st: State, step: Step, s: string)
    requires step.Publish?
    ensures Apply(st, step).subs == st.subs && Apply(st, step).replays == st.replays
    ensures Sent(Apply(st, step).notes, s) ==
      if s in st.subs && (step.event.kind in st.subs[s] || "*" in st.subs[s])
      then Sent(st.notes, s) + [Stored(step.id, step.event)] else Sent(st.notes, s)
  {
    assert Apply(st, step).notes == Fanout(st.subs, st.notes, Stored(step.id, step.event));
  }

  lemma {:induction false} AdvanceKeepsTracking(st: State, q: nat, s: string, r: nat, n: nat, kinds: set<string>)
    requires Tracking(st, s, r, n, kinds) && q in st.replays
    ensures Tracking(Advance(st, q), s, r, n, kinds)
  {
  }

  lemma {:induction false} AdvanceSendsFirst(st: State, s: string, r: nat)
    requires r in st.replays && st.replays[r].session == s && PendingReplay(st, r) != []
    ensures Sent(Advance(st, r).notes, s) == Sent(st.notes, s) + [PendingReplay(st, r)[0]]
    ensures PendingReplay(Advance(st, r), r) == PendingReplay(st, r)[1..]
  {
  }

  lemma {:induction false} AdvanceEnds(st: State, r: nat)
    requires r in st.replays && PendingReplay(st, r) == []
    ensures Advance(st, r).notes == st.notes && PendingReplay(Advance(st, r), r) == []
  {
  }

  lemma {:induction false} OwnReplayKeepsDue(st: State, s: string, r: nat, n: nat, kinds: set<string>)
    requires Tracking(st, s, r, n, kinds) && r in st.replays
    ensures Tracking(Advance(st, r), s, r, n, kinds)
    ensures Due(Advance(st, r), s, r, n, kinds) == Due(st, s, r, n, kinds)
  {
    AdvanceKeepsTracking(st, r, s, r, n, kinds);
    var queue := PendingReplay(st, r);
    if queue == [] {
      AdvanceEnds(st, r);
    } else {
      assert AllWanted(queue, kinds) && Wants(kinds, queue[0].event);
      AdvanceSendsFirst(st, s, r);
      hide Wanted, Wants, Advance, PendingReplay, Sent, Tracking;
      SendingMovesOne(Sent(st.notes, s), n, queue, kinds);
    }
  }

  lemma {:induction false} SendingMovesOne(sent: seq<Stored>, n: nat, queue: seq<Stored>, kinds: set<string>)
    requires n <= |sent| && queue != [] && Wants(kinds, queue[0].event)
    ensures multiset(Wanted((sent + [queue[0]])[n..], kinds)) + multiset(queue[1..])
      == multiset(Wanted(sent[n..], kinds)) + multiset(queue)
  {
    hide Wanted;
    NotifyAdds(sent, n, queue[0], kinds);
    assert queue == [queue[0]] + queue[1..];
  }

  /** What the session sees of the machine. */
  predicate SameForSession(before: State, after: State, s: string, r: nat) {
    Sent(after.notes, s) == Sent(before.notes, s) && PendingReplay(after, r) == PendingReplay(before, r)
  }

  lemma {:induction false} OtherReplayKeepsSession(st: State, q: nat, s: string, r: nat)
    requires q in st.replays && st.replays[q].session != s && q != r
    ensures SameForSession(st, Advance(st, q), s, r)
  {
  }

  lemma {:induction false} OtherSubscribeKeepsSession(st: State, step: Step, s: string, r: nat, n: nat, kinds: set<string>)
    requires Tracking(st, s, r, n, kinds) && step.Subscribe? && step.replay != r
    requires step.session != s || step.since.None? || step.since.value == ""
    ensures var after := Apply(st, step);
      Tracking(after, s, r, n, kinds) && SameForSession(st, after, s, r)
  {
    hide Backlog, Wants, Advance, StoredOf, KindSet;
    var t, q := step.session, step.replay;
    if t in st.subs {
      var added := st.(subs := st.subs[t := st.subs[t] + KindSet(step.kinds)]);
      if step.since.Some? && step.since.value != "" {
        var started := added.(replays := st.replays[q := Replay(t, Backlog(st.rows, step.since.value, step.kinds))]);
        assert Tracking(started, s, r, n, kinds);
        AdvanceKeepsTracking(started, q, s, r, n, kinds);
        OtherReplayKeepsSession(started, q, s, r);
      }
    }
  }

  /** What is none of the session's business leaves its notifications, kinds and replay alone. */
  lemma {:induction false} OtherStepKeepsSession(st: State, step: Step, s: string, r: nat, n: nat, kinds: set<string>)
    requires Tracking(st, s, r, n, kinds) && HealthyStep(step, s, r, kinds)
    requires !step.Publish? && !(step.ReplayNext? && step.replay == r)
    ensures var after := Apply(st, step);
      Tracking(after, s, r, n, kinds) && SameForSession(st, after, s, r)
  {
    if step.Subscribe? {
      OtherSubscribeKeepsSession(st, step, s, r, n, kinds);
    } else if step.ReplayNext? {
      OtherReplayNextKeepsSession(st, step, s, r, n, kinds);
    } else {
      QuietStepKeepsSession(st, step, s, r, n, kinds);
    }
  }

  lemma {:induction false} OtherReplayNextKeepsSession(st: State, step: Step, s: string, r: nat, n: nat, kinds: set<string>)
    requires Tracking(st, s, r, n, kinds) && step.ReplayNext? && step.replay != r
    ensures var after := Apply(st, step);
      Tracking(after, s, r, n, kinds) && SameForSession(st, after, s, r)
  {
    if step.replay in st.replays {
      hide Advance;
      AdvanceKeepsTracking(st, step.replay, s, r, n, kinds);
      OtherReplayKeepsSession(st, step.replay, s, r);
    }
  }

  /** Steps that send nothing and start nothing. */
  lemma {:induction false} QuietStepKeepsSession(st: State, step: Step, s: string, r: nat, n: nat, kinds: set<string>)
    requires Tracking(st, s, r, n, kinds) && HealthyStep(step, s, r, kinds)
    requires !step.Publish? && !step.ReplayNext? && !step.Subscribe?
    ensures var after := Apply(st, step);
      Tracking(after, s, r, n, kinds) && SameForSession(st, after, s, r)
  {
    assert Apply(st, step).replays == st.replays && Apply(st, step).notes == st.notes;
  }

  /** One step leaves what the session is due alone, but for a publish of its kinds, which adds
      exactly that event. */
  lemma {:induction false} StepKeepsDue(st: State, step: Step, s: string, r: nat, n: nat, kinds: set<string>)
    requires Tracking(st, s, r, n, kinds) && HealthyStep(step, s, r, kinds)
    ensures var after := Apply(st, step);
      && Tracking(after, s, r, n, kinds)
      && Due(after, s, r, n, kinds) == Due(st, s, r, n, kinds)
           + (if step.Publish? && Wants(kinds, step.event) then multiset{Stored(step.id, step.event)} else multiset{})
  {
    if step.Publish? {
      PublishKeepsDue(st, step, s, r, n, kinds);
    } else if step.ReplayNext? && step.replay == r {
      if r in st.replays {
        OwnReplayKeepsDue(st, s, r, n, kinds);
      }
    } else {
      OtherStepKeepsSession(st, step, s, r, n, kinds);
    }
  }

  /** The backlog a subscription replays holds only events of the kinds subscribed to. */
  lemma {:induction false} BacklogIsWanted(rows: seq<Row>, since: string, kinds: seq<string>)
    requires kinds != []
    ensures AllWanted(Backlog(rows, since, kinds), KindSet(kinds))
  {
    var f := ReplayFilter(since, kinds);
    var page := GetPage(rows, f).events;
    forall i | 0 <= i < |page| ensures Wants(KindSet(kinds), page[i].event) {
      assert page[i] == Select(rows, f)[i];
      InSelect(rows, f, After(rows, f), page[i]);
    }
  }

  /** A subscription of a registered session that asks for a cursor while no replay of its own is running; the
      replay's name is new. What the session is subscribed to already does not matter. */
  predicate FreshSubscription(st: State, s: string, kinds: seq<string>, since: string, r: nat) {
    && s in st.subs && kinds != [] && since != "" && r !in st.replays
    && (forall q :: q in st.replays ==> st.replays[q].session != s)
  }

  lemma {:induction false} StartedReplayIsDue(
      st: State, s: string, kinds: set<string>, r: nat, backlog: seq<Stored>, n: nat)
    requires s in st.subs && kinds <= st.subs[s] && n == |Sent(st.notes, s)| && AllWanted(backlog, kinds)
    requires forall q :: q in st.replays && q != r ==> st.replays[q].session != s
    ensures var started := st.(replays := st.replays[r := Replay(s, backlog)]);
      Tracking(started, s, r, n, kinds) && Due(started, s, r, n, kinds) == multiset(backlog)
  {
  }

  /** Subscribing makes the session due the backlog, up to the page limit, and nothing else. */
  lemma {:induction false} SubscribeMakesBacklogDue(st: State, s: string, kinds: seq<string>, since: string, r: nat)
    requires FreshSubscription(st, s, kinds, since, r)
    ensures var n := |Sent(st.notes, s)|;
      var after := Apply(st, Subscribe(s, kinds, Some(since), r));
      && Tracking(after, s, r, n, KindSet(kinds))
      && Due(after, s, r, n, KindSet(kinds)) == multiset(Backlog(st.rows, since, kinds))
  {
    var n := |Sent(st.notes, s)|;
    var backlog := Backlog(st.rows, since, kinds);
    BacklogIsWanted(st.rows, since, kinds);
    var added := st.(subs := st.subs[s := st.subs[s] + KindSet(kinds)]);
    StartedReplayIsDue(added, s, KindSet(kinds), r, backlog, n);
    OwnReplayKeepsDue(added.(replays := st.replays[r := Replay(s, backlog)]), s, r, n, KindSet(kinds));
  }

  lemma {:induction false} RunKeepsDue(st: State, steps: seq<Step>, s: string, r: nat, n: nat, kinds: set<string>)
    requires Tracking(st, s, r, n, kinds) && Healthy(steps, s, r, kinds)
    ensures var after := Run(st, steps);
      && Tracking(after, s, r, n, kinds)
      && Due(after, s, r, n, kinds) == Due(st, s, r, n, kinds) + multiset(Published(steps, kinds))
  {
    hide Apply, Wanted, PendingReplay, OnlyReplay;
    if steps != [] {
      var front, last := steps[..|steps| - 1], steps[|steps| - 1];
      assert forall i :: 0 <= i < |front| ==> front[i] == steps[i];
      RunKeepsDue(st, front, s, r, n, kinds);
      StepKeepsDue(Run(st, front), last, s, r, n, kinds);
    }
  }

  /** Snapshot then live. Whatever the interleaving with publishes, prunes and other sessions, what a
      fresh healthy subscription has been sent of its kinds, together with what its replay still holds,
      is the backlog read when it subscribed plus everything published since: each once. */
  lemma {:induction false} SubscriptionSeesBacklogThenLive(
      st: State, s: string, kinds: seq<string>, since: string, r: nat, steps: seq<Step>)
    requires FreshSubscription(st, s, kinds, since, r) && Healthy(steps, s, r, KindSet(kinds))
    ensures var n := |Sent(st.notes, s)|;
      var after := Run(Apply(st, Subscribe(s, kinds, Some(since), r)), steps);
      && n <= |Sent(after.notes, s)|
      && multiset(Wanted(Sent(after.notes, s)[n..], KindSet(kinds))) + multiset(PendingReplay(after, r))
         == multiset(Backlog(st.rows, since, kinds)) + multiset(Published(steps, KindSet(kinds)))
  {
    SubscribeMakesBacklogDue(st, s, kinds, since, r);
    RunKeepsDue(Apply(st, Subscribe(s, kinds, Some(since), r)), steps, s, r, |Sent(st.notes, s)|, KindSet(kinds));
  }

  /** Every matching row after the cursor. */
  function Missed(rows: seq<Row>, since: string, kinds: seq<string>): seq<Stored> {
    StoredOf(Select(rows, ReplayFilter(since, kinds)))
  }

  /** The replay reaches back over everything missed exactly when that fits one page: a backlog of more
      than 500 events loses the ones behind the 500th. */
  lemma {:induction false} BacklogIsEverythingMissedUpToLimit(rows: seq<Row>, since: string, kinds: seq<string>)
    ensures var missed := Missed(rows, since, kinds);
      && Backlog(rows, since, kinds) == (if |missed| <= REPLAY_LIMIT then missed else missed[..REPLAY_LIMIT])
      && (Backlog(rows, since, kinds) == missed <==> |missed| <= REPLAY_LIMIT)
  {
  }

  // ---------------------------------------------------------------- exactly once, by event id

  predicate DistinctIds(xs: seq<Stored>) {
    forall i, j :: 0 <= i < j < |xs| ==> xs[i].id != xs[j].id
  }

  lemma {:induction false} DistinctCountsOnce(xs: seq<Stored>, x: Stored)
    requires DistinctIds(xs)
    ensures multiset(xs)[x] == if x in xs then 1 else 0
  {
    if xs != [] {
      DistinctCountsOnce(xs[1..], x);
      assert xs == [xs[0]] + xs[1..];
    }
  }

  /** Once the replay is over, with at most 500 events missed and no event id used twice, every event
      missed or published since has been notified exactly once, and no other event of these kinds. */
  lemma {:induction false} GapFreeAndDuplicateFree(
      st: State, s: string, kinds: seq<string>, since: string, r: nat, steps: seq<Step>, x: Stored)
    requires FreshSubscription(st, s, kinds, since, r) && Healthy(steps, s, r, KindSet(kinds))
    requires |Missed(st.rows, since, kinds)| <= REPLAY_LIMIT
    requires DistinctIds(Missed(st.rows, since, kinds) + Published(steps, KindSet(kinds)))
    requires PendingReplay(Run(Apply(st, Subscribe(s, kinds, Some(since), r)), steps), r) == []
    ensures var n := |Sent(st.notes, s)|;
      var sent := Sent(Run(Apply(st, Subscribe(s, kinds, Some(since), r)), steps).notes, s);
      var expected := Missed(st.rows, since, kinds) + Published(steps, KindSet(kinds));
      && n <= |sent|
      && multiset(Wanted(sent[n..], KindSet(kinds)))[x] == (if x in expected then 1 else 0)
  {
    SubscriptionSeesBacklogThenLive(st, s, kinds, since, r, steps);
    BacklogIsEverythingMissedUpToLimit(st.rows, since, kinds);
    DistinctCountsOnce(Missed(st.rows, since, kinds) + Published(steps, KindSet(kinds)), x);
  }

  /** What a step sends to a session: a publish of a kind it is subscribed to, or the next event of its replay. */
  function SentBy(st: State, step: Step, s: string): seq<Stored> {
    match step
    case Publish(id, e, _, _, _) =>
      if s in st.subs && (e.kind in st.subs[s] || "*" in st.subs[s]) then [Stored(id, e)] else []
    case Subscribe(t, kinds, since, _) =>
      if t == s && s in st.subs && since.Some? && since.value != "" then Next(Backlog(st.rows, since.value, kinds)) else []
    case ReplayNext(r, ok) =>
      if ok && r in st.replays && st.replays[r].session == s then Next(st.replays[r].queue) else []
    case _ => []
  }

  function Next(queue: seq<Stored>): seq<Stored> { if queue == [] then [] else [queue[0]] }

  function AllSentBy(st: State, steps: seq<Step>, s: string): seq<Stored> {
    if steps == [] then []
    else AllSentBy(st, steps[..|steps| - 1], s) + SentBy(Run(st, steps[..|steps| - 1]), steps[|steps| - 1], s)
  }

  lemma {:induction false} NotesGrowByStep(st: State, step: Step, s: string)
    ensures Sent(Apply(st, step).notes, s) == Sent(st.notes, s) + SentBy(st, step, s)
  {
    hide Fanout, FanoutRaw, KindSet, Backlog, Advance, StoredOf;
    var after := Apply(st, step);
    match step
    case Publish(_, _, _, _, _) =>
      PublishNotes(st, step, s);
    case Subscribe(t, kinds, since, r) =>
      if t in st.subs && since.Some? && since.value != "" {
        AdvanceGrowsNotes(st.(subs := st.subs[t := st.subs[t] + KindSet(kinds)],
                              replays := st.replays[r := Replay(t, Backlog(st.rows, since.value, kinds))]), r, s);
      }
    case ReplayNext(r, ok) =>
      if r in st.replays && ok {
        AdvanceGrowsNotes(st, r, s);
      }
    case _ =>
      assert after.notes == st.notes;
  }

  lemma {:induction false} AdvanceGrowsNotes(st: State, r: nat, s: string)
    requires r in st.replays
    ensures Sent(Advance(st, r).notes, s)
      == Sent(st.notes, s) + if st.replays[r].session == s then Next(st.replays[r].queue) else []
  {
  }

  /** Every session, healthy or not, is sent exactly what its steps send it, in their order, and notifications are
      never taken back. */
  lemma {:induction false} NotesAreWhatWasSent(st: State, steps: seq<Step>, s: string)
    ensures Sent(Run(st, steps).notes, s) == Sent(st.notes, s) + AllSentBy(st, steps, s)
  {
    hide Apply, SentBy;
    if steps != [] {
      NotesAreWhatWasSent(st, steps[..|steps| - 1], s);
      NotesGrowByStep(Run(st, steps[..|steps| - 1]), steps[|steps| - 1], s);
    }
  }

  lemma {:induction false} WantedAppend(xs: seq<Stored>, ys: seq<Stored>, kinds: set<string>)
    ensures Wanted(xs + ys, kinds) == Wanted(xs, kinds) + Wanted(ys, kinds)
  {
    if ys == [] {
      assert xs + ys == xs;
    } else {
      assert (xs + ys)[..|xs + ys| - 1] == xs + ys[..|ys| - 1];
      WantedAppend(xs, ys[..|ys| - 1], kinds);
    }
  }

  /** Over the session's whole life an event is notified exactly once precisely when it was not already
      notified before: a session that was subscribed all along is sent the backlog a second time. */
  lemma {:induction false} DuplicatesComeFromEarlierSubscriptions(
      st: State, s: string, kinds: seq<string>, since: string, r: nat, steps: seq<Step>, x: Stored)
    requires FreshSubscription(st, s, kinds, since, r) && Healthy(steps, s, r, KindSet(kinds))
    requires |Missed(st.rows, since, kinds)| <= REPLAY_LIMIT
    requires DistinctIds(Missed(st.rows, since, kinds) + Published(steps, KindSet(kinds)))
    requires PendingReplay(Run(Apply(st, Subscribe(s, kinds, Some(since), r)), steps), r) == []
    requires x in Missed(st.rows, since, kinds) + Published(steps, KindSet(kinds))
    ensures var sent := Sent(Run(Apply(st, Subscribe(s, kinds, Some(since), r)), steps).notes, s);
      multiset(Wanted(sent, KindSet(kinds)))[x] == 1
      <==> x !in Wanted(Sent(st.notes, s), KindSet(kinds))
  {
    hide Wanted, Missed, Published, DistinctIds, Healthy;
    var before := Sent(st.notes, s);
    var subscribed := Apply(st, Subscribe(s, kinds, Some(since), r));
    var sent := Sent(Run(subscribed, steps).notes, s);
    NotesGrowByStep(st, Subscribe(s, kinds, Some(since), r), s);
    NotesAreWhatWasSent(subscribed, steps, s);
    assert sent == before + sent[|before|..];
    WantedAppend(before, sent[|before|..], KindSet(kinds));
    GapFreeAndDuplicateFree(st, s, kinds, since, r, steps, x);
  }

  // ---------------------------------------------------------------- snapshot then live, raw listeners

  /** The publishes of an event that still have to call the raw listeners. */
  function Flights(inFlight: map<nat, Stored>, f: Filter, x: Stored): set<nat> {
    set p | p in inFlight && inFlight[p] == x && SseWants(f, x.event)
  }

  lemma {:induction false} TakeOff(m: map<nat, Stored>, p: nat, e: Stored, f: Filter, x: Stored)
    requires p !in m
    ensures |Flights(m[p := e], f, x)| == |Flights(m, f, x)| + if e == x && SseWants(f, x.event) then 1 else 0
  {
    assert p !in Flights(m, f, x);
    assert Flights(m[p := e], f, x) ==
      if e == x && SseWants(f, x.event) then Flights(m, f, x) + {p} else Flights(m, f, x);
  }

  lemma {:induction false} Landing(m: map<nat, Stored>, p: nat, f: Filter, x: Stored)
    requires p in m
    ensures |Flights(m, f, x)| == |Flights(m - {p}, f, x)| + if m[p] == x && SseWants(f, x.event) then 1 else 0
  {
    assert p !in Flights(m - {p}, f, x);
    assert Flights(m, f, x) ==
      if m[p] == x && SseWants(f, x.event) then Flights(m - {p}, f, x) + {p} else Flights(m - {p}, f, x);
  }

  /** How often a listener has been, or is about to be, given the event: frames written plus flights. */
  function Deliveries(st: State, l: string, f: Filter, x: Stored): nat {
    multiset(Sent(st.given, l))[x] + |Flights(st.inFlight, f, x)|
  }

  predicate Listening(st: State, l: string, f: Filter) { l in st.listeners && st.listeners[l] == f }

  /** The listener stays connected and a flight's name is not reused while it lasts. */
  predicate Connected(st: State, step: Step, l: string) {
    match step
    case OpenSse(m, _) => m != l
    case CloseSse(m) => m != l
    case Publish(_, _, _, _, flight) => flight !in st.inFlight
    case _ => true
  }

  predicate StaysConnected(st: State, steps: seq<Step>, l: string) {
    steps != [] ==>
      && StaysConnected(st, steps[..|steps| - 1], l)
      && Connected(Run(st, steps[..|steps| - 1]), steps[|steps| - 1], l)
  }

  predicate Publishes(step: Step, f: Filter, x: Stored) {
    step.Publish? && Stored(step.id, step.event) == x && SseWants(f, x.event)
  }

  function PublishCount(steps: seq<Step>, f: Filter, x: Stored): nat {
    if steps == [] then 0
    else PublishCount(steps[..|steps| - 1], f, x) + if Publishes(steps[|steps| - 1], f, x) then 1 else 0
  }

  lemma {:induction false} PublishTakesOff(st: State, step: Step, l: string, f: Filter, x: Stored)
    requires step.Publish? && step.flight !in st.inFlight
    ensures Deliveries(Apply(st, step), l, f, x) == Deliveries(st, l, f, x) + (if Publishes(step, f, x) then 1 else 0)
  {
    TakeOff(st.inFlight, step.flight, Stored(step.id, step.event), f, x);
    assert Apply(st, step).inFlight == st.inFlight[step.flight := Stored(step.id, step.event)];
    assert Apply(st, step).given == st.given;
  }

  lemma {:induction false} RawFanoutGives(listeners: map<string, Filter>, given: map<string, seq<Stored>>, e: Stored, l: string)
    ensures Sent(FanoutRaw(listeners, given, e), l) ==
      if l in listeners && SseWants(listeners[l], e.event) then Sent(given, l) + [e] else Sent(given, l)
  {
  }

  lemma {:induction false} FlightLands(st: State, flight: nat, l: string, f: Filter, x: Stored)
    requires Listening(st, l, f) && flight in st.inFlight
    ensures Deliveries(Apply(st, FanoutSettled(flight)), l, f, x) == Deliveries(st, l, f, x)
  {
    var landed := Apply(st, FanoutSettled(flight));
    var e := st.inFlight[flight];
    RawFanoutGives(st.listeners, st.given, e, l);
    Landing(st.inFlight, flight, f, x);
    assert landed.inFlight == st.inFlight - {flight};
    assert landed.given == FanoutRaw(st.listeners, st.given, e);
  }

  /** A publish of a wanted event adds one delivery of it; every other step only moves deliveries from
      in flight to written. */
  lemma {:induction false} StepKeepsDeliveries(st: State, step: Step, l: string, f: Filter, x: Stored)
    requires Listening(st, l, f) && Connected(st, step, l)
    ensures Listening(Apply(st, step), l, f)
    ensures Deliveries(Apply(st, step), l, f, x) == Deliveries(st, l, f, x) + (if Publishes(step, f, x) then 1 else 0)
  {
    if step.Publish? {
      PublishTakesOff(st, step, l, f, x);
    } else if step.FanoutSettled? {
      if step.flight in st.inFlight {
        FlightLands(st, step.flight, l, f, x);
      }
    } else {
      OtherStepsDeliverNothing(st, step, l);
    }
  }

  lemma {:induction false} OtherStepsDeliverNothing(st: State, step: Step, l: string)
    requires !step.Publish? && !step.FanoutSettled? && Connected(st, step, l)
    ensures var after := Apply(st, step);
      after.inFlight == st.inFlight && Sent(after.given, l) == Sent(st.given, l)
      && (l in st.listeners ==> l in after.listeners && after.listeners[l] == st.listeners[l])
  {
    hide Fanout, FanoutRaw, Wants, SseWants, KindSet, Backlog, Advance, StoredOf;
    match step
    case OpenSse(m, _) => assert m != l;
    case CloseSse(m) => assert m != l;
    case Subscribe(t, kinds, since, r) =>
      if t in st.subs && since.Some? && since.value != "" {
        AdvanceLeavesRaw(st.(subs := st.subs[t := st.subs[t] + KindSet(kinds)],
                             replays := st.replays[r := Replay(t, Backlog(st.rows, since.value, kinds))]), r);
      }
    case ReplayNext(r, ok) =>
      if r in st.replays && ok {
        AdvanceLeavesRaw(st, r);
      }
    case _ =>
  }

  lemma {:induction false} AdvanceLeavesRaw(st: State, r: nat)
    requires r in st.replays
    ensures var after := Advance(st, r);
      after.inFlight == st.inFlight && after.given == st.given && after.listeners == st.listeners
  {
  }

  lemma {:induction false} RunKeepsDeliveries(st: State, steps: seq<Step>, l: string, f: Filter, x: Stored)
    requires Listening(st, l, f) && StaysConnected(st, steps, l)
    ensures Listening(Run(st, steps), l, f)
    ensures Deliveries(Run(st, steps), l, f, x) == Deliveries(st, l, f, x) + PublishCount(steps, f, x)
  {
    if steps != [] {
      var front := steps[..|steps| - 1];
      RunKeepsDeliveries(st, front, l, f, x);
      StepKeepsDeliveries(Run(st, front), steps[|steps| - 1], l, f, x);
    }
  }

  /** The rows of the log a stream is asked for. */
  function History(rows: seq<Row>, f: Filter): seq<Stored> { StoredOf(Select(rows, f)) }

  lemma {:induction false} HistoryIsDistinct(rows: seq<Row>, f: Filter)
    requires Live(rows)
    ensures DistinctIds(History(rows, f))
  {
    SelectKeepsLive(rows, f, After(rows, f));
  }

  /** What opening the stream writes of the k-th matching row: the history is one page of the log. */
  lemma {:induction false} PageHoldsFirstRows(rows: seq<Row>, f: Filter, k: nat)
    requires Live(rows) && k < |History(rows, f)|
    ensures multiset(StoredOf(GetPage(rows, f).events))[History(rows, f)[k]] == if k < f.PageSize() then 1 else 0
  {
    hide SelectAfter, GetPage, StoredOf, Live;
    var page, all := StoredOf(GetPage(rows, f).events), History(rows, f);
    HistoryIsDistinct(rows, f);
    assert page == all[..|page|];
    DistinctCountsOnce(page, all[k]);
    assert k < |page| ==> page[k] == all[k];
    if all[k] in page {
      var i :| 0 <= i < |page| && page[i] == all[k];
      assert all[i].id == all[k].id;
    }
  }

  /** Over a whole stream, once its flights have landed, the k-th matching row of the log it was opened on has
      been written once if it was on the first page, once more for every publish of it that was in flight when
      the stream was opened, since raw listeners are only called after the awaited fanout, and once more for
      every later publish. */
  lemma {:induction false} SseWrites(st: State, l: string, f: Filter, steps: seq<Step>, k: nat)
    requires Live(st.rows) && k < |History(st.rows, f)|
    requires StaysConnected(Apply(st, OpenSse(l, f)), steps, l)
    requires Flights(Run(Apply(st, OpenSse(l, f)), steps).inFlight, f, History(st.rows, f)[k]) == {}
    ensures var x := History(st.rows, f)[k];
      multiset(Sent(Run(Apply(st, OpenSse(l, f)), steps).given, l))[x]
      == (if k < f.PageSize() then 1 else 0) + |Flights(st.inFlight, f, x)| + PublishCount(steps, f, x)
  {
    var start := Apply(st, OpenSse(l, f));
    var x := History(st.rows, f)[k];
    RunKeepsDeliveries(start, steps, l, f, x);
    PageHoldsFirstRows(st.rows, f, k);
    assert start.inFlight == st.inFlight;
  }

  /** Nothing of the history is in flight when the stream is opened, during its run, or published in it. */
  ghost predicate Undisturbed(st: State, l: string, f: Filter, steps: seq<Step>) {
    forall k :: 0 <= k < |History(st.rows, f)| ==>
      && Flights(st.inFlight, f, History(st.rows, f)[k]) == {}
      && Flights(Run(Apply(st, OpenSse(l, f)), steps).inFlight, f, History(st.rows, f)[k]) == {}
      && PublishCount(steps, f, History(st.rows, f)[k]) == 0
  }

  /** `/events/sse` is at-least-once for the history exactly as far as one page goes: all matching rows are
      written if and only if they fit the page, 500 rows unless the filter says otherwise. */
  lemma {:induction false} SseIsAtLeastOnce(st: State, l: string, f: Filter, steps: seq<Step>)
    requires Live(st.rows) && StaysConnected(Apply(st, OpenSse(l, f)), steps, l) && Undisturbed(st, l, f, steps)
    ensures var written := Sent(Run(Apply(st, OpenSse(l, f)), steps).given, l);
      (forall k :: 0 <= k < |History(st.rows, f)| ==> History(st.rows, f)[k] in written)
      <==> |History(st.rows, f)| <= f.PageSize()
  {
    hide Run, Apply, StaysConnected, Flights, PublishCount, Sent;
    var written := Sent(Run(Apply(st, OpenSse(l, f)), steps).given, l);
    forall k | 0 <= k < |History(st.rows, f)| ensures History(st.rows, f)[k] in written <==> k < f.PageSize() {
      SseWrites(st, l, f, steps, k);
      assert History(st.rows, f)[k] in written <==> multiset(written)[History(st.rows, f)[k]] > 0;
    }
    if |History(st.rows, f)| > f.PageSize() {
      assert History(st.rows, f)[f.PageSize()] !in written;
    }
  }

  // ---------------------------------------------------------------- what the tables hold, by the history

  /** What a state says of its tables, as marks that hold or do not. */
  datatype Mark =
    | Registered(session: string)
    | SubscribedTo(session: string, kind: string)
    | Logged(x: Stored, at: int)
    | OnItsWay(flight: nat, x: Stored)
    | ListensWith(listener: string, filter: Filter)

  predicate InLog(rows: seq<Row>, x: Stored, at: int) {
    exists i :: 0 <= i < |rows| && rows[i].id == x.id && rows[i].event == x.event && rows[i].createdAt == at
  }

  predicate Holds(st: State, m: Mark) {
    match m
    case Registered(s) => s in st.subs
    case SubscribedTo(s, k) => s in st.subs && k in st.subs[s]
    case Logged(x, at) => InLog(st.rows, x, at)
    case OnItsWay(p, x) => p in st.inFlight && st.inFlight[p] == x
    case ListensWith(l, f) => l in st.listeners && st.listeners[l] == f
  }

  /** The session is removed, or a notification of it failed, be it live or replayed. */
  predicate Drops(st: State, step: Step, s: string) {
    || step == Remove(s) || step == DeliveryFailed(s)
    || (step.ReplayNext? && !step.ok && step.replay in st.replays && st.replays[step.replay].session == s)
  }

  predicate Sets(st: State, step: Step, m: Mark) {
    match m
    case Registered(s) => step == Register(s)
    case SubscribedTo(s, k) => step.Subscribe? && step.session == s && Holds(st, Registered(s)) && k in step.kinds
    case Logged(x, at) =>
      && step.Publish? && step.persisted && step.now == at && step.id == x.id && step.event == x.event
      && forall i :: 0 <= i < |st.rows| ==> st.rows[i].id != x.id
    case OnItsWay(p, x) => step.Publish? && step.flight == p && step.id == x.id && step.event == x.event
    case ListensWith(l, f) => step == OpenSse(l, f)
  }

  predicate Clears(st: State, step: Step, m: Mark) {
    match m
    case Registered(s) => Drops(st, step, s)
    case SubscribedTo(s, k) =>
      Drops(st, step, s) || (step.Unsubscribe? && step.session == s && (step.dropped == [] || k in step.dropped))
    case Logged(x, _) => step.Prune? && x.id in step.ids
    case OnItsWay(p, _) => (step.FanoutSettled? || step.Publish?) && step.flight == p
    case ListensWith(l, _) => (step.CloseSse? || step.OpenSse?) && step.listener == l
  }

  lemma {:induction false} AdvanceKeepsTables(st: State, r: nat)
    requires r in st.replays
    ensures var after := Advance(st, r);
      after.subs == st.subs && after.rows == st.rows && after.inFlight == st.inFlight && after.listeners == st.listeners
  {
  }

  lemma {:induction false} SubscribeTables(st: State, step: Step)
    requires step.Subscribe?
    ensures var after := Apply(st, step);
      && after.rows == st.rows && after.inFlight == st.inFlight && after.listeners == st.listeners
      && after.subs == if step.session in st.subs
                       then st.subs[step.session := st.subs[step.session] + KindSet(step.kinds)] else st.subs
  {
    hide Backlog, Advance, KindSet;
    var t, kinds, since, r := step.session, step.kinds, step.since, step.replay;
    if t in st.subs && since.Some? && since.value != "" {
      AdvanceKeepsTables(st.(subs := st.subs[t := st.subs[t] + KindSet(kinds)],
                             replays := st.replays[r := Replay(t, Backlog(st.rows, since.value, kinds))]), r);
    }
  }

  lemma {:induction false} ReplayTables(st: State, step: Step)
    requires step.ReplayNext?
    ensures var after := Apply(st, step);
      && after.rows == st.rows && after.inFlight == st.inFlight && after.listeners == st.listeners
      && after.subs == if step.replay in st.replays && !step.ok then st.subs - {st.replays[step.replay].session} else st.subs
  {
    hide Advance;
    if step.replay in st.replays && step.ok { AdvanceKeepsTables(st, step.replay); }
  }

  lemma {:induction false} RegisteredStep(st: State, step: Step, m: Mark)
    requires m.Registered?
    ensures Holds(Apply(st, step), m) <==> Sets(st, step, m) || (Holds(st, m) && !Clears(st, step, m))
  {
    if step.Subscribe? {
      hide Apply;
      SubscribeTables(st, step);
    } else if step.ReplayNext? {
      hide Apply;
      ReplayTables(st, step);
    }
  }

  lemma {:induction false} SubscribedStep(st: State, step: Step, m: Mark)
    requires m.SubscribedTo?
    ensures Holds(Apply(st, step), m) <==> Sets(st, step, m) || (Holds(st, m) && !Clears(st, step, m))
  {
    if step.Subscribe? {
      hide Apply;
      SubscribeTables(st, step);
    } else if step.ReplayNext? {
      hide Apply;
      ReplayTables(st, step);
    }
  }

  lemma {:induction false} PublishLogs(rows: seq<Row>, row: Row, x: Stored, at: int)
    ensures InLog(rows + [row], x, at) <==> InLog(rows, x, at) || (row.id == x.id && row.event == x.event && row.createdAt == at)
  {
    if row.id == x.id && row.event == x.event && row.createdAt == at { assert (rows + [row])[|rows|] == row; }
    if i :| 0 <= i < |rows| && rows[i].id == x.id && rows[i].event == x.event && rows[i].createdAt == at {
      assert (rows + [row])[i] == rows[i];
    }
  }

  lemma {:induction false} PruneUnlogs(rows: seq<Row>, ids: set<string>, x: Stored, at: int)
    ensures InLog(Without(rows, ids), x, at) <==> InLog(rows, x, at) && x.id !in ids
  {
    if i :| 0 <= i < |rows| && rows[i].id == x.id && rows[i].event == x.event && rows[i].createdAt == at {
      InWithout(rows, ids, rows[i]);
    }
    var kept := Without(rows, ids);
    if i :| 0 <= i < |kept| && kept[i].id == x.id && kept[i].event == x.event && kept[i].createdAt == at {
      InWithout(rows, ids, kept[i]);
    }
  }

  lemma {:induction false} LoggedStep(st: State, step: Step, m: Mark)
    requires m.Logged?
    ensures Holds(Apply(st, step), m) <==> Sets(st, step, m) || (Holds(st, m) && !Clears(st, step, m))
  {
    if step.Publish? {
      PublishLogs(st.rows, Row(step.id, step.event, step.now, NextSeq(st.rows)), m.x, m.at);
    } else if step.Prune? {
      PruneUnlogs(st.rows, step.ids, m.x, m.at);
    } else {
      hide InLog;
      if step.Subscribe? {
        hide Apply;
        SubscribeTables(st, step);
      } else if step.ReplayNext? {
        hide Apply;
        ReplayTables(st, step);
      }
    }
  }

  lemma {:induction false} RawStep(st: State, step: Step, m: Mark)
    requires m.OnItsWay? || m.ListensWith?
    ensures Holds(Apply(st, step), m) <==> Sets(st, step, m) || (Holds(st, m) && !Clears(st, step, m))
  {
    if step.Subscribe? {
      hide Apply;
      SubscribeTables(st, step);
    } else if step.ReplayNext? {
      hide Apply;
      ReplayTables(st, step);
    }
  }

  /** A broker over an empty log. */
  const START: State := State([], map[], map[], map[], map[], map[], map[])

  predicate SetAt(steps: seq<Step>, k: int, m: Mark) {
    0 <= k < |steps| && Sets(Run(START, steps[..k]), steps[k], m)
  }

  predicate ClearedAt(steps: seq<Step>, k: int, m: Mark) {
    0 <= k < |steps| && Clears(Run(START, steps[..k]), steps[k], m)
  }

  /** Some step set the mark and none since has cleared it. */
  ghost predicate SetSince(steps: seq<Step>, m: Mark) {
    exists k :: SetAt(steps, k, m) && forall j :: k < j < |steps| ==> !ClearedAt(steps, j, m)
  }

  lemma {:induction false} MarkHistory(steps: seq<Step>, m: Mark, k: int)
    requires steps != [] && k < |steps| - 1
    ensures SetAt(steps[..|steps| - 1], k, m) <==> SetAt(steps, k, m)
    ensures ClearedAt(steps[..|steps| - 1], k, m) <==> ClearedAt(steps, k, m)
  {
    hide Run, Sets, Clears;
    if 0 <= k { assert steps[..|steps| - 1][..k] == steps[..k]; }
  }

  lemma {:induction false} SetSinceGoesOn(steps: seq<Step>, m: Mark)
    requires steps != [] && SetSince(steps[..|steps| - 1], m) && !ClearedAt(steps, |steps| - 1, m)
    ensures SetSince(steps, m)
  {
    hide Run, Sets, Clears;
    var n := |steps| - 1;
    var k :| SetAt(steps[..n], k, m) && forall j :: k < j < n ==> !ClearedAt(steps[..n], j, m);
    assert k < n;
    hide SetAt, ClearedAt;
    MarkHistory(steps, m, k);
    forall j | k < j < |steps| ensures !ClearedAt(steps, j, m) {
      if j < n { MarkHistory(steps, m, j); }
    }
  }

  lemma {:induction false} SetSinceBefore(steps: seq<Step>, m: Mark)
    requires steps != [] && SetSince(steps, m) && !SetAt(steps, |steps| - 1, m)
    ensures SetSince(steps[..|steps| - 1], m) && !ClearedAt(steps, |steps| - 1, m)
  {
    hide Run, Sets, Clears;
    var n := |steps| - 1;
    var k :| SetAt(steps, k, m) && forall j :: k < j <= n ==> !ClearedAt(steps, j, m);
    assert k < n;
    hide SetAt, ClearedAt;
    MarkHistory(steps, m, k);
    forall j | k < j < n ensures !ClearedAt(steps[..n], j, m) { MarkHistory(steps, m, j); }
  }

  /** In every run of a fresh broker: an event is in the log exactly when it was published with an insert that
      succeeded and has not been pruned since; a session is registered, and subscribed to a kind, exactly from the
      step that said so until it was removed, dropped after a failed notification, or dropped the kind; a publish
      awaits its deliveries until they settle, and a listener listens until it closes. */
  lemma {:induction false} MarksHoldExactlyWhen(steps: seq<Step>, m: Mark)
    ensures Holds(Run(START, steps), m) <==> SetSince(steps, m)
  {
    if steps != [] {
      var n := |steps| - 1;
      MarksHoldExactlyWhen(steps[..n], m);
      MarkStep(Run(START, steps[..n]), steps[n], m);
      assert SetAt(steps, n, m) <==> Sets(Run(START, steps[..n]), steps[n], m);
      assert ClearedAt(steps, n, m) <==> Clears(Run(START, steps[..n]), steps[n], m);
      hide Sets, Clears, Holds, ClearedAt, Apply;
      if SetAt(steps, n, m) { assert forall j :: n < j < |steps| ==> !ClearedAt(steps, j, m); }
      hide SetSince, SetAt;
      if SetSince(steps[..n], m) && !ClearedAt(steps, n, m) { SetSinceGoesOn(steps, m); }
      if SetSince(steps, m) && !SetAt(steps, n, m) { SetSinceBefore(steps, m); }
    }
  }

  lemma {:induction false} MarkStep(st: State, step: Step, m: Mark)
    ensures Holds(Apply(st, step), m) <==> Sets(st, step, m) || (Holds(st, m) && !Clears(st, step, m))
  {
    hide Apply, Holds, Sets, Clears;
    match m
    case Registered(_) => RegisteredStep(st, step, m);
    case SubscribedTo(_, _) => SubscribedStep(st, step, m);
    case Logged(_, _) => LoggedStep(st, step, m);
    case OnItsWay(_, _) => RawStep(st, step, m);
    case ListensWith(_, _) => RawStep(st, step, m);
  }

  // ---------------------------------------------------------------- how a replay goes on and ends

  predicate Untouched(steps: seq<Step>, r: nat) {
    forall i :: 0 <= i < |steps| ==> !(steps[i].Subscribe? && steps[i].replay == r)
  }

  function Continuations(steps: seq<Step>, r: nat): nat {
    if steps == [] then 0
    else
      Continuations(steps[..|steps| - 1], r) + (if steps[|steps| - 1].ReplayNext? && steps[|steps| - 1].replay == r then 1 else 0)
  }

  lemma {:induction false} ReplayStep(st: State, step: Step, r: nat)
    requires !(step.Subscribe? && step.replay == r)
    ensures var after := Apply(st, step);
      && (step == ReplayNext(r, false) ==> r !in after.replays)
      && (!(step.ReplayNext? && step.replay == r) ==>
            (r in after.replays <==> r in st.replays) && (r in st.replays ==> after.replays[r] == st.replays[r]))
      && (step == ReplayNext(r, true) ==>
            && (r in after.replays <==> r in st.replays && st.replays[r].queue != [])
            && (r in after.replays ==>
                  after.replays[r] == Replay(st.replays[r].session, st.replays[r].queue[1..])))
  {
    hide Fanout, FanoutRaw, Backlog, KindSet, StoredOf;
  }

  /** A replay named `r` is still there exactly as long as none of its notifications failed and it has been continued
      no more often than it had events left; every continuation took the first of these. */
  lemma {:induction false} ReplayRunsItsCourse(st: State, steps: seq<Step>, r: nat)
    requires r in st.replays && Untouched(steps, r)
    ensures var after, n, q := Run(st, steps), Continuations(steps, r), st.replays[r];
      && (r in after.replays <==> ReplayNext(r, false) !in steps && n <= |q.queue|)
      && (r in after.replays ==> after.replays[r] == Replay(q.session, q.queue[n..]))
  {
    hide Apply;
    if steps != [] {
      var front, last := steps[..|steps| - 1], steps[|steps| - 1];
      assert steps == front + [last];
      assert forall i :: 0 <= i < |front| ==> front[i] == steps[i];
      ReplayRunsItsCourse(st, front, r);
      ReplayStep(Run(st, front), last, r);
    }
  }

  /** A fresh healthy subscription has its backlog notified from the front, one event when it subscribes and one
      each time the one before has been taken. So the replay is over exactly after as many continuations as there
      are events behind the first. */
  lemma {:induction false} ReplayDrains(
      st: State, s: string, kinds: seq<string>, since: string, r: nat, steps: seq<Step>)
    requires FreshSubscription(st, s, kinds, since, r) && Healthy(steps, s, r, KindSet(kinds))
    ensures var backlog, n := Backlog(st.rows, since, kinds), Continuations(steps, r);
      PendingReplay(Run(Apply(st, Subscribe(s, kinds, Some(since), r)), steps), r)
      == if n + 1 <= |backlog| then backlog[n + 1..] else []
  {
    hide Backlog, KindSet, Run;
    var subscribed := Apply(st, Subscribe(s, kinds, Some(since), r));
    var backlog := Backlog(st.rows, since, kinds);
    if r in subscribed.replays {
      assert ReplayNext(r, false) !in steps;
      ReplayRunsItsCourse(subscribed, steps, r);
    } else {
      EndedReplayStaysOver(subscribed, steps, r);
    }
  }

  lemma {:induction false} EndedReplayStaysOver(st: State, steps: seq<Step>, r: nat)
    requires r !in st.replays && Untouched(steps, r)
    ensures r !in Run(st, steps).replays
  {
    hide Apply;
    if steps != [] {
      var front, last := steps[..|steps| - 1], steps[|steps| - 1];
      assert forall i :: 0 <= i < |front| ==> front[i] == steps[i];
      EndedReplayStaysOver(st, front, r);
      ReplayStep(Run(st, front), last, r);
    }
  }

  // ---------------------------------------------------------------- what is logged is what was published

  /** The publishes of a run that were persisted, in order. */
  function Persisted(st: State, steps: seq<Step>): seq<Stored> {
    if steps == [] then []
    else
      var front, last := steps[..|steps| - 1], steps[|steps| - 1];
      if last.Publish? && last.persisted && !HasId(Run(st, front).rows, last.id)
      then Persisted(st, front) + [Stored(last.id, last.event)] else Persisted(st, front)
  }

  lemma {:induction false} StoredOfSnoc(rows: seq<Row>, row: Row)
    ensures StoredOf(rows + [row]) == StoredOf(rows) + [Stored(row.id, row.event)]
  {
    hide StoredOf;
  }

  lemma {:induction false} RowsStep(st: State, step: Step)
    requires Live(st.rows)
    ensures Live(Apply(st, step).rows)
    ensures !step.Prune? ==>
      Apply(st, step).rows == (
        if step.Publish? && step.persisted && !HasId(st.rows, step.id)
        then st.rows + [Row(step.id, step.event, step.now, NextSeq(st.rows))] else st.rows)
  {
    hide Live, NextSeq;
    if step.Subscribe? {
      hide Apply;
      SubscribeTables(st, step);
    } else if step.ReplayNext? {
      hide Apply;
      ReplayTables(st, step);
    } else if step.Publish? {
      if !HasId(st.rows, step.id) { AppendKeepsLive(st.rows, Row(step.id, step.event, step.now, NextSeq(st.rows))); }
    } else if step.Prune? {
      WithoutKeepsLive(st.rows, step.ids);
    }
  }

  predicate NothingPruned(steps: seq<Step>) { forall i :: 0 <= i < |steps| ==> !steps[i].Prune? }

  /** While nothing is pruned the log grows by exactly the persisted publishes, in their order. */
  lemma {:induction false} LogIsWhatWasPublished(st: State, steps: seq<Step>)
    requires Live(st.rows) && NothingPruned(steps)
    ensures var after := Run(st, steps).rows;
      && Live(after) && st.rows <= after && StoredOf(after[|st.rows|..]) == Persisted(st, steps)
  {
    hide Apply, Live, StoredOf;
    if steps == [] {
      assert StoredOf(st.rows[|st.rows|..]) == [];
    } else {
      var front, last := steps[..|steps| - 1], steps[|steps| - 1];
      assert forall i :: 0 <= i < |front| ==> front[i] == steps[i];
      LogIsWhatWasPublished(st, front);
      var before := Run(st, front);
      RowsStep(before, last);
      if last.Publish? && last.persisted && !HasId(before.rows, last.id) {
        var row := Row(last.id, last.event, last.now, NextSeq(before.rows));
        assert (before.rows + [row])[|st.rows|..] == before.rows[|st.rows|..] + [row];
        StoredOfSnoc(before.rows[|st.rows|..], row);
      }
    }
  }

  lemma {:induction false} ReplayMatchesWanted(since: string, kinds: seq<string>, e: Event)
    requires kinds != []
    ensures ReplayFilter(since, kinds).Matches(e) <==> Wants(KindSet(kinds), e)
  {
  }

  lemma {:induction false} ReplayedRowsStep(front: seq<Row>, row: Row, since: string, kinds: seq<string>, after: nat)
    requires kinds != [] && row.rowSeq > after
    requires StoredOf(SelectAfter(front, ReplayFilter(since, kinds), after)) == Wanted(StoredOf(front), KindSet(kinds))
    ensures StoredOf(SelectAfter(front + [row], ReplayFilter(since, kinds), after))
      == Wanted(StoredOf(front + [row]), KindSet(kinds))
  {
    hide StoredOf, SelectAfter, Wanted, Wants, ReplayFilter, KindSet, Filter.Matches;
    var f, rows := ReplayFilter(since, kinds), front + [row];
    ReplayMatchesWanted(since, kinds, row.event);
    assert rows[..|front|] == front && rows[..|front| + 1] == rows;
    SelectOneMore(rows, f, after, |front|);
    StoredOfSnoc(front, row);
    WantedSnoc(StoredOf(front), Stored(row.id, row.event), KindSet(kinds));
    StoredOfSnoc(SelectAfter(front, f, after), row);
    assert SelectAfter(front, f, after) + [] == SelectAfter(front, f, after);
  }

  lemma {:induction false} ReplayedRowsAreWanted(rows: seq<Row>, since: string, kinds: seq<string>, after: nat)
    requires kinds != [] && forall i :: 0 <= i < |rows| ==> rows[i].rowSeq > after
    ensures StoredOf(SelectAfter(rows, ReplayFilter(since, kinds), after)) == Wanted(StoredOf(rows), KindSet(kinds))
  {
    if rows != [] {
      hide StoredOf, SelectAfter, Wanted, ReplayFilter, KindSet;
      var front, row := rows[..|rows| - 1], rows[|rows| - 1];
      ReplayedRowsAreWanted(front, since, kinds, after);
      ReplayedRowsStep(front, row, since, kinds, after);
      assert rows == front + [row];
    }
  }

  /** Rows appended behind a cursor are missed after the rest. */
  lemma {:induction false} AppendedAreMissed(rows: seq<Row>, more: seq<Row>, since: string, kinds: seq<string>)
    requires Live(rows + more) && Live(rows) && kinds != [] && since != "" && HasId(rows, since)
    ensures Missed(rows + more, since, kinds) == Missed(rows, since, kinds) + Wanted(StoredOf(more), KindSet(kinds))
  {
    hide SelectAfter, StoredOf, Wanted, KindSet, SeqOf;
    var f, after := ReplayFilter(since, kinds), rows + more;
    CursorKeepsPlace(rows, after, f);
    var c :| 0 <= c < |rows| && rows[c].id == since;
    SeqOfLive(rows, rows[c]);
    forall i | 0 <= i < |more| ensures more[i].rowSeq > After(after, f) {
      assert more[i] == after[|rows| + i] && after[c] == rows[c];
    }
    hide Live, After;
    SelectAppend(rows, more, f, After(after, f));
    ReplayedRowsAreWanted(more, since, kinds, After(after, f));
    StoredOfAppend(SelectAfter(rows, f, After(after, f)), SelectAfter(more, f, After(after, f)));
  }

  /** What is published is not lost to those who come later: with the cursor's row in the log, a later subscription
      has missed what it would have missed before, and behind that every persisted publish of its kinds. */
  lemma {:induction false} LaterSubscriptionsMissThePublished(st: State, steps: seq<Step>, since: string, kinds: seq<string>)
    requires Live(st.rows) && NothingPruned(steps) && kinds != [] && since != "" && HasId(st.rows, since)
    ensures Missed(Run(st, steps).rows, since, kinds)
      == Missed(st.rows, since, kinds) + Wanted(Persisted(st, steps), KindSet(kinds))
  {
    hide Missed, Wanted, StoredOf, Run, Live;
    LogIsWhatWasPublished(st, steps);
    var after := Run(st, steps).rows;
    assert after == st.rows + after[|st.rows|..];
    AppendedAreMissed(st.rows, after[|st.rows|..], since, kinds);
  }

  lemma {:induction false} StoredOfAppend(a: seq<Row>, b: seq<Row>)
    ensures StoredOf(a + b) == StoredOf(a) + StoredOf(b)
  {
    hide StoredOf;
  }

  // ---------------------------------------------------------------- what a raw listener is given

  /** What one step writes to a connected listener: a settled publish that its filter admits, sender and kind alone
      considered. */
  function WrittenBy(st: State, step: Step, l: string): seq<Stored> {
    if step.FanoutSettled? && step.flight in st.inFlight && l in st.listeners
       && Admits(st.listeners[l].(sinceAt := None, tenantId := None), st.inFlight[step.flight].event)
    then [st.inFlight[step.flight]] else []
  }

  lemma {:induction false} StreamFilterIsTheQuerys(f: Filter, e: Event)
    ensures SseWants(f, e) <==> Admits(f.(sinceAt := None, tenantId := None), e)
  {
  }

  /** A listener is given its page of the log when it opens, and then exactly what the steps write to it. */
  lemma {:induction false} GivenStep(st: State, step: Step, l: string)
    ensures Sent(Apply(st, step).given, l) ==
      if step.OpenSse? && step.listener == l then StoredOf(GetPage(st.rows, step.filter).events)
      else Sent(st.given, l) + WrittenBy(st, step, l)
  {
    if step.FanoutSettled? {
      if step.flight in st.inFlight {
        RawFanoutGives(st.listeners, st.given, st.inFlight[step.flight], l);
        if l in st.listeners { StreamFilterIsTheQuerys(st.listeners[l], st.inFlight[step.flight].event); }
      }
    } else if !step.OpenSse? && !step.CloseSse? && !step.Publish? {
      hide Apply;
      OtherStepsDeliverNothing(st, step, l);
    }
  }

  const EVERYTHING: Filter := Filter(None, None, [], None, None, None)

  function Marks(n: nat): (s: string)
    ensures |s| == n
  {
    if n == 0 then "" else Marks(n - 1) + ['x']
  }

  /** A log of `n` rows whose ids differ in length. */
  function LogOf(n: nat, e: Event): (rows: seq<Row>)
    ensures |rows| == n
    ensures forall i :: 0 <= i < n ==> rows[i] == Row(Marks(i + 1), e, 0, i + 1)
  {
    if n == 0 then [] else LogOf(n - 1, e) + [Row(Marks(n), e, 0, n)]
  }

  lemma {:induction false} LogIsLive(n: nat, e: Event)
    ensures Live(LogOf(n, e))
  {
    hide Marks;
  }

  lemma {:induction false} EverythingSelectsAll(rows: seq<Row>, after: nat)
    requires forall i :: 0 <= i < |rows| ==> rows[i].rowSeq > after
    ensures SelectAfter(rows, EVERYTHING, after) == rows
  {
    if rows != [] {
      assert forall i :: 0 <= i < |rows[1..]| ==> rows[1..][i] == rows[i + 1];
      EverythingSelectsAll(rows[1..], after);
    }
  }

  /** So of a log of more than 500 rows, 501 for one, a stream opened without a filter is given the first 500
      and never the last. */
  lemma {:induction false} RowsBehindThePageAreNotWritten(n: nat, e: Event, l: string)
    requires n > 500
    ensures var st := State(LogOf(n, e), map[], map[], map[], map[], map[], map[]);
      var written := Sent(Apply(st, OpenSse(l, EVERYTHING)).given, l);
      && Live(st.rows) && |History(st.rows, EVERYTHING)| == n
      && History(st.rows, EVERYTHING)[499] in written && History(st.rows, EVERYTHING)[n - 1] !in written
  {
    hide Marks, LogOf, Live, Filter.Matches, SelectAfter, GetPage;
    var rows := LogOf(n, e);
    LogIsLive(n, e);
    EverythingSelectsAll(rows, 0);
    PageHoldsFirstRows(rows, EVERYTHING, n - 1);
    PageHoldsFirstRows(rows, EVERYTHING, 499);
  }

  /** The stream's own filter holds back nothing that the query has let through. */
  lemma {:induction false} SelectedRowsAreSent(rows: seq<Row>, f: Filter, i: nat)
    requires i < |GetPage(rows, f).events|
    ensures SseWants(f, GetPage(rows, f).events[i].event)
  {
    var row := GetPage(rows, f).events[i];
    assert row == Select(rows, f)[i];
    InSelect(rows, f, After(rows, f), row);
  }

  lemma {:induction false} StoredOfNext(rows: seq<Row>, i: nat)
    requires i < |rows|
    ensures StoredOf(rows[..i + 1]) == StoredOf(rows[..i]) + [Stored(rows[i].id, rows[i].event)]
  {
    hide StoredOf;
  }

  // ---------------------------------------------------------------- the broker itself

  /** The broker object and the store it publishes into. `notes`, `replays`, `inFlight` and `given`
      record what its asynchronous functions have sent and are still waiting for. */
  class EventBroker {
    const store: Store
    var subscribers: map<string, set<string>>
    var rawListeners: map<string, Filter>
    var replays: map<nat, Replay>
    var inFlight: map<nat, Stored>
    var notes: map<string, seq<Stored>>
    var given: map<string, seq<Stored>>

    ghost function Value(): State
      reads this, store
    {
      State(store.rows, subscribers, notes, replays, inFlight, rawListeners, given)
    }

    constructor (store: Store)
      ensures this.store == store
      ensures Value() == State(store.rows, map[], map[], map[], map[], map[], map[])
    {
      this.store := store;
      subscribers, rawListeners, replays, inFlight, notes, given := map[], map[], map[], map[], map[], map[];
    }

    method RegisterSession(session: string)
      modifies this
      ensures Value() == Apply(old(Value()), Register(session))
    {
      if session !in subscribers {
        subscribers := subscribers[session := {}];
      }
    }

    method RemoveSession(session: string)
      modifies this
      ensures Value() == Apply(old(Value()), Remove(session))
    {
      subscribers := subscribers - {session};
    }

    /** Fails for an unknown session; otherwise reports all kinds now subscribed to. */
    method AddKinds(session: string, kinds: seq<string>) returns (r: Result<set<string>, string>)
      modifies this`subscribers
      ensures r.Success? <==> session in old(subscribers)
      ensures r.Success? ==> r.value == old(subscribers)[session] + KindSet(kinds)
      ensures subscribers == if r.Success? then old(subscribers)[session := r.value] else old(subscribers)
    {
      if session !in subscribers {
        return Failure("Unknown session " + session);
      }
      var all := subscribers[session];
      for i := 0 to |kinds|
        invariant all == subscribers[session] + KindSet(kinds[..i])
      {
        assert kinds[..i + 1] == kinds[..i] + [kinds[i]];
        all := all + {kinds[i]};
      }
      assert kinds[..|kinds|] == kinds;
      subscribers := subscribers[session := all];
      r := Success(all);
    }

    method UnsubscribeKinds(session: string, dropped: seq<string>)
      modifies this
      ensures Value() == Apply(old(Value()), Unsubscribe(session, dropped))
    {
      if session !in subscribers {
        return;
      }
      if dropped == [] {
        subscribers := subscribers[session := {}];
        return;
      }
      var left := subscribers[session];
      for i := 0 to |dropped|
        invariant left == subscribers[session] - KindSet(dropped[..i])
      {
        assert dropped[..i + 1] == dropped[..i] + [dropped[i]];
        left := left - {dropped[i]};
      }
      assert dropped[..|dropped|] == dropped;
      subscribers := subscribers[session := left];
    }

    method HasSubscription(session: string, kind: string) returns (r: bool)
      ensures r <==> session in subscribers && (kind in subscribers[session] || "*" in subscribers[session])
    {
      r := session in subscribers && (kind in subscribers[session] || "*" in subscribers[session]);
    }

    method SendNext(r: nat)
      requires r in replays
      modifies this
      ensures Value() == Advance(old(Value()), r)
    {
      var replay := replays[r];
      if replay.queue == [] {
        replays := replays - {r};
      } else {
        notes := notes[replay.session := Sent(notes, replay.session) + [replay.queue[0]]];
        replays := replays[r := replay.(queue := replay.queue[1..])];
      }
    }

    /** `subscribe_to_events`, up to its first wait: the kinds, the backlog and its first event. */
    method SubscribeToEvents(session: string, kinds: seq<string>, since: Option<string>, r: nat)
      modifies this
      ensures Value() == Apply(old(Value()), Subscribe(session, kinds, since, r))
    {
      var added := AddKinds(session, kinds);
      if added.Failure? || since.None? || since.value == "" {
        return;
      }
      var page := store.GetEvents(ReplayFilter(since.value, kinds));
      replays := replays[r := Replay(session, StoredOf(page.events))];
      SendNext(r);
    }

    /** A replay goes on after its last notification settled, or drops the session if it failed. */
    method ReplayContinues(r: nat, ok: bool)
      modifies this
      ensures Value() == Apply(old(Value()), ReplayNext(r, ok))
    {
      if r !in replays {
        return;
      }
      if ok {
        SendNext(r);
      } else {
        subscribers := subscribers - {replays[r].session};
        replays := replays - {r};
      }
    }

    /** `publish` up to its wait for the deliveries. The insert can fail (`persistable` is false, or the
        id is taken); subscribers are notified all the same. */
    method PublishEvent(id: string, e: Event, now: int, persistable: bool, flight: nat)
      requires Live(store.rows) && (store as object) != this
      modifies this, store
      ensures Live(store.rows)
      ensures Value() == Apply(old(Value()), Publish(id, e, now, persistable, flight))
    {
      if persistable {
        var _ := store.AppendEvent(id, e, now);
      }
      var x := Stored(id, e);
      NotifySubscribers(x);
      inFlight := inFlight[flight := x];
    }

    /** The loop of `fanout` over the subscribers. */
    method NotifySubscribers(x: Stored)
      modifies `notes
      ensures notes == Fanout(subscribers, old(notes), x)
    {
      ghost var before := notes;
      var left := subscribers.Keys;
      while left != {}
        invariant left <= subscribers.Keys
        invariant forall s :: s in notes <==> s in before || (s in subscribers && s !in left && Wants(subscribers[s], x.event))
        invariant forall s :: s in notes ==>
          notes[s] == Sent(before, s) + if s in subscribers && s !in left && Wants(subscribers[s], x.event) then [x] else []
        decreases left
      {
        var s :| s in left;
        if x.event.kind in subscribers[s] || "*" in subscribers[s] {
          notes := notes[s := Sent(notes, s) + [x]];
        }
        left := left - {s};
      }
    }

    /** The rest of `publish`, once every delivery has settled. */
    method DeliveriesSettled(flight: nat)
      modifies this
      ensures Value() == Apply(old(Value()), FanoutSettled(flight))
    {
      if flight in inFlight {
        CallRawListeners(inFlight[flight]);
        inFlight := inFlight - {flight};
      }
    }

    /** The loop of `publish` over the raw listeners; each one filters for itself. */
    method CallRawListeners(x: Stored)
      modifies `given
      ensures given == FanoutRaw(rawListeners, old(given), x)
    {
      ghost var before := given;
      var left := rawListeners.Keys;
      while left != {}
        invariant left <= rawListeners.Keys
        invariant forall l :: l in given <==> l in before || (l in rawListeners && l !in left && SseWants(rawListeners[l], x.event))
        invariant forall l :: l in given ==>
          given[l] == Sent(before, l) + if l in rawListeners && l !in left && SseWants(rawListeners[l], x.event) then [x] else []
        decreases left
      {
        var l :| l in left;
        SendFrame(l, rawListeners[l], x);
        left := left - {l};
      }
    }

    /** `send`: writes a frame unless the stream's own filter holds it back. */
    method SendFrame(listener: string, f: Filter, x: Stored)
      modifies `given
      ensures given == if SseWants(f, x.event) then old(given)[listener := Sent(old(given), listener) + [x]] else old(given)
    {
      if f.kinds != [] && "*" !in f.kinds && x.event.kind !in f.kinds {
        return;
      }
      if f.sourceAgent.Some? && f.sourceAgent.value != "" && x.event.sourceAgent != f.sourceAgent.value {
        return;
      }
      given := given[listener := Sent(given, listener) + [x]];
    }

    /** The history of a stream, each row past the stream's own filter. */
    method SendHistory(listener: string, f: Filter)
      modifies `given
      ensures given == old(given)[listener := StoredOf(GetPage(store.rows, f).events)]
    {
      hide SseWants;
      var page := store.GetEvents(f);
      ghost var before := given;
      given := given[listener := []];
      for i := 0 to |page.events|
        invariant given == before[listener := StoredOf(page.events[..i])]
      {
        var row := page.events[i];
        SelectedRowsAreSent(store.rows, f, i);
        StoredOfNext(page.events, i);
        SendFrame(listener, f, Stored(row.id, row.event));
      }
      assert page.events[..|page.events|] == page.events;
    }

    /** `/events/sse`: the history, then the live events. */
    method OnEventStream(listener: string, f: Filter)
      modifies this
      ensures Value() == Apply(old(Value()), OpenSse(listener, f))
    {
      SendHistory(listener, f);
      rawListeners := rawListeners[listener := f];
    }
  }
}
