# Verified model of stavR's stateful protocols and exact algorithms

This project models the parts of stavR whose correctness is hard to see from one function: the event log
with its retention sweep and cursor paging, the broker and its snapshot-then-live subscriptions, the `/mcp`
session lifecycle, the Governor's restart state machine and toast router, Server-Sent Events as one printer
and three readers, the CSV and JSON encoders, the glob compiler of the no-go list, the critical path of a plan,
the least-squares slope of the soak rig, the seeded random streams, the decision store and the pairing windows.

How it is built:

- One module per component. Code that updates state in place is a `class` whose methods are proved equal to a
  step function of the old state; loops in the source are loops here. Everything said about runs is then a lemma
  about sequences of steps, over every interleaving the guards allow.
- A step of the daemon is the code between two `await`s. What the code cannot choose is a parameter of the
  step: clock readings, fresh ids, drawn pairing codes, whether a delivery or an insert fails.
- Histories say what a run *did*: restarts admitted, toasts rendered, windows opened, answers accepted, timers
  set. The lemmas say when the fields the code keeps agree with them.
- `hide` statements keep each proof to the definitions it needs; they do not change what is proved.

| file | models |
|---|---|
| `GovernorState.dfy` | governor/src/state.rs |
| `EventRouter.dfy` | governor/src/event_router.rs |
| `SseFraming.dfy`, `Strings.dfy` | the SSE writers of src/transports.ts, governor/src/event_bridge.rs, src/tail.ts, src/steward-ask-cli.ts |
| `EventStore.dfy` | the event table of src/persistence.ts |
| `Broker.dfy` | src/broker.ts, `subscribe_to_events` of src/server.ts, `/events/sse` of src/transports.ts |
| `McpSessions.dfy` | the `/mcp` handlers, sweep and janitor of src/transports.ts |
| `Decisions.dfy` | decisions and their awaiters in src/persistence.ts, src/security/respond-policy.ts |
| `Pairing.dfy` | src/pairing.ts and the `/pair` endpoints of src/transports.ts |
| `CsvExport.dfy`, `JsonBody.dfy` | the CSV export of src/transports.ts; governor/src/heartbeat.rs |
| `GlobRules.dfy` | the no-go matching of proposed/types.ts |
| `CriticalPath.dfy` | proposed/steward-planner.ts |
| `RssSlope.dfy` | bombardment/observability/growth-shape.ts |
| `SeedStreams.dfy` | bombardment/seed.ts |

Where the code and its own comments disagree, the model follows the code:

- governor/src/event_router.rs:102-105 says a muted event still updates the debounce table; `route` returns
  before touching it (`EventRouter.MutedEventsLeaveNoTrace`).
- bombardment/seed.ts:8-9 says two streams never collide; they do whenever two FNV-1a hashes do, which happens
  already for names of two characters (`SeedStreams.SomeStreamsCollide`), and all streams run through one cycle
  of states (`SeedStreams.EveryStreamCatchesUp`).
- proposed/types.ts:370 says `*` matches any characters; it does not match line terminators
  (`GlobRules.LoneStarMatchesOneLine`).
- src/transports.ts:950-954 says the sweep looks for a session left in either map; it looks at `sseSessions` only,
  and not at all when the close came before the transport had an id (`McpSessions.ClosedBeforeAdoptionIsNotSwept`).
  It also leaves the keepalive timer of the session it removes running
  (`McpSessions.ClosedDuringInitIsSweptButKeepsTimer`). Exactly when a timer runs and a sweep is armed is among
  `McpSessions.MarksHoldExactlyWhen`.
- src/transports.ts:1054-1058 says a throw during session setup is torn down; a throw of `server.connect` itself
  comes before there is a session to tear down, and leaves a subscriber behind (`McpSessions.DrainReturnsToBaseline`
  counts these).
- src/persistence.ts:825-832 reads a cursor whose event has been pruned as no cursor at all
  (`EventStore.PrunedCursorRestarts`).

## Model

| member | source | states |
|---|---|---|
| `GovernorState.AttemptsTrackHistory` | governor/src/state.rs:307-348 | over every run with a non-decreasing clock the attempt deque is a sorted suffix, of at most five entries, of all restarts admitted since the last reset, and what it dropped is out of the 300 s window |
| `GovernorState.GiveUpExactlyAtThreshold` | governor/src/state.rs:307-318 | a restart request enters GiveUp exactly when five admitted attempts of the full history lie within the last 300 s; then nothing is recorded |
| `GovernorState.AdmittedRestartsAreSpaced` | governor/src/state.rs:307-348 | between resets, the (i+5)-th admitted restart is more than 300 s after the i-th |
| `GovernorState.PrunedCountsHistory` | governor/src/state.rs:340-348 | the pruned deque holds exactly the attempts of the full history that are still in the window |
| `GovernorState.MarksTrackHistory` | governor/src/state.rs:172-254 | over every run the settle-window, streak, last-answer and state marks are those of a history computed from the inputs alone: last boot, reset or admitted restart, last entry into Healthy, last heeded answer, unreachable streak, operator hold |
| `GovernorState.StateIsVerdict` | governor/src/state.rs:235-367 | over every run the state itself, the time it last changed, the last probe and the backoff step are those the inputs decide |
| `GovernorState.DownEnteredExactlyWhen` | governor/src/state.rs:276-297 | by the history of the inputs, a machine not in Down enters it exactly on an unreachable probe with no operator hold, after three in a row or 30 s without an answer, with the settle window left by a Healthy entry since the last reference or fully elapsed |
| `GovernorState.LeavingSettleWindowIsPermanent` | governor/src/state.rs:181-190 | once left, the settle window stays left until the next restart or reset |
| `GovernorState.ThreeUnreachableEndInDown` | governor/src/state.rs:276-297 | from any state not operator-held three unreachable probes, the last outside the window, end in Down |
| `GovernorState.UnreachableKeepsDown` | governor/src/state.rs:276-297 | from every Down a run can reach, by the streak or by the 30 s route, further unreachable probes keep the machine in Down |
| `GovernorState.AnswerEndsOutage` | governor/src/state.rs:235-275 | an answer resets the streak; a good one ends an outage, leaves the settle window and resets the backoff, and two unreachable probes within 30 s of it do not bring Down |
| `GovernorState.ProbesNeverClearOperatorHold` | governor/src/state.rs:258-264 | probes never leave an operator-held state nor count towards a streak |
| `GovernorState.BackoffClimbsTheLadder` | governor/src/state.rs:323-337 | in every run, whatever restarts and bad probes come between, the wait is one second doubled by each failed attempt since the daemon was last well or reset, and at most a minute |
| `GovernorState.StateMachine.RecordProbe` | governor/src/state.rs:258-299 | the method's new state and reported change are those of the step function |
| `GovernorState.StateMachine.StartRestart` | governor/src/state.rs:307-318 | likewise for a restart request, with the pruning loop |
| `GovernorState.StateMachine.PruneAttempts` | governor/src/state.rs:340-348 | the loop drops exactly the attempts the specification drops |
| `GovernorState.StateMachine.Reset` | governor/src/state.rs:359-367 | the operator's reset, as a fresh boot |
| `EventRouter.RenderedExactlyWhenClear` | governor/src/event_router.rs:187-221 | under a non-decreasing clock an event is rendered exactly when it concerns the operator, no mute still standing reaches past now, and no rendered toast of its kind is under 10 s old |
| `EventRouter.RelevantExactlyWhen` | governor/src/event_router.rs:61-179 | the fourteen kinds worth a toast, by severity; of workers that terminated only those that did not just complete |
| `EventRouter.ToastsOfAKindAreSpaced` | governor/src/event_router.rs:205-218 | rendered toasts of one kind are at least 10 s apart |
| `EventRouter.NoToastBeforeMuteEnd` | governor/src/event_router.rs:192-204 | no toast before the end of any mute asked for since the last unmute |
| `EventRouter.MuteEndIsLatest` | governor/src/event_router.rs:141-155 | the stored mute end is the maximum requested since the last unmute |
| `EventRouter.TableHoldsLastToasts` | governor/src/event_router.rs:205-218 | the debounce table holds for each kind the time of its last rendered toast |
| `EventRouter.MutedEventsLeaveNoTrace` | governor/src/event_router.rs:192-204 | the run without the events that arrived under a mute ends in the same state and shows the same toasts |
| `EventRouter.Router.RouteEvent` | governor/src/event_router.rs:187-221 | renders exactly when the history says so, and extends it by this call |
| `EventRouter.Router.MuteUntil` | governor/src/event_router.rs:141-148 | the later of the two ends wins |
| `EventRouter.Router.IsMuted` | governor/src/event_router.rs:158-164 | true exactly when a standing mute request reaches past now |
| `SseFraming.ReadersSeeTheSameBlocks` | governor/src/event_bridge.rs:212-249 | on every stream without a carriage return the line reader and the blank-line splitter see the same named blocks |
| `SseFraming.ReadersRecoverWhatWasWritten` | src/transports.ts:2893-2899 | both block readers recover every frame written, comments apart |
| `SseFraming.DashboardRoundTrip` | src/transports.ts:2932-2938 | the ask reader recovers every pair exactly when no name has JavaScript whitespace at an end and no data at the start; the Governor exactly when none starts with Unicode white space |
| `SseFraming.OneEventRoundTrip` | governor/src/event_bridge.rs:241-245 | the same for one event, as an if-and-only-if |
| `SseFraming.TailRecoversWhatWasWritten` | src/tail.ts:156-176 | the tail reader recovers the data of every frame, dropping only comments and empty data |
| `SseFraming.TailChunksDoNotMatter` | src/tail.ts:156-176 | events, accumulator and remainder do not depend on how the stream is cut into chunks |
| `SseFraming.AskChunksDoNotMatter` | src/steward-ask-cli.ts:81-89 | a longer buffer parses to the shorter one's events and then those its remainder completes |
| `SseFraming.TruncationYieldsPrefix` | src/steward-ask-cli.ts:128-142 | the blank-line splitter parses every truncated stream to a prefix, and so does the line reader on streams without a carriage return |
| `SseFraming.TruncationIsSafeExactlyWhen` | governor/src/event_bridge.rs:217-236 | for every stream, carriage returns included, the line reader's parse of a cut is a prefix of every continuation exactly when the cut is not behind carriage returns that begin a line while a named block is pending |
| `SseFraming.CarriageReturnBreaksTruncation` | governor/src/event_bridge.rs:217-236 | inputs where the line reader does not: for every event line, a cut right behind a lone carriage return |
| `SseFraming.ShownExactly` | src/steward-ask-cli.ts:90-114 | shown are, in order, exactly the events that are no pings and have no answer before them |
| `SseFraming.ShownStopsAtAnswer` | src/steward-ask-cli.ts:90-114 | nothing after the first answer changes what is shown |
| `SseFraming.SpacesDifferInTwo` | src/steward-ask-cli.ts:128-142 | the readers' languages trim the same listed characters but two: U+FEFF in JavaScript alone, U+0085 in Rust alone |
| `SseFraming.StreamSse` | src/tail.ts:147-180 | the chunk loop computes what reading the whole stream at once gives |
| `SseFraming.StreamResponse` | src/steward-ask-cli.ts:68-126 | the chunk loop shows what parsing the whole stream at once shows |
| `SseFraming.ParseSseChunks` | src/steward-ask-cli.ts:128-142 | the nested loops fill in the events of the complete blocks and return the remainder |
| `SseFraming.ReadLoop` | governor/src/event_bridge.rs:212-249 | the line loop forwards the broker events of the stream's named blocks, in order |
| `SseFraming.ForwardedExactly` | governor/src/event_bridge.rs:251-255 | what the loop forwards is, in order, the data of exactly the parsed events named `event` |
| `SseFraming.BrokerEventsArrive` | src/transports.ts:2932-2943 | from the daemon's frames to the Governor's sink: in order, the data of exactly the frames that name a broker event arrive |
| `EventStore.AppendKeepsLive` | src/persistence.ts:785-812 | an append puts its row behind every live one, so live sequence numbers stay unique and in insertion order |
| `EventStore.SweepSurvivors` | src/persistence.ts:891-975 | survivors of a sweep are exactly the unknown kinds, the audit rows not older than their cutoff, and the unexpired operational rows the cap spares |
| `EventStore.SweepKeepsNewest` | src/persistence.ts:891-975 | no dropped capped row is newer than a kept one, and exactly the cap's worth of operational rows, or all of fewer, survive |
| `EventStore.SweepIsIdempotent` | src/persistence.ts:891-975 | a second sweep at the same clock changes nothing |
| `EventStore.SweepReportsAddUp` | src/persistence.ts:891-975 | the reported deletions are the rows before minus the rows after |
| `EventStore.SeqIsReusedExactlyWhenNewestGoes` | src/persistence.ts:809-812 | right after a sweep, and against the log it swept, the next sequence number is not above the last one exactly when the sweep took the newest row |
| `EventStore.PageIsExactlyTheFirst` | src/persistence.ts:814-877 | a page is, in log order, the first rows, up to the limit of 500 unless asked and never above 5000, that come after the cursor's row and meet the time, kind, source and tenant asked for; `has_more` exactly when there are others |
| `EventStore.OutsidersDoNotMatter` | src/persistence.ts:834-850 | with any rows of other tenants, sources or kinds, or of earlier times, deleted from the log, a query gets the same page |
| `EventStore.NextCursor` | src/persistence.ts:814-877 | the id of a page's last event continues exactly behind that page, in this log and every later one |
| `EventStore.PagesConcatenate` | src/persistence.ts:814-877 | pages taken while the log grows concatenate to a prefix of the final filtered log, and once a page says there is no more they are everything the log it was read from holds after the first cursor |
| `EventStore.PagingIsComplete` | src/persistence.ts:814-877 | with any limit of at least one, paging ends after the ceiling of matches over page size and yields every match once, in order |
| `EventStore.PrunedCursorRestarts` | src/persistence.ts:825-832 | after a sweep and any appends a query is answered with exactly what was inserted after the cursor's row when that row is live or nothing that matches is left at or before its place, and only then |
| `EventStore.PrunedCursorRepeats` | src/persistence.ts:825-832 | a log of two whose newer row, the cursor, is pruned: the older one is returned again |
| `EventStore.ReusedNumberIsHonoured` | src/persistence.ts:785-832 | a log of one, pruned and appended to: the new row gets the old number and is returned |
| `EventStore.Store.AppendEvent` | src/persistence.ts:785-812 | the new table, or its refusal of a repeated id |
| `EventStore.Store.GetEvents` | src/persistence.ts:814-877 | a scan for up to one row more than the limit, cut to the page: the page and its `has_more` |
| `EventStore.Store.SelectOldest` | src/persistence.ts:915-927 | the loop picks the k oldest rows of the given kinds |
| `EventStore.Store.PruneEvents` | src/persistence.ts:891-975 | the sweep's new table and its reported numbers |
| `Broker.SubscriptionSeesBacklogThenLive` | src/server.ts:492-504 | over every interleaving, also with further subscriptions without a cursor and drops of other kinds, what a healthy subscription was sent plus what its replay still holds is the backlog at subscription plus everything published since |
| `Broker.GapFreeAndDuplicateFree` | src/broker.ts:177-227 | once the replay is over, with at most 500 missed, every matching event is notified exactly once |
| `Broker.BacklogIsEverythingMissedUpToLimit` | src/broker.ts:209-227 | the replay covers everything missed exactly when at most 500 events were |
| `Broker.DuplicatesComeFromEarlierSubscriptions` | src/broker.ts:92-97 | over the session's life an event is notified once exactly when it had not been notified before |
| `Broker.StepKeepsDue` | src/broker.ts:115-227 | one step leaves what a session is due alone, except a publish of its kinds, which adds exactly that event |
| `Broker.SseIsAtLeastOnce` | src/transports.ts:1083-1127 | with nothing of the history in flight or published, every matching row is written exactly if the matching rows fit one page |
| `Broker.SseWrites` | src/transports.ts:1083-1127 | the k-th matching row is written once if it is on the first page, once more for each publish of it in flight when the stream was opened, and once more for each later publish |
| `Broker.RowsBehindThePageAreNotWritten` | src/transports.ts:1115-1122 | of a log of more than 500 rows a stream without a filter is never given the last |
| `Broker.SelectedRowsAreSent` | src/transports.ts:1103-1122 | the stream's own filter holds back nothing the query let through |
| `Broker.RunKeepsDeliveries` | src/broker.ts:115-170 | over a run a listener's deliveries of an event grow exactly with the publishes of it |
| `Broker.MarksHoldExactlyWhen` | src/broker.ts:62-227 | over every run of a fresh broker: an event is logged exactly when its insert succeeded and nothing pruned it since, and a session is registered, or subscribed to a kind, a publish in flight, a listener connected exactly from the step that said so to the first that ended it |
| `Broker.NotesAreWhatWasSent` | src/broker.ts:177-227 | over every run each session, healthy or not, has been sent exactly the publishes of kinds it was then subscribed to and the events its replays came to, in order |
| `Broker.LogIsWhatWasPublished` | src/broker.ts:123 | while nothing is pruned the log grows by exactly the persisted publishes, in their order |
| `Broker.LaterSubscriptionsMissThePublished` | src/broker.ts:115-227 | what a later subscription has missed is what it would have missed before, and then every persisted publish of its kinds |
| `Broker.ReplayRunsItsCourse` | src/broker.ts:215-225 | a replay lasts exactly until a notification of it fails or it has nothing left, and takes its events from the front |
| `Broker.ReplayDrains` | src/broker.ts:209-227 | a healthy replay is over exactly after as many continuations as there are events behind the first |
| `Broker.GivenStep` | src/transports.ts:1103-1127 | a raw listener is given its page of the log on opening, and then exactly the settled publishes whose sender and kind it asked for |
| `Broker.EventBroker.SubscribeToEvents` | src/server.ts:481-505 | kinds, backlog and first replayed event in one step |
| `Broker.EventBroker.PublishEvent` | src/broker.ts:115-207 | append and choice of the subscribers in one step, whether or not the insert fails |
| `Broker.EventBroker.NotifySubscribers` | src/broker.ts:189-205 | the loop over the subscribers sends the event to exactly those subscribed to its kind or to all |
| `Broker.EventBroker.DeliveriesSettled` | src/broker.ts:150-170 | raw listeners are called, in a loop, only after every delivery settled |
| `Broker.EventBroker.CallRawListeners` | src/broker.ts:168-170 | the loop over the raw listeners gives the event to exactly those whose filter lets it through |
| `Broker.EventBroker.OnEventStream` | src/transports.ts:1083-1127 | the history, row by row past the stream's filter, then the live listener |
| `McpSessions.SubscribersAreAccountedFor` | src/transports.ts:757-1079 | in every interleaving each subscriber belongs to a running handler, a listed session or stdio, or to a handler whose `server.connect` threw, and none of them was closed |
| `McpSessions.DrainReturnsToBaseline` | src/transports.ts:870-1079 | once handlers and listed sessions are gone, the subscriber count is back at its baseline exactly when no connect threw |
| `McpSessions.ThrownConnectLeaks` | src/transports.ts:870-875 | a run of two steps that drains and leaves a subscriber behind |
| `McpSessions.TeardownIsFinal` | src/transports.ts:914-1069 | a session torn down after its handler is in neither table for good, whatever follows |
| `McpSessions.EveryTeardownPathWorks` | src/transports.ts:757-1069 | `onclose`, DELETE, sweep and janitor each take a listed session out of both tables, and so does a throw during the first handler |
| `McpSessions.MarksHoldExactlyWhen` | src/transports.ts:757-1271 | over every run each mark of the state (subscribed, listed under an id, phase, adopted id, keepalive timer, closed, sweep armed, each call started, in flight, delivered, abandoned) holds exactly when some step set it and none since cleared it |
| `McpSessions.SubscribedExactlyWhileServed` | src/transports.ts:870-1079 | a session never closed nor dropped by the fanout is subscribed exactly while its handler runs, its connect threw, or it is listed |
| `McpSessions.ClosedDuringInitIsSweptButKeepsTimer` | src/transports.ts:950-1018 | in every run in which a session was closed after adoption while its first handler ran, the handler's return lists it with no subscriber, and the sweep takes it out and leaves its keepalive timer running |
| `McpSessions.SweptWithTimerRunning` | src/transports.ts:955-1018 | a run from the start that ends with the session swept and its timer running |
| `McpSessions.ClosedBeforeAdoptionIsNotSwept` | src/transports.ts:927-957 | in no run is a session swept all of whose closes came before the SDK adopted its id |
| `McpSessions.ListedWithNoSweepArmed` | src/transports.ts:927-993 | a run from the start that ends with the session listed, nobody subscribed under it and no sweep armed |
| `McpSessions.EveryCallIsCountedOnce` | src/transports.ts:881-926 | calls started are calls delivered plus calls counted abandoned plus calls in flight, and no call is in two of these |
| `McpSessions.StepKeepsListings` | src/transports.ts:992-995 | a listed session is known by the transport id it is listed under and its handler is done |
| `McpSessions.JanitorClearsExactly` | src/transports.ts:1224-1271 | a janitor pass tears down exactly the destroyed entries, in any order |
| `McpSessions.Daemon.HandlerReturned` | src/transports.ts:992-1052 | lists an adopted session and starts its timer, releases a one-shot one |
| `McpSessions.Daemon.HandlerThrew` | src/transports.ts:1053-1070 | the catch block's new tables |
| `McpSessions.Daemon.CountAbandoned` | src/transports.ts:918-926 | the loop counts what is in flight once each and empties it |
| `McpSessions.Daemon.Closed` | src/transports.ts:914-979 | the close handler's new tables |
| `McpSessions.Daemon.Sweep` | src/transports.ts:955-960 | forces the entry out exactly when it is still listed |
| `McpSessions.Daemon.DeleteMcp` | src/transports.ts:757-795 | the 404 answer or the synchronous teardown |
| `McpSessions.Daemon.JanitorPass` | src/transports.ts:1224-1271 | the loop over the destroyed entries |
| `Decisions.AnsweredAtMostOnce` | src/persistence.ts:1118-1202 | in any interleaving a decision is answered at most once, and its row holds that answer ever after |
| `Decisions.ClosedRowsNeverChange` | src/persistence.ts:1118-1217 | responded and expired are absorbing |
| `Decisions.StoredAnswersAreLegitimate` | src/persistence.ts:1140-1192 | every stored answer is an offered option, by `switch-default` or by an operator who is not the known requester |
| `Decisions.AcceptedExactlyWhen` | src/persistence.ts:1118-1217 | by the history alone: a response is accepted exactly when the decision was created, the answer is an offered option by `switch-default` or by a caller `mayRespond` accepts, no such answer came before, and no sweep came after the deadline |
| `Decisions.RefusedExactlyWhen` | src/persistence.ts:1118-1192 | by the history alone, which refusal a response meets: never created, closed first by an answer or by an overdue sweep, or open and not offered, asked for by the responder, or not by an operator |
| `Decisions.OnlyOverdueRowsExpire` | src/persistence.ts:1204-1217 | an expired decision was swept after its deadline |
| `Decisions.AwaitersSettleOnceAndAgree` | src/persistence.ts:1093-1116 | every awaiter settles at most once, has its timer armed until then, agrees with the stored row, and never sleeps through an answer with a non-empty option id |
| `Decisions.WaitsEndAsTheyShould` | src/persistence.ts:1093-1116 | by the history alone, every wait is for the decision it was asked for, over at once after a named answer, and else ended by the first of the answer and its timer |
| `Decisions.ResolvedAwaitersAgree` | src/persistence.ts:1093-1116 | all awaiters of a decision that resolve get the same answer |
| `Decisions.SettledIsFinal` | src/persistence.ts:1106-1115 | no later step touches a settled promise |
| `Decisions.NamedAnswersReachEveryAwaiter` | src/tools/decisions.ts:23 | in every run whose decisions offer no empty option id, as the tools that create them demand, every awaiter of a responded decision has settled |
| `Decisions.LateAwaitersResolveIffNamed` | src/persistence.ts:1095-1104 | by the store alone, awaiting a responded decision resolves at once exactly when the chosen option id is not the empty string |
| `Decisions.StrandedUntilTimer` | src/persistence.ts:1095-1115 | by the store alone, an awaiter left pending on a responded decision stays pending until its timer fires |
| `Decisions.DecisionStore.CreateDecision` | src/persistence.ts:1022-1049 | inserts an open row, or is refused by the primary key |
| `Decisions.DecisionStore.RespondToDecision` | src/persistence.ts:1118-1202 | the refusal in the code's order, else the row updated and all listeners woken |
| `Decisions.DecisionStore.EmitResponse` | src/persistence.ts:1106-1115 | each listener of the decision is called once, clears its timer and resolves |
| `Decisions.DecisionStore.SweepExpiredDecisions` | src/persistence.ts:1204-1217 | expires exactly the overdue open rows and returns them |
| `Decisions.DecisionStore.AwaitDecisionResponse` | src/persistence.ts:1093-1116 | resolves at once or registers listener and timer |
| `Pairing.PairsExactlyOnStandingWindow` | src/pairing.ts:84-100 | a device is paired exactly when the latest opening of its code is unused, not cleared and under five minutes old |
| `Pairing.RegistryAgreesWithHistory` | src/pairing.ts:58-118 | the lazily swept registry agrees with the history after every step of every run |
| `Pairing.SweptRegistryIsExact` | src/pairing.ts:113-117 | after a sweep it holds exactly the standing windows whose time is not over |
| `Pairing.SweepsKeepTheGoodOnly` | src/pairing.ts:58-118 | after every step that looks at the clock, its own changes included, the registry holds exactly the good windows |
| `Pairing.LiveCodesAreNotReissued` | src/pairing.ts:62-75 | no code is handed out while a window under it is good |
| `Pairing.DevicesNeverExceedWindows` | src/transports.ts:430-485 | devices paired plus windows pending never exceed windows opened |
| `Pairing.DevicesAreThoseThatPaired` | src/transports.ts:447-485 | there are exactly as many devices as completions that named a device and a code with a standing window under five minutes old |
| `Pairing.IssuesTheFirstFree` | src/pairing.ts:62-75 | by the history, the code handed out is the first drawn without a good window, and the request fails only when all ten have one |
| `Pairing.PaddingMakesNoDifference` | src/transports.ts:449-450 | white space around code and device name changes nothing |
| `Pairing.PendingPairingRegistry.OpenWindow` | src/pairing.ts:62-75 | the first free one of ten drawn codes, or failure when all are taken |
| `Pairing.PendingPairingRegistry.Consume` | src/pairing.ts:84-100 | the full comparison loop finds the code exactly when it is pending and unexpired, and uses it up |
| `Pairing.PendingPairingRegistry.CollectExpired` | src/pairing.ts:113-117 | the loop deletes exactly the expired entries |
| `Pairing.Daemon.PairComplete` | src/transports.ts:447-485 | the three answers and the new device row |
| `CsvExport.ExportRoundTrip` | src/transports.ts:2819-2841 | a reader of RFC 4180 section 2 recovers the header and every event's eight fields, whatever strings they hold |
| `CsvExport.TableRoundTrip` | src/transports.ts:2820-2824 | the same for any table of arbitrary strings |
| `CsvExport.FieldRoundTrip` | src/transports.ts:2820-2824 | every string survives as a field and the reader stops where it ends |
| `CsvExport.ExportsDifferWhenFieldsDo` | src/transports.ts:2825-2840 | two exports are the same text exactly when all fields are |
| `CsvExport.Export` | src/transports.ts:2819-2841 | the writes of the loop add up to the specified text |
| `JsonBody.StringRoundTrip` | governor/src/heartbeat.rs:91-110 | a decoder of RFC 8259 section 7 recovers every string from its encoding, whatever follows it |
| `JsonBody.BodyRoundTrip` | governor/src/heartbeat.rs:73-86 | the body of every payload is a JSON object with its values under their names, in order |
| `JsonBody.BodyIsInjective` | governor/src/heartbeat.rs:73-86 | two payloads have the same body only if they are the same |
| `JsonBody.JsonString` | governor/src/heartbeat.rs:91-110 | the loop pushes the specified encoding |
| `JsonBody.ToJsonBody` | governor/src/heartbeat.rs:73-86 | the pushed pieces decode to the payload's members |
| `GlobRules.CompiledParsesToLiterals` | proposed/types.ts:369-377 | for every pattern the compiled text is a regular expression of anchors, the pattern's characters as literals, and an any-run per `*` |
| `GlobRules.GlobMeaning` | proposed/types.ts:369-377 | for every pattern and target, a match is exactly the literal segments in order with gaps free of line terminators |
| `GlobRules.PlainPatternIsItself` | proposed/types.ts:369-377 | a pattern without `*` matches itself only |
| `GlobRules.LoneStarMatchesOneLine` | proposed/types.ts:369-373 | `*` matches exactly the one-line targets |
| `GlobRules.FirstApplicableRule` | proposed/types.ts:356-367 | the result is the first enabled rule of the class whose glob matches |
| `GlobRules.AppendedRulesOnlyAdd` | proposed/types.ts:356-367 | appending rules never changes an existing match |
| `CriticalPath.Durations.Dur` | proposed/steward-planner.ts:340-347 | the memoised recursion ends and returns the weight of the heaviest dependency chain into the step; every memo entry is right |
| `CriticalPath.Durations.DurationSec` | proposed/steward-planner.ts:99 | for every plan without circles or missing dependencies, the duration is attained by some chain, bounds every chain and is at most the sum of all durations; no steps, no maximum |
| `CriticalPath.LongestThroughDeps` | proposed/steward-planner.ts:343-344 | the heaviest chain into a step goes through its heaviest dependency |
| `CriticalPath.ChainsAreDistinct` | proposed/steward-planner.ts:336-349 | chains never come back to a step |
| `CriticalPath.ChainsAreAtMostTheSum` | proposed/steward-planner.ts:336-349 | no chain outweighs the whole plan |
| `CriticalPath.EarlierStepsReturn` | proposed/steward-planner.ts:229 | dependencies on earlier steps only, as the prompt asks, form no circle, and the computation nests no deeper than the plan has steps |
| `CriticalPath.ReturnsIffAcyclic` | proposed/steward-planner.ts:340-347 | the recursion returns for every step exactly when all dependencies are steps of the plan and no chain of them comes back to a step |
| `CriticalPath.SelfDependencyNeverReturns` | proposed/steward-planner.ts:340-347 | a step that depends on itself is never done, and is a circle |
| `CriticalPath.EscalatesOnNewClassOnly` | proposed/steward-planner.ts:177-180 | a replan escalates exactly when one of its steps has a risk class no proposed step had |
| `CriticalPath.UniqueKeepsEachOnce` | proposed/steward-planner.ts:332-334 | the envelope holds each class of the plan once |
| `RssSlope.SumsArePairSums` | bombardment/observability/growth-shape.ts:61-70 | the denominator is the sum over pairs of squared time differences, the numerator of time times size differences |
| `RssSlope.NoSlopeIffSameTimes` | bombardment/observability/growth-shape.ts:69-70 | the denominator is never negative, and zero exactly when all times coincide |
| `RssSlope.SlopeIsBetweenPairSlopes` | bombardment/observability/growth-shape.ts:69-70 | what bounds all pairwise slopes, from either side, bounds the slope |
| `RssSlope.GrowthHasNoNegativeSlope` | bombardment/observability/growth-shape.ts:51-74 | memory that never shrinks has no negative slope |
| `RssSlope.LineGivesItsSlope` | bombardment/observability/growth-shape.ts:51-74 | samples on a line give its slope, unless taken at one time |
| `RssSlope.ShiftsDoNotMatter` | bombardment/observability/growth-shape.ts:55-62 | shifting all times or all sizes changes nothing |
| `RssSlope.SlopeIsLeastSquares` | bombardment/observability/growth-shape.ts:46-50 | of all lines, the one with this slope through the mean has the smallest sum of squared errors |
| `RssSlope.RssSlope` | bombardment/observability/growth-shape.ts:51-74 | the one-pass loop computes that slope; fewer than three samples give zero |
| `SeedStreams.StepIsInjective` | bombardment/seed.ts:59-62 | one hash step merges neither two running hashes nor two code units |
| `SeedStreams.OneUnitChangesStream` | bombardment/seed.ts:86-89 | names of one length that differ in one code unit have different streams under every seed |
| `SeedStreams.StreamsMeetIffHashesDo` | bombardment/seed.ts:86-89 | two names share a stream exactly when their hashes are equal |
| `SeedStreams.CommonSuffixDecidesNothing` | bombardment/seed.ts:57-64 | names that end alike collide exactly when what comes before does |
| `SeedStreams.SomeStreamsCollide` | bombardment/seed.ts:8-9 | two concrete names share their stream under every seed |
| `SeedStreams.StateIsLinear` | bombardment/seed.ts:71-73 | after k calls the state is seed + k * 0x6d2b79f5 modulo 2^32 |
| `SeedStreams.StatesRepeatEvery2To32` | bombardment/seed.ts:71-73 | two calls see one state exactly when their numbers agree modulo 2^32 |
| `SeedStreams.EveryStreamCatchesUp` | bombardment/seed.ts:81-90 | any stream, from some call on, is any other from its start |
| `SeedStreams.SeedsKeepStreamsApart` | bombardment/seed.ts:71-73 | at one call number, two streams are in one state exactly when their seeds are equal |
| `SeedStreams.Rng.Next` | bombardment/seed.ts:72-78 | one call's state and an output in [0, 1) |
| `SeedStreams.Rng.NextInt` | bombardment/seed.ts:96-98 | an integer in [0, max) |
| `SeedStreams.Fnv` | bombardment/seed.ts:57-64 | the loop computes the hash |
| `Strings.JoinUndoesSplit` | src/tail.ts:165-167 | joining undoes splitting, whatever the separator |
| `Strings.SplitAppend` | src/tail.ts:165-167 | splitting a longer text only continues the last part |
| `Strings.PartsHoldNoSeparator` | src/steward-ask-cli.ts:130-135 | no part holds the separator |

## Left out

- HTTP, Express, sockets, the MCP SDK, SQLite and timers: each appears as the steps it can cause, in any order. SQL statements are their meaning on the set or sequence of rows; a failing statement is modelled only where a caller handles it.
- Strings are sequences of Unicode scalar values, not UTF-16 code units, except in `SeedStreams`; instants are integers, and the ISO strings the database compares are taken to order as the instants they name.
- `SeedStreams.Rng.Next`: that the numbers a stream mixes out of its states look random; the mixing is stated as the code computes it.
- Floating point: `RssSlope` and the outputs of `SeedStreams` are over the reals.
- The dashboard pages, taps, gauges, metrics, trace spans and log lines; the `_writable` heuristic of the janitor is an arbitrary set of entries.
- The reconnect loops of src/tail.ts and src/shim.ts, and `run_forever` of governor/src/event_bridge.rs.
- JSON parsing of event payloads: a frame's data is a string throughout. `body_for_kind` and the titles of toasts.
- The retention kind tables and limits are parameters, assumed disjoint; the per-kind list of unknown kinds a sweep reports is not modelled.
- The random choices: pairing codes, device tokens, session ids and the wall-clock seed are arbitrary values, fresh where the code draws a random id.
- Jobs, workers, trust scopes and the planner's storage and pricing: no invariant beyond their tables is kept by the code.
- The event emitter's treatment of the event name `error`, which no decision id is.
- `McpSessions.EveryCallIsCountedOnce`: assumes a client does not reuse a call id within a session; the code's map would merge the two calls.
- Negative page limits (`/dashboard/events` can pass one on).
- `Broker.SubscriptionSeesBacklogThenLive`: assumes the session runs one replay at a time; a second subscription with a cursor starts another.
- `EventStore.SweepSurvivors`: the error-free path only; the code skips a deletion that throws.
- `Broker.GapFreeAndDuplicateFree`: assumes event ids are not repeated, as the table's primary key demands of what is persisted.
- `GlobRules.GlobMeaning`: the regular expression parser covers the fragment without groups, classes and counted repetition, which no compiled pattern leaves.
- `JsonBody.StringRoundTrip`: the decoder does not read escaped surrogate pairs, which the encoder never writes.
