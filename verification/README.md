# A verified model of the SeRoNet SDK

The SeRoNet SDK connects robot software components over OPC UA. This project
models three parts of it in Dafny and proves what they are for.

**The component state machine** (`Names`, `StateModel`, `StateConfig`,
`StateInvariant`, `StateTrace`, `StateReplies`, `StateOrder`, `StateSystem`,
`StateRuns`, `StateHolds`, `StateWaiters`, `StateFatal`, `StateBare`, `StateScenario`,
`StateLeak`, `StateSuperseded`, `StateCalls`, `StateOutcomes`, `StateQueries`,
`StateSlave`). A component has one main state; each main
state activates substates, which callers acquire and release through counters. A
change of the main state is queued, may stay pending while a substate that it must
leave is counted, and is completed by the update thread or by the last release.
`StateModel` gives every mutex-protected section as a function on the whole state;
a wait splits a call into the sections before and after it. `StateSlave` is the
class of the source, field by field and loop by loop, and each of its methods is
proved to compute that function. `StateOutcomes`, `StateCalls` and `StateQueries` say what
each section does in terms of the conditions that its caller meets. Results about single sections hold for any sequence of
them, from any callers and with spurious wake-ups. `StateSystem` adds the callers:
sessions that acquire, park, wake and release, and setWaitState callers; results
there assume that callers release only what they hold and that waits end by
notification only. `StateScenario` builds concrete runs of a small component, which
other modules use to show what can go wrong. The state also records the history of a run (queries, answers,
superseded requests, handler calls, notifications, ignored releases), which only the
proofs read.

**The conversion of communication objects** (`CodecModel`, `CodecRoundTrip`,
`CodecAlignment`, `CodecSchema`, `CodecNumbers`, `Codec`, `PushModel`, `PushRuns`, `Push`). A
description tree of complex types, arrays and primitives is flattened to a list of
OPC UA variants and read back with a cursor; the same tree gives method signatures,
a flat list of leaves and the nodes of a push service. The type tables of the
visitors are written out one by one, as in the source, and proved to agree; `CodecNumbers`
gives the numbers of the types and the integers that are sent and read. `Codec` and `Push` are the
visitors as classes, proved against the functions of the model.

**The subscription** (`SnapshotModel`, `BufferModel`, `Subscription`, `SubscriptionRuns`).
Notifications for single items are gathered into snapshots, converted, stored in an
overwriting ring buffer and read by independent cursors. `SnapshotModel` defines the
snapshots by the sequence of all notifications, without slots or counters;
`BufferModel` defines reading by the unbounded history. The classes in
`Subscription` are proved to do just that. A snapshot has a value for each item; it is
of one sent value if the notifications of each value come together (`BlocksArrive`),
and can mix several if they do not (`MixedSnapshot`).

## Assumptions

- A name is represented by a code, because names are only compared (`Names`).
- The update thread executes one dispatch at a time, and there is one such thread.
- A change handler is registered and does not call back into the slave.
- The services of open62541 that are used: a node can be added when its
  identifier is free; the access level can be written on a variable node; a value
  can be written on a variable node of the same data type, or of the base type that
  stands for "variant". Parents of added nodes exist.
- Wrappers of open62541Cpp (is_a, getDataAs, UA_String) are not part of this
  repository: is_a compares the data type, and a scalar string without NUL is
  copied. Scalar strings with a NUL are therefore not values in the round trip.
- Little-endian memory, where a 64-bit value is read through a 32-bit pointer.
- Failed assertions of the decoder end the decoding (`Missing`).
- Floating-point values are only copied.
- A newly constructed array element has empty arrays, at any depth, as have fresh
  target objects; decoding into an object with filled arrays appends to them.

## Where the code differs from its documentation

The model follows the code.

- Alive is described as a pseudo-state that is not saved in currentState
  (`StateSlave.cpp:806-809`), but a performed request for Alive stores it there (:568;
  `StartupIsAlive` gives a run, `AliveIsStored` says exactly when).
- Deactivated is described as reaching the Neutral state; it ends in the main state
  Neutral with the substate "neutral" inactive (`DeactivationIsBare`). Leaving it calls
  the quit handler of "neutral" all the same (`QuitUnentered` says exactly when), and a
  caller that acquires "neutral" there keeps the component in Neutral for good
  (`AcquireTraps`, `TrappedForever`; `TrappingRunTraps` gives a run).
- The transition table of setWaitState (`StateSlave.cpp:717-725`) is kept for new
  requests (`FollowsTransitions`, `FinalStatesAccept`), but requests queued before
  FatalError are dispatched in FatalError. `LeavesFatalError` gives a run that goes
  from FatalError to Neutral; `DispatchLeaves` and `ReleaseLeaves` say exactly when a
  section does so, and `FatalErrorIsFinal` from where it cannot happen.
- setWaitState("FatalError") is described as returning in FatalError or Shutdown
  (:829-830). Its request was performed when it returns (`WaitedForOwn`), but the
  component may have moved on (`ReturnsInNeutral`), by a section that `DispatchLeaves`
  or `ReleaseLeaves` describes. If, when the request is performed, nothing else than
  Shutdown and FatalError is pending, queued or on its way, it returns in one of the two
  (`FatalErrorIsFinal`).
- acquire is documented to return OK when the substate is acquired. If no change is
  pending when it is called, or the pending one keeps the substate active, this holds
  in every continuation (`GuardedAcquireIsSafe`). Otherwise it waits without counting
  (`ParksUncounted`). If it waits for Shutdown it is never given OK
  (`ShutdownIsNotGranted`); for other changes, whether it gets OK on an inactive
  substate depends on the schedule, not on the state at the call: the caller may run
  as soon as the substate is active, or only after it is inactive again. So there is
  no converse in terms of the call alone. `UnsureHold` names the moment,
  `LeakingRunIsStuck` is such a schedule, and `IgnoredReleaseBlocks` says what follows
  from it.
- setWaitState is documented to return UNKNOWNSTATE and CANCELLED; it never does
  (`FollowsTransitions`).
- A master whose pending request is superseded by a later one is never answered
  (`SupersededIsUnanswered`; `SecondIsSuperseded` gives a run).
- uint64 scalars are read as 32-bit integers and int64 arrays as arrays of 32-bit
  integers; `MergeExact` says exactly which values survive, and `PrimitiveReads` and
  `WideArrayReturns` what comes back.

## Model

| member | source | states |
|---|---|---|
| StateConfig.DefineStatesOutcome | SeRoNetSDK/SeRoNet/State/StateSlave.cpp:848-1027 | On a good configuration the internal error branches are dead: the outcome depends only on activation and on the two names, and is then ACTIVATED, NOTALLOWED or OK. |
| StateConfig.DefinedKeepsConfig | SeRoNetSDK/SeRoNet/State/StateSlave.cpp:897-1021 | Every definition keeps substate names unique, main-state lists free of repetition, the reserved substates with their own main state only, and "nonneutral" listing every user main state. |
| StateConfig.DefinedLists | SeRoNetSDK/SeRoNet/State/StateSlave.cpp:907-1002 | A definition assigns the main state to the substate and to "nonneutral", and changes no other assignment. |
| StateConfig.DefineStatesIdempotent | SeRoNetSDK/SeRoNet/State/StateSlave.cpp:931-1008 | Repeating a definition changes nothing. |
| StateConfig.SubStatesExact | SeRoNetSDK/SeRoNet/State/StateSlave.cpp:213-225 | The reported substates of a main state are exactly those that list it. |
| StateConfig.ReportedStates | SeRoNetSDK/SeRoNet/State/StateSlave.cpp:136-174 | The reported main states are exactly those that have substates, without Init, FatalError and Shutdown; each of them is accepted by a state change. |
| StateConfig.InitialStateIsReported | SeRoNetSDK/SeRoNet/State/StateSlave.cpp:1032-1082 | setUpInitialState accepts exactly the main states that are reported to masters. |
| StateInvariant.UpdateStateKeeps | SeRoNetSDK/SeRoNet/State/StateSlave.cpp:391-484 | updateState leaves nothing pending that could be performed. |
| StateInvariant.SwitchedActiveSet | SeRoNetSDK/SeRoNet/State/StateSlave.cpp:448-549 | A performed change makes exactly the substates of the target active, and none for a deactivation. |
| StateInvariant.DeactivationIsBare | SeRoNetSDK/SeRoNet/State/StateSlave.cpp:448-498 | A performed deactivation ends in Neutral with no substate active, not even "neutral". |
| StateInvariant.LastReleaseCompletes | SeRoNetSDK/SeRoNet/State/StateSlave.cpp:1355-1398 | A release settles the pending change if and only if it leaves no counted substate among those to be left. |
| StateInvariant.BumpKeeps | SeRoNetSDK/SeRoNet/State/StateSlave.cpp:1104-1218 | Counting up or down in acquire and tryAcquire never enables or loses a pending change. |
| StateInvariant.TryAcquireIsAcquire | SeRoNetSDK/SeRoNet/State/StateSlave.cpp:1220-1312 | tryAcquire succeeds exactly when acquire would without waiting, with the same effect, and changes nothing otherwise. |
| StateInvariant.StepKeeps | SeRoNetSDK/SeRoNet/State/StateSlave.cpp:20-1401 | Every mutex-protected section keeps the invariant: active set, blocked pending change, good configuration, final Shutdown. |
| StateInvariant.AlwaysInv | SeRoNetSDK/SeRoNet/State/StateSlave.cpp:372-710 | The invariant holds after any sequence of sections from any callers, spurious wake-ups included. |
| StateOutcomes.UpdateStateHandles | SeRoNetSDK/SeRoNet/State/StateSlave.cpp:391-617 | A pending request for the current main state is answered OK and nothing else happens; one for an unknown main state is answered UNKNOWNSTATE and nothing else happens; one that must leave a counted substate stays pending unanswered; any other is performed, with its handler calls and notifications, and answered OK. |
| StateOutcomes.TurnOutcome | SeRoNetSDK/SeRoNet/State/StateSlave.cpp:673-711 | The same for one turn of the update thread, in terms of the first request of the queue; taking Shutdown is the last turn. |
| StateOutcomes.NotifiesOnChange | SeRoNetSDK/SeRoNet/State/StateSlave.cpp:551-572 | A section notifies a caller of acquire or setWaitState only if it performs a request for another main state than the current one: the component moves, or is deactivated. |
| StateOutcomes.MasterOutcome | SeRoNetSDK/SeRoNet/State/StateSlave.cpp:35-90 | A master's request is queued if and only if the slave is activated and it is for Shutdown (at the head, in every main state), or for none of seven spellings while the component is not in Init, Shutdown or FatalError (at the tail); otherwise it is answered once, with the reason. |
| StateOutcomes.AcquireOutcome | SeRoNetSDK/SeRoNet/State/StateSlave.cpp:1112-1215 | acquire up to its wait: refused before activation and for an unknown name, counted and OK on an active substate that no pending change leaves, waiting without a count if a change is pending, refused in Shutdown, and waiting with a count otherwise. |
| StateOutcomes.ResumeOutcome | SeRoNetSDK/SeRoNet/State/StateSlave.cpp:1163-1206 | acquire after its wait: NOTACTIVATED in Shutdown, with its count taken back; otherwise OK, with one count in all. |
| StateOutcomes.TryOutcome | SeRoNetSDK/SeRoNet/State/StateSlave.cpp:1232-1312 | tryAcquire: OK and counted on an active substate that no pending change leaves, otherwise NOTACTIVATED or UNKNOWNSTATE without effect. |
| StateOutcomes.ReleaseOutcome | SeRoNetSDK/SeRoNet/State/StateSlave.cpp:1333-1400 | release: NOTACTIVATED or UNKNOWNSTATE without effect, otherwise OK; it takes one count back on an active substate that has one, and then performs the pending change if and only if nothing that it leaves is counted any more. |
| StateOutcomes.DefinitionOutcome | SeRoNetSDK/SeRoNet/State/StateSlave.cpp:859-1027 | defineStates refuses after activation, and thirteen main-state and fourteen substate spellings, without effect; otherwise it assigns the main state to the substate and to "nonneutral", and nothing else. |
| StateCalls.ChangeCalls | SeRoNetSDK/SeRoNet/State/StateSlave.cpp:503-549 | The handler calls of a change are a quit for each substate that is left and an enter for each that is entered, each once; quits first, "nonneutral" quit last and entered first, the others in the order of the list. |
| StateTrace.SwitchedMatches | SeRoNetSDK/SeRoNet/State/StateSlave.cpp:509-549 | The handler calls of a change enter and quit exactly what the change switches. |
| StateTrace.AlwaysTraced | SeRoNetSDK/SeRoNet/State/StateSlave.cpp:503-549 | In every run, replaying the handler calls from {init} gives exactly the active substates, and enter and quit alternate for each of them; only "neutral" may be quit without having been entered. |
| StateTrace.StepOrdered | SeRoNetSDK/SeRoNet/State/StateSlave.cpp:503-549 | Within one section all quits precede all enters; "nonneutral" is quit last and entered first. |
| StateReplies.AlwaysAccounted | SeRoNetSDK/SeRoNet/State/StateSlave.cpp:28-90 | In every run each query is answered, queued, pending or superseded, as often in all as it was made; so none is answered twice. |
| StateReplies.StepAccounted | SeRoNetSDK/SeRoNet/State/StateSlave.cpp:574-690 | Each section keeps this account. |
| StateReplies.SupersedesExactly | SeRoNetSDK/SeRoNet/State/StateSlave.cpp:679-690 | A section supersedes a query if and only if it is a dispatch that takes another request while that query is pending. |
| StateReplies.SupersededIsUnanswered | SeRoNetSDK/SeRoNet/State/StateSlave.cpp:679-690 | A query made once and superseded is not answered, queued or pending, then and in every continuation that does not repeat it. |
| StateSuperseded.SecondIsSuperseded | SeRoNetSDK/SeRoNet/State/StateSlave.cpp:688-690 | A concrete run with a superseded query, which no continuation answers. |
| StateReplies.RepliesAreTruthful | SeRoNetSDK/SeRoNet/State/StateSlave.cpp:404-665 | Whenever a section answers, it answers one query, about the state that query asked for: OK only in that state (Neutral for a deactivation), UNKNOWNSTATE only when nothing lists it, and SMART_ERROR never. |
| StateOrder.LifecycleIsOneWay | SeRoNetSDK/SeRoNet/State/StateSlave.cpp:568-572 | Once in Shutdown always in Shutdown, and Init is never re-entered, in any continuation of a reachable state. |
| StateOrder.StepMoves | SeRoNetSDK/SeRoNet/State/StateSlave.cpp:688-689 | What each section does to the queue: nothing, insertion at the head or at the tail, or removal of the head. |
| StateOrder.AlwaysInOrder | SeRoNetSDK/SeRoNet/State/StateSlave.cpp:60-88 | In every run the requests other than lifecycle requests leave the queue in the order of their arrival. |
| StateOrder.UrgentAtHead | SeRoNetSDK/SeRoNet/State/StateSlave.cpp:743-830 | Exactly the requests for Alive, FatalError and Shutdown are inserted at the head. |
| StateOrder.UrgentFirst | SeRoNetSDK/SeRoNet/State/StateSlave.cpp:60-65 | In any continuation, everything queued when a request stood at the head stays untouched behind it until that request itself is dequeued. |
| StateOrder.FinalStatesAccept | SeRoNetSDK/SeRoNet/State/StateSlave.cpp:68-88 | In FatalError and Shutdown no new request but Shutdown is accepted, except the second request of a setWaitState("Alive") under way. |
| StateOrder.FollowsTransitions | SeRoNetSDK/SeRoNet/State/StateSlave.cpp:716-841 | setWaitState makes a request exactly for the documented lifecycle transitions, returns OK when already there, and refuses the rest. |
| StateBare.QuitUnentered | SeRoNetSDK/SeRoNet/State/StateSlave.cpp:448-520 | A section quits a substate that was not entered if and only if it is "neutral", in a Neutral with no active substate, and the update thread performs a change there, a further deactivation included. |
| StateBare.TrappedForever | SeRoNetSDK/SeRoNet/State/StateSlave.cpp:473-484 | Once "neutral" is counted in such a Neutral, the component never leaves it, not even for Shutdown, whatever sections follow. |
| StateBare.AcquireTraps | SeRoNetSDK/SeRoNet/State/StateSlave.cpp:1184-1194 | To acquire "neutral" there, with nothing pending, waits and is enough for that. |
| StateBare.TrappingRunTraps | SeRoNetSDK/SeRoNet/State/StateSlave.cpp:448-498 | A concrete run, with one deactivation and one acquire, that gets there. |
| StateFatal.DispatchLeaves | SeRoNetSDK/SeRoNet/State/StateSlave.cpp:673-705 | The update thread leaves FatalError for another state than Shutdown if and only if it takes a request for a known such state and nobody counts on "fatalError". |
| StateFatal.ReleaseLeaves | SeRoNetSDK/SeRoNet/State/StateSlave.cpp:1355-1398 | A release leaves FatalError for another state than Shutdown if and only if a request for such a state is pending and the last count of "fatalError" goes. |
| StateFatal.FatalErrorIsFinal | SeRoNetSDK/SeRoNet/State/StateSlave.cpp:717-725 | From FatalError with nothing but Shutdown and FatalError pending or queued and no setWaitState("Alive") on its way, every run stays in FatalError or Shutdown. |
| StateFatal.LeavesFatalError | SeRoNetSDK/SeRoNet/State/StateSlave.cpp:717-725 | A concrete run that goes from FatalError to Neutral. |
| StateFatal.ReturnsInNeutral | SeRoNetSDK/SeRoNet/State/StateSlave.cpp:826-831 | In that run setWaitState("FatalError") returns in Neutral. |
| StateScenario.StartupIsAlive | SeRoNetSDK/SeRoNet/State/StateSlave.cpp:806-809 | A concrete run in which Alive is stored as the current main state. |
| StateSystem.NextSessions | SeRoNetSDK/SeRoNet/State/StateSlave.cpp:1104-1401 | Every event keeps the counts of all substates and what each acquire caller relies on. |
| StateSystem.WakesSessions | SeRoNetSDK/SeRoNet/State/StateSlave.cpp:1157-1207 | ... for the second half of acquire, after its wait. |
| StateSystem.ReleasesSessions | SeRoNetSDK/SeRoNet/State/StateSlave.cpp:1355-1398 | ... for release and the change that it may complete. |
| StateSystem.UpdateStateGood | SeRoNetSDK/SeRoNet/State/StateSlave.cpp:551-563 | Performing a change leaves no substate that a caller counts on, and notifies the callers parked on every substate that becomes active. |
| StateRuns.NextIsStep | SeRoNetSDK/SeRoNet/State/StateSlave.cpp:20-1401 | Runs with callers are runs of the sections, so all results about sections apply to them. |
| StateRuns.RunsAreRuns | SeRoNetSDK/SeRoNet/State/StateSlave.cpp:20-1401 | In every run with callers the slave has run a sequence of sections, which is given. |
| StateRuns.AlwaysSysInv | SeRoNetSDK/SeRoNet/State/StateSlave.cpp:1104-1401 | In every run with balanced callers and no spurious wake-up each counter equals holders plus parked reservations plus ignored releases, and no parked reservation misses an activation. |
| StateRuns.HoldSafety | SeRoNetSDK/SeRoNet/State/StateSlave.cpp:473-549 | No substate is deactivated while a caller holds it or is parked with a reserved count for it. |
| StateRuns.ParkedPromise | SeRoNetSDK/SeRoNet/State/StateSlave.cpp:1184-1206 | A caller that parked on an inactive substate and was woken holds an active substate, or gets NOTACTIVATED in Shutdown. |
| StateRuns.HeldUntilReleased | SeRoNetSDK/SeRoNet/State/StateSlave.cpp:1104-1398 | Whoever holds an active substate finds it active in every later state until it releases. |
| StateRuns.UnsureHold | SeRoNetSDK/SeRoNet/State/StateSlave.cpp:1134-1172 | acquire gives OK on an inactive substate if and only if the caller had waited for a pending change without counting and its substate is inactive when it runs again. |
| StateHolds.GuardedAcquireIsSafe | SeRoNetSDK/SeRoNet/State/StateSlave.cpp:1134-1206 | If no change is pending, or the pending one keeps the substate active, when acquire is called, then in every continuation the caller has nothing, waits with its count reserved, or holds the active substate. |
| StateHolds.ParksUncounted | SeRoNetSDK/SeRoNet/State/StateSlave.cpp:1134-1158 | Without that condition, and only then, acquire waits without counting. |
| StateHolds.ShutdownIsNotGranted | SeRoNetSDK/SeRoNet/State/StateSlave.cpp:1134-1172 | An acquire that waits for a pending Shutdown never returns OK, in any continuation. |
| StateHolds.AliveIsStored | SeRoNetSDK/SeRoNet/State/StateSlave.cpp:484-570 | The current main state becomes Alive if and only if the update thread takes a request for Alive while no substate of the current main state is counted, or the last caller in the way of such a request releases. |
| StateHolds.LastUserCompletes | SeRoNetSDK/SeRoNet/State/StateSlave.cpp:1355-1398 | A release completes the pending change if and only if no other caller uses a substate that it leaves and no ignored release counts there, this one included. |
| StateRuns.IgnoredRelease | SeRoNetSDK/SeRoNet/State/StateSlave.cpp:1355-1381 | A release is ignored, and its count kept for good, if and only if the substate is inactive; then the hold was not sure. |
| StateRuns.WaitedShutdown | SeRoNetSDK/SeRoNet/State/StateSlave.cpp:743-831 | No setWaitState that waited returns in Init, and setWaitState("Shutdown") returns only in Shutdown (the other two: StateWaiters.WaitedForOwn). |
| StateWaiters.NextOwn | SeRoNetSDK/SeRoNet/State/StateSlave.cpp:568-572 | A setWaitState caller has at most one outstanding request, for the state it waits for, and is notified only by the performance of that request. |
| StateWaiters.WaitedForOwn | SeRoNetSDK/SeRoNet/State/StateSlave.cpp:748-831 | When a setWaitState that waited returns, the component has been in the state asked for; after Alive also, later, in the initial main state. |
| StateRuns.FirstStateAfterInit | SeRoNetSDK/SeRoNet/State/StateSlave.cpp:66-88 | The first main state after Init is Alive, FatalError or Shutdown. |
| StateLeak.IgnoredReleaseBlocks | SeRoNetSDK/SeRoNet/State/StateSlave.cpp:473-484 | After one ignored release of a substate, once it is active again no change ever leaves it, whatever happens. |
| StateLeak.LeakingRunIsStuck | SeRoNetSDK/SeRoNet/State/StateSlave.cpp:1134-1172 | A concrete run of nineteen events with two well-behaved callers that reaches such a state. |
| Slave.StateSlave.constructor | SeRoNetSDK/SeRoNet/State/StateSlave.cpp:241-367 | A new slave is in Init with the five reserved substates. |
| Slave.StateSlave.IsListed | SeRoNetSDK/SeRoNet/State/StateSlave.cpp:431-438 | The validity scan: some substate lists the main state. |
| Slave.StateSlave.MarkActions | SeRoNetSDK/SeRoNet/State/StateSlave.cpp:448-471 | The marking loop gives every substate the action of its membership in the current and the desired main state. |
| Slave.StateSlave.IsLocked | SeRoNetSDK/SeRoNet/State/StateSlave.cpp:477-482 | The scan for counted substates that must be left. |
| Slave.StateSlave.QuitOthers | SeRoNetSDK/SeRoNet/State/StateSlave.cpp:511-529 | The first switching loop quits all but "nonneutral", in list order, and finds it. |
| Slave.StateSlave.SwitchSpecial | SeRoNetSDK/SeRoNet/State/StateSlave.cpp:531-538 | "nonneutral" is quit after all others and entered before all others. |
| Slave.StateSlave.EnterOthers | SeRoNetSDK/SeRoNet/State/StateSlave.cpp:540-549 | The second switching loop. |
| Slave.StateSlave.NotifyActive | SeRoNetSDK/SeRoNet/State/StateSlave.cpp:551-563 | The notification loop: every active substate, and all of them at Shutdown. |
| Slave.StateSlave.PerformChange | SeRoNetSDK/SeRoNet/State/StateSlave.cpp:487-572 | Performing a change, as the specification says. |
| Slave.StateSlave.AnswerPending | SeRoNetSDK/SeRoNet/State/StateSlave.cpp:408-425 | Settling the pending request, with its answer if a master made it. |
| Slave.StateSlave.UpdateState | SeRoNetSDK/SeRoNet/State/StateSlave.cpp:372-668 | The whole of updateState refines its specification. |
| Slave.StateSlave.TakeRequest | SeRoNetSDK/SeRoNet/State/StateSlave.cpp:679-690 | A dequeued request overwrites the pending one. |
| Slave.StateSlave.UpdateStateFromThread | SeRoNetSDK/SeRoNet/State/StateUpdateThread.cpp:29-41 | One turn of the update thread, which stops for good after taking a Shutdown request. |
| Slave.StateSlave.HndSetMainState | SeRoNetSDK/SeRoNet/State/StateSlave.cpp:20-92 | A master's request refines its specification: refused at once, or queued at the head or the tail. |
| Slave.StateSlave.BeginSetWaitState | SeRoNetSDK/SeRoNet/State/StateSlave.cpp:716-831 | setWaitState up to its first wait. |
| Slave.StateSlave.ContinueSetWaitState | SeRoNetSDK/SeRoNet/State/StateSlave.cpp:758-769 | setWaitState("Alive") between its waits. |
| Slave.StateSlave.BeginAcquire | SeRoNetSDK/SeRoNet/State/StateSlave.cpp:1104-1196 | acquire up to its wait. |
| Slave.StateSlave.ResumeAcquire | SeRoNetSDK/SeRoNet/State/StateSlave.cpp:1163-1206 | acquire after its wait. |
| Slave.StateSlave.TryAcquire | SeRoNetSDK/SeRoNet/State/StateSlave.cpp:1220-1312 | tryAcquire. |
| Slave.StateSlave.Release | SeRoNetSDK/SeRoNet/State/StateSlave.cpp:1325-1401 | release, with the pending change that it may complete. |
| Slave.StateSlave.AssignMain | SeRoNetSDK/SeRoNet/State/StateSlave.cpp:907-954 | Adding a main state to a substate that occurs once. |
| Slave.StateSlave.DefineStates | SeRoNetSDK/SeRoNet/State/StateSlave.cpp:848-1027 | defineStates. |
| Slave.StateSlave.SetUpInitialState | SeRoNetSDK/SeRoNet/State/StateSlave.cpp:1032-1082 | setUpInitialState. |
| Slave.StateSlave.ActivateStates | SeRoNetSDK/SeRoNet/State/StateSlave.cpp:1097-1102 | activate. |
| StateQueries.QueriesExact | SeRoNetSDK/SeRoNet/State/StateSlave.cpp:94-236 | For every name that is asked about: the current main state, the main states (Neutral and those of "nonneutral") and the substates that list the named main state, with OK or UNKNOWNSTATE; before activation NOTACTIVATED and nothing else. |
| StateQueries.ResponsesAgree | SeRoNetSDK/SeRoNet/State/StateSlave.cpp:94-236 | In every run the answers to the queries fit each other: the substates of the reported current main state are the active ones (but for a bare Neutral), only Alive has none, and it is among the reported main states unless it is a lifecycle state. |
| Slave.StateSlave.HndGetMainStates | SeRoNetSDK/SeRoNet/State/StateSlave.cpp:113-176 | The main states that are told to masters. |
| Slave.StateSlave.HndGetSubStates | SeRoNetSDK/SeRoNet/State/StateSlave.cpp:178-236 | The substates of a main state that are told to masters. |
| StateQueries.MonitoredState | SeRoNetSDK/SeRoNet/State/StateSlave.cpp:1084-1095 | In every run the monitored main state is known, differs from the current one exactly while a change is pending, and is where the release that completes the change leads. |
| Slave.StateSlaveHandler.HandleQuery | SeRoNetSDK/SeRoNet/State/StateSlaveHandler.cpp:20-82 | Only a set-state query is deferred and changes the slave; the others are answered at once from its state. |
| CodecRoundTrip.DecodeEncoded | SeRoNetSDK/SeRoNet/OPCUA/Converter/UaVariantArrayToCommObject.cpp:21-206 | Wherever the encoding of a value stands in a list, the decoder reads it from there and stops behind it. |
| CodecRoundTrip.DecodeNested | SeRoNetSDK/SeRoNet/OPCUA/Converter/UaVariantToCommObjArray.cpp:41-61 | ... for complex elements of arrays, which are lists of their own. |
| CodecRoundTrip.DecodeItemEncoded | SeRoNetSDK/SeRoNet/OPCUA/Converter/UaVariantToCommObjArray.cpp:32-165 | ... for one element of an array, at any depth. |
| CodecRoundTrip.MergeExact | SeRoNetSDK/SeRoNet/OPCUA/Converter/UaVariantToCommObjArray.cpp:95-101 | What comes back is the value if and only if it survives: no scalar uint64 from 2^32 on, int64 arrays with a 32-bit first element and its sign extension in all others, no NUL in strings of arrays. |
| CodecRoundTrip.LeafItemsExact | SeRoNetSDK/SeRoNet/OPCUA/Converter/CommObjArrayToValue.cpp:114-184 | The condition for arrays of primitives, in both directions. |
| CodecRoundTrip.SurvivedElement | SeRoNetSDK/SeRoNet/OPCUA/Converter/UaVariantToCommObjArray.cpp:95-101 | An int64 array that comes back as it was satisfies the condition. |
| CodecRoundTrip.RoundTrip | SeRoNetSDK/SeRoNet/OPCUA/Converter/UaVariantToCommObjArray.cpp:27-39 | Decoding an encoded value replaces the leaves of the target and appends to its arrays, exactly when the value survives. |
| CodecRoundTrip.FreshRoundTrip | SeRoNetSDK/SeRoNet/OPCUA/Converter/CommObjectToUaVariantArray.cpp:24-143 | Into a fresh object, decoding gives the encoded value back if and only if it survives. |
| CodecRoundTrip.LostValues | SeRoNetSDK/SeRoNet/OPCUA/Converter/UaVariantArrayToCommObject.cpp:139-150 | A concrete uint64 and a concrete int64 array that do not come back. |
| CodecAlignment.Aligned | SeRoNetSDK/SeRoNet/OPCUA/Converter/UaVariantArrayToCommObject.cpp:30-202 | The recursive decoder is the flat one: it advances by the number of leaves, gives each leaf its own variant, keeps the tree, and fails with the first fault of the flat one. |
| CodecAlignment.ReadFlatMeans | SeRoNetSDK/SeRoNet/OPCUA/Converter/UaVariantArrayToCommObject.cpp:36-200 | The flat decoder succeeds if and only if every leaf has a variant it can be read from, and gives each leaf what its own variant says. |
| CodecAlignment.WrongTypeIsLocal | SeRoNetSDK/SeRoNet/OPCUA/Converter/UaVariantArrayToCommObject.cpp:36-191 | A wrong-typed scalar or array, or an empty variant, at the place of a scalar leaves only that leaf unchanged; all others are decoded as before. |
| CodecAlignment.SignatureAgrees | SeRoNetSDK/SeRoNet/OPCUA/Converter/CommObjectToUaArgument.cpp:25-133 | For any value, declared arguments, flat leaves and encoded variants match one to one: names, type, rank -1 for scalars and 1 for arrays with one dimension of the right length. |
| CodecAlignment.DeclaredTypesAgree | SeRoNetSDK/SeRoNet/OPCUA/Converter/CommObjArrayToTypeIndex.cpp:19-82 | The declared element type of an array is the one its variant is created with. |
| CodecSchema.EncodedConforms | SeRoNetSDK/SeRoNet/OPCUA/Converter/CommObjArrayToValue.cpp:21-204 | Every encoded value keeps the declaration down to the elements of nested arrays, with stored values that fit their OPC UA type. |
| CodecSchema.ConformingDecodes | SeRoNetSDK/SeRoNet/OPCUA/Converter/UaVariantToCommObjArray.cpp:27-165 | Every list of variants that keeps the declaration is read to its end without a fault. |
| CodecNumbers.Declared | SeRoNetSDK/SeRoNet/OPCUA/Converter/CommObjectToUaArgument.cpp:25-133 | Every description declares its leaves in order: name, number of the type, and rank -1 for a scalar and 1 for an array. |
| CodecNumbers.SentTypes | SeRoNetSDK/SeRoNet/OPCUA/Converter/CommObjectToUaVariantArray.cpp:24-124 | For each leaf a scalar, or an array of one dimension, of the type with that number is sent. |
| CodecNumbers.ScalarSent | SeRoNetSDK/SeRoNet/OPCUA/Converter/CommObjectToUaVariantArray.cpp:30-124 | Scalars are sent as they are, signed bytes as the unsigned byte congruent to them. |
| CodecNumbers.ElementSent | SeRoNetSDK/SeRoNet/OPCUA/Converter/CommObjArrayToValue.cpp:114-184 | ... and so are elements of arrays; but a string ends before its first NUL. |
| CodecNumbers.PrimitiveReads | SeRoNetSDK/SeRoNet/OPCUA/Converter/UaVariantArrayToCommObject.cpp:36-191 | What a scalar element is read from, whatever the list: a scalar of its type, or the first element of an array of its type; a uint64 is read modulo 2^32; any other variant leaves it, and a missing one is a fault. |
| CodecNumbers.WideArrayReturns | SeRoNetSDK/SeRoNet/OPCUA/Converter/UaVariantToCommObjArray.cpp:95-101 | An int64 array comes back as the signed 32-bit halves, low before high, of the elements of its first half, which they determine. |
| CodecNumbers.ArrayReads | SeRoNetSDK/SeRoNet/OPCUA/Converter/UaVariantToCommObjArray.cpp:25-39 | What an array is read from, whatever the variant: elements are appended in turn, nothing from a variant without elements; a wrong type, or the first element that cannot be read, is a fault. |
| CodecNumbers.PrimitiveElementReads | SeRoNetSDK/SeRoNet/OPCUA/Converter/UaVariantToCommObjArray.cpp:63-165 | A primitive element of the right type is the stored one at its index. |
| CodecNumbers.ComplexElementReads | SeRoNetSDK/SeRoNet/OPCUA/Converter/UaVariantToCommObjArray.cpp:41-52 | A complex element is decoded from the list stored at its index, provided that the first stored list has one dimension. |
| Codec.ToUaVariantArrayVisitor.Visit | SeRoNetSDK/SeRoNet/OPCUA/Converter/CommObjectToUaVariantArray.cpp:24-124 | The encoding visitor appends the encoding of what it visits. |
| Codec.CommObjArrayToValue.constructor | SeRoNetSDK/SeRoNet/OPCUA/Converter/CommObjArrayToValue.cpp:187-204 | Filling the buffer of an array, slot by slot, gives the encoded array. |
| Codec.CommObjArrayToValue.SetElement | SeRoNetSDK/SeRoNet/OPCUA/Converter/CommObjArrayToValue.cpp:114-184 | One slot is written, the others stay. |
| Codec.CommObjectToUaVariantArray | SeRoNetSDK/SeRoNet/OPCUA/Converter/CommObjectToUaVariantArray.cpp:130-143 | The encoder gives the encoding as an array. |
| Codec.ArrayOf.PushBack | SeRoNetSDK/SeRoNet/CommunicationObjects/Description/ElementArray.hpp:93-100 | Elements are added to the copy only. |
| Codec.ArrayOf.SetVector | SeRoNetSDK/SeRoNet/CommunicationObjects/Description/ElementArray.hpp:114-116 | The copy is written back. |
| Codec.ToCommObjArrayVisitor.Fill | SeRoNetSDK/SeRoNet/OPCUA/Converter/UaVariantToCommObjArray.cpp:27-39 | The element loop appends what it decodes and writes back once; on a fault nothing is written. |
| Codec.ToCommObjArrayVisitor.Visit | SeRoNetSDK/SeRoNet/OPCUA/Converter/UaVariantToCommObjArray.cpp:41-165 | One element is decoded at the current index. |
| Codec.VariantToCommObjArray | SeRoNetSDK/SeRoNet/OPCUA/Converter/UaVariantToCommObjArray.cpp:174-178 | Decoding an array variant into an array element. |
| Codec.ToCommObjectVisitor.Visit | SeRoNetSDK/SeRoNet/OPCUA/Converter/UaVariantArrayToCommObject.cpp:21-206 | The cursor-driven decoder refines its specification, cursor included. |
| Codec.CommObjectToListOfPrimitivDescriptions | SeRoNetSDK/SeRoNet/OPCUA/Converter/CommObjectToListOfPrimitivDescriptions.cpp:17-33 | The flat list of leaves, spliced from sublists. |
| Codec.ToIndexVisitor.Visit | SeRoNetSDK/SeRoNet/OPCUA/Converter/CommObjArrayToTypeIndex.cpp:19-82 | The visitor finds the declared element type. |
| Codec.ToUaArgumentArrayVisitor.Visit | SeRoNetSDK/SeRoNet/OPCUA/Converter/CommObjectToUaArgument.cpp:22-136 | The signature visitor appends the arguments of what it visits. |
| Codec.CommObjectToUaArgumentArray | SeRoNetSDK/SeRoNet/OPCUA/Converter/CommObjectToUaArgument.cpp:142-155 | The declared arguments as an array. |
| PushRuns.AreasAreDisjoint | SeRoNetSDK/SeRoNet/OPCUA/Converter/CommObjectToPushModel.cpp:173-189 | With dot-free names, nodes below different siblings never share an identifier. |
| PushRuns.IdsDiffer | SeRoNetSDK/SeRoNet/OPCUA/Converter/CommObjectToPushModel.cpp:39-98 | With proper names, all node identifiers of a description differ pairwise. |
| PushRuns.CreateSucceeds | SeRoNetSDK/SeRoNet/OPCUA/Converter/CommObjectToPushModel.cpp:39-98 | Whatever the names are, the nodes are created if and only if no identifier is taken or repeated; then exactly these are added. |
| PushRuns.DottedNamesCollide | SeRoNetSDK/SeRoNet/OPCUA/Converter/CommObjectToPushModel.cpp:173-189 | A concrete description with a dotted name that cannot be created. |
| PushRuns.CreateWorks | SeRoNetSDK/SeRoNet/OPCUA/Converter/CommObjectToPushModel.cpp:67-171 | In a free area the nodes of the description are created closed, the variables among them are the leaves, and other nodes stay. |
| PushRuns.CreatedTypes | SeRoNetSDK/SeRoNet/OPCUA/Converter/CommObjectToPushModel.cpp:67-171 | The created variables have, in the order of the flat list, the type number of their leaf, and that of variant for arrays. |
| PushRuns.EnableWorks | SeRoNetSDK/SeRoNet/OPCUA/Server/PushServerEnabler.cpp:34-110 | Opening prepared nodes succeeds, opens all of them, and touches no other node. |
| PushRuns.UpdateWorks | SeRoNetSDK/SeRoNet/OPCUA/Server/PushServerUpdater.cpp:33-249 | Writing prepared nodes succeeds, touches no other node, and reading them in the order of the flat list gives the encoding of the value. |
| PushRuns.PutsPublish | SeRoNetSDK/SeRoNet/OPCUA/Server/PushServer.hpp:111-131 | After any number of puts, clients read nothing before the first one and the encoding of the last value afterwards. |
| PushRuns.PushEndToEnd | SeRoNetSDK/SeRoNet/OPCUA/Server/PushServer.hpp:94-131 | From a free area, through creation and any puts: all succeed, and clients read what was put last. |
| PushRuns.PushedValueArrives | SeRoNetSDK/SeRoNet/OPCUA/Server/PushServer.hpp:94-131 | A client that reads the nodes and decodes gets the last value that was put, exactly when it survives the conversion. |
| Push.ToPushModelVisitor.Visit | SeRoNetSDK/SeRoNet/OPCUA/Converter/CommObjectToPushModel.cpp:30-171 | The creating visitor refines its specification; a failure ends it where it is. |
| Push.EnableOpcuaServerVisitor.Visit | SeRoNetSDK/SeRoNet/OPCUA/Server/PushServerEnabler.cpp:32-110 | The opening visitor. |
| Push.UpdateOpcuaServerVisitor.Visit | SeRoNetSDK/SeRoNet/OPCUA/Server/PushServerUpdater.cpp:30-249 | The writing visitor. |
| Push.PushServer.Open | SeRoNetSDK/SeRoNet/OPCUA/Server/PushServer.hpp:94-109 | A service comes with its nodes, or not at all. |
| Push.PushServer.Put | SeRoNetSDK/SeRoNet/OPCUA/Server/PushServer.hpp:111-131 | The first put opens the nodes, and every put writes them. |
| BufferModel.AlwaysFaithful | SeRoNetSDK/SeRoNet/OPCUA/Client/AsyncSubscriptionArrayBuffer.hpp:76-105 | In every interleaving of additions, reads and resets: a read at position k gives the history at max(k, length - size), reads go forward, and the overflow flag is set if and only if something was missed since it was reset. |
| BufferModel.PositionsIncrease | SeRoNetSDK/SeRoNet/OPCUA/Client/AsyncSubscriptionReader.hpp:102-110 | Positions that are read strictly increase. |
| BufferModel.SkippedWasLost | SeRoNetSDK/SeRoNet/OPCUA/Client/AsyncSubscriptionArrayBuffer.hpp:91-101 | What a read skips, the buffer no longer held. |
| BufferModel.GapFree | SeRoNetSDK/SeRoNet/OPCUA/Client/AsyncSubscriptionReader.hpp:102-110 | While the overflow flag is not set, what was delivered since its reset is a slice of the history without a gap; while it is set, it is not. |
| Subscription.ArrayBuffer.AddData | SeRoNetSDK/SeRoNet/OPCUA/Client/AsyncSubscriptionArrayBuffer.hpp:48-54 | Overwriting the oldest slot keeps the last elements of the history in the buffer. |
| Subscription.ArrayBuffer.GetData | SeRoNetSDK/SeRoNet/OPCUA/Client/AsyncSubscriptionArrayBuffer.hpp:91-105 | A read gives the element of the history at its position, or at the oldest one still held, and says which. |
| Subscription.Reader.GetData | SeRoNetSDK/SeRoNet/OPCUA/Client/AsyncSubscriptionReader.hpp:102-110 | The reader refines the model: cursor, overflow flag and datum. |
| SnapshotModel.SnapshotsAreRight | SeRoNetSDK/SeRoNet/OPCUA/Client/AsyncSubscriptionOpcUa.hpp:192-248 | Over any notifications: each snapshot has the latest good value of every item since the previous one, in subscription order; it is taken exactly when the last missing item arrives; no notification is used twice, and nothing complete is held back. |
| SnapshotModel.LatestMeans | SeRoNetSDK/SeRoNet/OPCUA/Client/AsyncSubscriptionOpcUa.hpp:233-239 | The latest value of an item is that of the last notification for it that has a good status and a value. |
| SnapshotModel.IgnoredOne | SeRoNetSDK/SeRoNet/OPCUA/Client/AsyncSubscriptionOpcUa.hpp:215-230 | A notification with a bad status, without a value, or for an item that is not monitored has no effect. |
| SnapshotModel.OnlyHeededCount | SeRoNetSDK/SeRoNet/OPCUA/Client/AsyncSubscriptionOpcUa.hpp:213-248 | The snapshots are those of the notifications with a good status and a value for a monitored item alone. |
| Subscription.AsyncSubscription.Store | SeRoNetSDK/SeRoNet/OPCUA/Client/AsyncSubscriptionOpcUa.hpp:233-241 | The counter equals the number of items that hold a value, and equals the number of items exactly when all do. |
| Subscription.AsyncSubscription.TakeValues | SeRoNetSDK/SeRoNet/OPCUA/Client/AsyncSubscriptionOpcUa.hpp:193-208 | The values are taken in subscription order and reset. |
| Subscription.AsyncSubscription.ProcessValues | SeRoNetSDK/SeRoNet/OPCUA/Client/AsyncSubscriptionWithCommObject.hpp:97-112 | A snapshot is converted and added to the buffer. |
| Subscription.AsyncSubscription.ValueChanged | SeRoNetSDK/SeRoNet/OPCUA/Client/AsyncSubscriptionOpcUa.hpp:213-248 | After any notification the slots, the counter and the buffer are what the function of all notifications so far says. |
| SubscriptionRuns.UnreadableIsDropped | SeRoNetSDK/SeRoNet/OPCUA/Client/AsyncSubscriptionWithCommObject.hpp:97-112 | A snapshot that cannot be decoded is not added; every other one is. |
| SubscriptionRuns.BlocksArrive | SeRoNetSDK/SeRoNet/OPCUA/Client/AsyncSubscriptionOpcUa.hpp:192-248 | If the notifications of each sent value come together, in any order among themselves, all values that survive the conversion arrive in the buffer, in order. |
| SubscriptionRuns.MixedSnapshot | SeRoNetSDK/SeRoNet/OPCUA/Client/AsyncSubscriptionOpcUa.hpp:231-244 | A concrete run of interleaved notifications whose snapshot mixes two sent values. |
| Subscription.SentValuesArrive | SeRoNetSDK/SeRoNet/OPCUA/Client/AsyncSubscriptionWithCommObject.hpp:97-112 | Snapshots of sent values that survive the conversion arrive as these values, none lost and in order. |

## Left out

- Liveness: that a setWaitState returns or that every request is answered; superseding, the branches that do not notify and requests queued after the halt break both.
- `StateSlave` destruction (`shutdown()`), more than one update thread on a slave, and handlers that call back into the slave.
- `Component::blocking`, which does nothing in this repository, and a missing change handler, which only omits the calls.
- The branch of updateState for an unknown action: the action has two values only, so no state of the model reaches it.
- The wrapping of the counters of buffer, reader and substates: they are unbounded here.
- Codec.ToCommObjectVisitor.Visit: works on the value of the target and gives a new one, so what a fault leaves in a target that was already partly read is not modelled, nor are setters with side effects.
- Codec.VariantToCommObjArray: the new elements are values that are copied into the vector, as in the source; sharing between an element and its description is not modelled.
- Memory ownership of variants, status codes of allocation, and printing of warnings.
- Numeric parent identifiers and namespaces: a parent is given by its printed identifier, and all nodes are in the namespace of the component; parents with byte-string or GUID identifiers, which throw, are left out.
- Subscription.ArrayBuffer.GetData: models the part after the wait for data; a buffer of size 0, on which the source divides by zero, is excluded.
- Subscription.AsyncSubscription.constructor: the monitored items are fixed, distinct and not empty; subscribe, unsubscribe, the browsing of node identifiers and the ineffective comparator that sorts them are left out, and the data callback too.
- `AsyncSubscriptionReader::seek` and `getLastAvailableData`: their end reference is one past the counter, and negative cursors are accepted, so the documented meaning does not hold.
- `PushServerDisabler`, which traverses like the enabler but throws on arrays, and the event service.
- `StateMaster`, query, send, event and push clients, parameters, wiring, naming service and `SmartACE` queues: thin wrappers and I/O.
