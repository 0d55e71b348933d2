# Agent Deck bridge and phone: a verified model

Agent Deck lets a phone watch and steer coding agents that run on a desktop. A bridge process on
the desktop journals every runtime event, projects it onto SQLite tables and broadcasts it to
paired phones over sealed WebSocket frames; each phone keeps a replica that it rebuilds from a
snapshot, a replay of missed events and live events. Phones send commands and approval decisions
back. This project models that protocol and proves what its documentation promises of it, over
every run, every interleaving and every way the network can cut, repeat or lose data.

Code that changes state is modelled by classes and loops whose contracts give the whole new state
as a function of the old one; the theorems are about those functions and about runs of them.

| file | what it models |
|---|---|
| `BridgeTables.dfy`, `RequestTable.dfy` | the journal and the sessions, approvals and questions tables, with their keys |
| `AdapterManager.dfy` | one runtime event: ensure the session, journal, project, broadcast |
| `Projection.dfy`, `TableRows.dfy` | every reachable table state is the fold of the journal, and what each row says in the words of the events |
| `ApprovalCas.dfy` | approval resolution as interleaved statements, and the atomic compare-and-set it refines |
| `SessionStore.dfy`, `DeliverySafety.dfy`, `ReplicaColumns.dfy` | the phone's reducers, why repeated delivery is safe, and what each column holds |
| `BridgeSync.dfy`, `Reconnect.dfy` | journal to phone end to end: through the snapshot, and through the replay that follows it |
| `Frames.dfy`, `GatewayStream.dfy` | frame sizes; connection index, handshake, replay and broadcast |
| `EventStream.dfy` | the bridge and all its connections together: order of events, and which events arrive |
| `Handshake.dfy`, `Pairing.dfy`, `RateLimiter.dfy` | who is let in: pairing codes, device records, sliding windows |
| `CommandDispatch.dfy` | the command ledger and dispatch with asynchronous completions |
| `SecureChannel.dfy` | sealed frames and the receive counter against an arbitrary network |
| `ReconnectBackoff.dfy` | the phone's socket and retry state machine |
| `TextSplitting.dfy`, `SseFraming.dfy`, `JsonRpcClient.dfy` | the two incremental framers and the pending-request table |
| `FaultPipeline.dfy` | the fake adapter's fault injection |

The classes of one source class may be spread over modules: `GatewayStream.UcpGateway`,
`CommandDispatch.UcpGateway` and `Handshake.UcpGateway` are three parts of the gateway, and
`SecureChannel.UcpClient` and `ReconnectBackoff.UcpClient` two parts of the phone's client.

Time, random ids, nonces, codes and the cipher's output are parameters. AES-GCM is an ideal seal:
it opens exactly the bytes that were sealed, under the key and nonce they were sealed with.

## What the proofs found

- The data model document says that the journal append and the state update of one event are one
  transaction. The code runs append, update and broadcast as separate statements. An event is
  journaled without reaching every phone if and only if it can be journaled and then reads a null
  payload, repeats a request the table has, or meets a broadcast that throws
  (`JournaledButNotBroadcast`). The tables still equal the fold of the journal.
- The testing strategy asks that a replay produce the same state as a full snapshot. A reconnect
  replays rows that the snapshot already contains, and the events carry no version. A session shown
  as failed then runs again (`FailedSessionRunsAgain`), and so does a cancelled one, which the
  snapshot does not list (`CancelledSessionRunsAgain`); a decided approval is pending again
  (`DecidedApprovalPendsAgain`). The two give the same screen if and only if, for every record, no
  replayed event about a listed session or approval is unversioned or above the row's version, the
  last replayed resolution of a listed question gives it the pending state, and no replayed event
  creates a record that is not listed (`RecordAfterReconnectIff`, `ScreenAfterReconnectIff`). Versions
  stamped by the journal settle this for listed sessions (`StampedSessionAgrees`), not for the others:
  the list is right if and only if nothing replayed creates a session that it leaves out
  (`StampedReplayAgrees`).
- `ApprovalService.resolve` writes the approvals row without journaling it, so a row equals the fold
  of the journal if and only if no device wrote it (`ApprovalRowIsFold`). That is the service's
  behaviour and not yet the gateway's path: within the repository only
  `packages/qa-scenarios/src/harness.ts:244` calls it, and `command/approve` goes to the adapter.
- The protocol document says that the first valid decision wins. A later call that names the next
  version wins too and overwrites it (`FirstDecisionOverwritten`). A decision wins if and only if it
  names the version it read and nobody updates the row until it writes, whatever the row's state
  (`WinsIff`), and the first one stands if and only if no call that names the version it left gets
  to its write (`DecisionFinalIff`).
- A replay holds at most 500 rows where the protocol document promises all events after the
  cursor, and none without a cursor, as for a phone whose snapshot came from an empty journal
  (`FirstSyncReplaysNothing`, `ThreeEventsNotReplayed`). It is complete if and only if there is a
  cursor and no more than 500 rows follow it, or the journal is empty (`ReplayCompleteIff`), and every
  message of the handshake fits in its frame (`OpenedEffect`).
- A frame over 1 MiB takes a number and then throws. The number is part of the plaintext, so at the
  limit an event can reach some connections and not others; `DeliveredIff` says which. A
  `command/start` whose runtime session id fills a frame succeeds and is recorded as failed
  (`SucceededButFailed`); no other acknowledgement can get that large (`OtherAcksFit`). So is one whose
  session the bridge then fails to register, and no other (`StartRecordedFailedIff`).
- An event whose payload has no JSON text is not journaled. If the payload is undefined and no branch
  reads it, the event is broadcast with sequence 0, and its number is missing from the journal
  (`NoJsonText`).
- Redelivery is harmless for versioned events whose record exists after their first delivery. It
  is not for `session.started` without a version (`EveryRepeatApplies`) or for an update that came
  before its session (`EarlyUpdateNeedsRedelivery`). A repeated `question.resolved` can undo a later
  one (`QuestionResolutionIsNotSafe`); it is harmless if and only if the question is absent or the
  last effective resolution gave the same state (`RepeatedResolutionIff`).
- The SSE decoder strips all white space after `data:`, where section 9.2.6 of the WHATWG HTML
  Living Standard strips one space: a payload survives if and only if it is not empty and no line
  of it starts with white space (`PayloadPreservedIff`).
- `stop()` leaves the device index as it was, so right afterwards the index matches the live
  connections if and only if there were none; once the close events have come it is empty
  (`GatewayStream.UcpGateway.CloseEvents`).
- The receive counter belongs to a connection and the session key does not, so a frame can be
  handled again on a later connection (`HandledAgainIff`). The command in it makes no second call
  (`RepeatMakesNoSecondCall`).
- A pairing code whose session expired unused is never free again (`ExpiredCodeIsLost`).
- While a retry waits for its timer the status is still that of the lost socket, so it says connected
  after a connection that had been open (`StatusTells`).
- A second `connect()` is harmless if and only if it returns at once or nothing of the earlier
  connection is left (`ConnectHarmlessIff`), and `disconnect()` from inside `onDisconnected` keeps
  its promise if and only if the retries are used up (`DisconnectInsideHoldsIff`).

## Model

| member | source | states |
|---|---|---|
| BridgeTables.EventJournal.Append | packages/bridge-core/src/event-journal.ts:53-69 | a journaled event gets the next AUTOINCREMENT number, which is above every sequence in the journal; an event whose session has no row is refused and changes nothing; one whose payload has no JSON text is skipped with sequence 0 and only uses up its number |
| BridgeTables.EventJournal.GetAfter | packages/bridge-core/src/event-journal.ts:71-82 | returns the first rows, up to the limit, of the rows of the session after the cursor |
| BridgeTables.EventJournal.GetLatestSequence | packages/bridge-core/src/event-journal.ts:84-91 | the result is the largest selected sequence, or 0 |
| BridgeTables.RowsAfterExact | packages/bridge-core/src/event-journal.ts:71-82 | a query returns exactly the selected rows, each once, in rising sequence order |
| RequestTable.SettleOne | apps/bridge/src/adapter-manager.ts:246-262 | with unique keys, updating the one pending row by its id is the whole conditional UPDATE |
| RequestTable.InsertAgrees | db/migrations/001_initial.sql:78-110 | an INSERT and the journal fold move together for every key, also when UNIQUE(session, runtime id) refuses the INSERT |
| RequestTable.SettleAgrees | apps/bridge/src/adapter-manager.ts:246-288 | a runtime-side answer and the journal fold move together for every key |
| RequestTable.FoldExists | apps/bridge/src/adapter-manager.ts:230-244 | the journal determines a row exactly when it holds a request for the key |
| RequestTable.BodyWasRequested | apps/bridge/src/adapter-manager.ts:230-244 | what a row says is what some journaled request for its key said |
| RequestTable.FirstAnswerWins | apps/bridge/src/adapter-manager.ts:230-262 | the first request fixes what is asked and the first answer after it that leaves the state pending fixes the outcome; the row holds that answer, its state, and one more version than there were answers up to it; everything later for the key is a no-op |
| AdapterManager.Manager.EnsureSessionRow | apps/bridge/src/adapter-manager.ts:148-179 | a known session is left alone, an unknown adapter throws, else the row exists afterwards with its columns kept and the runtime instance rebound |
| AdapterManager.Manager.HandleRuntimeEvent | apps/bridge/src/adapter-manager.ts:76-109 | the new tables, memory and outcome of one event, with each point where it throws (unknown adapter, journal, null payload, repeated request, broadcast) and what was already written there; exactly the events that get through the tables are handed to the broadcast, with their journal sequence |
| AdapterManager.Manager.ProjectRow | apps/bridge/src/adapter-manager.ts:87-105 | the table effect of an event, and that a refused INSERT or a missing payload throws and changes nothing |
| AdapterManager.Manager.UpdateSession | apps/bridge/src/adapter-manager.ts:185-228 | columns named by the event take its values, the others stay, the version grows by one, and an event with no state, summary or action writes nothing |
| AdapterManager.Manager.ResolveApproval | apps/bridge/src/adapter-manager.ts:246-262 | the search among the pending rows ends in exactly the conditional UPDATE on session, runtime id and pending state |
| AdapterManager.Manager.CreateQuestion | apps/bridge/src/adapter-manager.ts:264-273 | inserts a pending row with version 1, or refuses and changes nothing when the key or id exists |
| AdapterManager.Manager.AnswerQuestion | apps/bridge/src/adapter-manager.ts:275-288 | answers exactly the pending question of the session with the runtime id, if any |
| Projection.SessionFoldStep | apps/bridge/src/adapter-manager.ts:207-227 | one more journal entry updates the fold as the UPDATE statement updates the row |
| Projection.EveryRunIsProjected | apps/bridge/src/adapter-manager.ts:76-109 | in every reachable state, restarts, discoveries and device decisions included, the session rows are the fold of the journal, and approvals and questions that of the journal with the ids that the bridge made up for nameless requests |
| Projection.NamesOnly | apps/bridge/src/adapter-manager.ts:230-273 | those ids are the only difference: row by row the named journal is the journal, apart from the id of a request that carries none |
| Projection.SessionRowIsFold | apps/bridge/src/adapter-manager.ts:148-228 | each session row equals the fold of its session's journal and its version is one more than the number of events that wrote it |
| Projection.ApprovalRowIsFold | apps/bridge/src/adapter-manager.ts:230-262 | an approval key has a row if and only if its request was journaled, the row says what was asked there, and equals the fold if and only if no device wrote it; under an id that the bridge did not make up the journal alone determines this |
| Projection.QuestionRowIsFold | apps/bridge/src/adapter-manager.ts:264-288 | each question row equals the fold; under an id that the bridge did not make up, that of the journal alone |
| TableRows.SessionRowSays | apps/bridge/src/adapter-manager.ts:185-228 | over all runs: the state is that of the last lifecycle event of the session (completed, failed, cancelled, interrupted, idle, running for `session.working`, and for `session.started` idle or completed by its status and running otherwise), the action the last one given with the message standing in for it, title and summary the last ones given by an event that wrote the row; the version counts those events, and a title alone is none |
| TableRows.EventTakes | apps/bridge/src/adapter-manager.ts:185-228 | one event: each column of each session takes what the event gives and keeps what it does not; an event that is not journaled changes none |
| TableRows.RowHasOwner | apps/bridge/src/adapter-manager.ts:148-179 | a session has a row once a registered adapter has named it; the row belongs to the adapter that did so first since the last restart, or else most recently |
| TableRows.ApprovalRowSays | apps/bridge/src/adapter-manager.ts:230-262 | a row holds, column by column with its defaults, what the first request for its key asked; while no device has written it, the state is the first decision other than pending, `resolved` where none is given, and the version counts the decisions up to it |
| TableRows.QuestionRowSays | apps/bridge/src/adapter-manager.ts:264-288 | a question is pending at version 1 until its first answer, then answered at version 2 with that answer, for good |
| Projection.JournaledButNotBroadcast | apps/bridge/src/adapter-manager.ts:81-108 | seen before the call: which events are journaled, and that a journaled one is not broadcast if and only if it reads a null payload, repeats a request or meets a broadcast that throws; the tables are unchanged in the first two cases and changed in the third |
| Projection.JournaledOnly | apps/bridge/src/adapter-manager.ts:81-108 | a reachable state where that happened: an event with a null payload is journaled, its handler threw, and its session has the row of a fresh one |
| Projection.NoJsonText | packages/bridge-core/src/event-journal.ts:53-69 | an event whose payload has no JSON text gets no journal row and leaves every existing row as it was; exactly when its payload is undefined, its session is known or can be, and no branch reads the payload, it is handed to the broadcast with sequence 0; the number it was meant for is lost |
| ApprovalCas.ApprovalService.Create | packages/bridge-core/src/approval-service.ts:58-85 | inserts a pending row with version 1, or refuses and changes nothing when the key or id exists |
| ApprovalCas.ApprovalService.Resolve | packages/bridge-core/src/approval-service.ts:91-120 | uninterrupted, read and conditional write together are one compare-and-set on the version |
| ApprovalCas.ApprovalService.ReadVersion | packages/bridge-core/src/approval-service.ts:97-104 | the answers given without writing: not found, or conflict on a different version |
| ApprovalCas.ApprovalService.ConditionalUpdate | packages/bridge-core/src/approval-service.ts:106-119 | the row changes if and only if its version is still the expected one; otherwise the answer is conflict |
| ApprovalCas.ApprovalService.GetPending | packages/bridge-core/src/approval-service.ts:131-138 | returns exactly the pending approvals of the session |
| ApprovalCas.StepRefines | packages/bridge-core/src/approval-service.ts:91-120 | each statement of each call is either invisible or the one atomic step of its call |
| ApprovalCas.RefinesAtomic | packages/bridge-core/src/approval-service.ts:91-120 | linearizability: however the statements of device and runtime calls interleave, table and answers are those of an atomic run |
| ApprovalCas.OneAnswerPerCall | packages/bridge-core/src/approval-service.ts:91-120 | a call is under way or answered, never both, and never answered twice |
| ApprovalCas.OneWinnerPerVersion | packages/bridge-core/src/approval-service.ts:106-119 | the calls that win on one approval win at strictly rising versions, so at most one per version |
| ApprovalCas.VersionCountsUpdates | apps/bridge/src/adapter-manager.ts:253-261 | the version grows by exactly the number of successful updates, by devices and by the runtime |
| ApprovalCas.WinsIffUntouched | packages/bridge-core/src/approval-service.ts:97-119 | a device's update succeeds if and only if nobody updated the row since its read |
| ApprovalCas.FirstDecisionOverwritten | packages/bridge-core/src/approval-service.ts:103-119 | on any row: one decision at its version and another at the next are both answered resolved, and the second overwrites the first; each writes state, version and device and nothing else |
| ApprovalCas.WinsIff | packages/bridge-core/src/approval-service.ts:91-120 | in any interleaving and whatever the row's state, a begun decision is answered resolved if and only if it names the version it read and nobody updates the row until its write; not found if and only if there was no row; and conflict otherwise |
| ApprovalCas.DecisionFinalIff | docs/architecture/UCP_PROTOCOL.md:301 | a decided row stays as it is over a run if and only if no call that names the version the decision left gets to its write |
| SessionStore.Store.ApplyEvent | apps/mobile/src/store/session-store.ts:247-357 | each event type changes its own slice of the replica by its reducer and nothing else |
| SessionStore.Store.ApplySnapshot | apps/mobile/src/store/session-store.ts:330-350 | the loops rebuild the replica from the snapshot alone |
| SessionStore.Store.Reset | apps/mobile/src/store/session-store.ts:367-369 | the initial state is restored |
| SessionStore.Store.SetConnectionStatus | apps/mobile/src/store/session-store.ts:359-361 | the status changes and nothing else does |
| DeliverySafety.NoOpIffStale | apps/mobile/src/store/session-store.ts:44-219 | a versioned event changes nothing if and only if the record is at its version or later, or the event cannot create its record |
| DeliverySafety.HarmlessIff | apps/mobile/src/store/session-store.ts:247-357 | for every event but a snapshot, exactly when delivering it changes nothing |
| DeliverySafety.EveryRepeatApplies | apps/mobile/src/store/session-store.ts:69-94 | every repeat of a `session.started` without a version applies again: n deliveries raise the version n times |
| DeliverySafety.VersionsRise | apps/mobile/src/store/session-store.ts:44-228 | apart from snapshots no event removes a record or lowers a version; a session or an approval changes only when its version strictly rises, and of a question only the state changes, by its resolution |
| DeliverySafety.VersionsNeverFall | docs/development/TESTING_STRATEGY.md:92-98 | the same over whole traces |
| DeliverySafety.RedeliveryIsHarmless | docs/architecture/ARCHITECTURE.md:165 | at-least-once delivery: dropping every later delivery of an event whose record was there after its first one leaves the replica exactly as it was |
| DeliverySafety.EarlyUpdateNeedsRedelivery | apps/mobile/src/store/session-store.ts:125-136 | a concrete trace on which the condition of the theorem above is needed |
| DeliverySafety.QuestionResolutionIsNotSafe | apps/mobile/src/store/session-store.ts:221-228 | a concrete trace on which repeating an unversioned resolution undoes a later one; `RepeatedResolutionIff` gives the condition |
| ReplicaColumns.RepeatedResolutionIff | apps/mobile/src/store/session-store.ts:221-228 | after any trace, delivering a resolution changes nothing if and only if the question is absent or the last effective resolution gave the same state |
| DeliverySafety.BatchIsNoOpIff | apps/mobile/src/store/session-store.ts:44-219 | a batch of versioned events leaves the replica unchanged if and only if each of them was stale from the start: effects never cancel |
| DeliverySafety.SnapshotConvergence | apps/mobile/src/store/session-store.ts:330-350 | after the same snapshot and the same further events any two replicas agree, whatever they held before |
| DeliverySafety.SnapshotKeepsHighest | apps/mobile/src/store/session-store.ts:335-337 | the session loop keeps, per id, the first payload with the highest version, and no other ids |
| DeliverySafety.SnapshotKeepsHighestApproval | apps/mobile/src/store/session-store.ts:338-340 | so does the approval loop |
| DeliverySafety.CreationsCommute | apps/mobile/src/store/session-store.ts:44-67 | traces of creations with the same events, in any order and with any repetitions, give the same replica when versions tell creations apart |
| ReplicaColumns.SessionWritten | apps/mobile/src/store/session-store.ts:44-155 | one rule for all five session reducers: each column takes the value the event gives it and keeps the one it had otherwise |
| ReplicaColumns.SessionColumns | apps/mobile/src/store/session-store.ts:44-155 | over any trace each column of a session holds what the last effective event gave it, from the record before or the defaults of `session.started` |
| ReplicaColumns.ApprovalColumns | apps/mobile/src/store/session-store.ts:157-202 | over any trace a card shows the last effective request in the state of the last effective update |
| ReplicaColumns.QuestionColumns | apps/mobile/src/store/session-store.ts:204-228 | over any trace a question shows what was asked first under its id, in the state given last |
| ReplicaColumns.RecordKeptIff | apps/mobile/src/store/session-store.ts:44-202 | a session or approval is the same after a trace if and only if every event about it was stale from the start, unversioned ones never being stale |
| ReplicaColumns.AbsentUntilCreated | apps/mobile/src/store/session-store.ts:44-228 | a record that is absent is there after a trace if and only if some event of the trace creates it, whatever version that event carries |
| ReplicaColumns.QuestionAfter | apps/mobile/src/store/session-store.ts:204-228 | of a question that is there any trace changes the state alone, to the one given last |
| ReplicaColumns.VersionWritten | apps/mobile/src/store/session-store.ts:44-202 | an effective event leaves the record at the version it carries, or at the next one |
| ReplicaColumns.OutcomeColumns | apps/mobile/src/store/session-store.ts:310-328 | over any trace, snapshots included, the store holds for each command the last ack or nack of it, marked as which of the two it was, or else what it held before |
| ReplicaColumns.CursorIsWatermark | apps/mobile/src/store/session-store.ts:330-350 | the cursor is the watermark of the last snapshot |
| BridgeSync.BuildSnapshot | apps/bridge/src/ucp-gateway.ts:485-627 | the snapshot lists exactly the visible sessions, pending approvals and pending questions with their columns, and carries the last journal sequence |
| BridgeSync.SelectSessions | apps/bridge/src/ucp-gateway.ts:487-552 | exactly the sessions that are neither cancelled nor completed over an hour ago, with their columns |
| BridgeSync.SelectApprovals | apps/bridge/src/ucp-gateway.ts:554-590 | exactly the pending approvals, with their columns |
| BridgeSync.SelectQuestions | apps/bridge/src/ucp-gateway.ts:592-614 | exactly the pending questions, with their columns |
| BridgeSync.SnapshotShowsTables | apps/mobile/src/store/session-store.ts:330-350 | after the snapshot the phone shows the tables: every listed record with its columns, nothing else |
| BridgeSync.SnapshotSays | apps/bridge/src/ucp-gateway.ts:485-627 | the same in full: which rows are listed and every column the phone then shows, with the last sequence as its cursor |
| BridgeSync.PhoneShowsJournal | docs/architecture/ARCHITECTURE.md:153-166 | end to end: whatever the bridge went through, a phone that applies its snapshot shows for each session what the journal alone determines |
| BridgeSync.PhoneShowsPendingApprovals | docs/architecture/ARCHITECTURE.md:153-166 | the same for approval cards: one is shown exactly for a pending row, and it is the one the journal determines, at the version of the row |
| BridgeSync.PhoneShowsRequest | apps/bridge/src/adapter-manager.ts:230-244 | end to end: a card on the phone says, field by field, what a journaled request of the runtime asked, also after devices wrote its row and also when the bridge made up its id |
| BridgeSync.PhoneShowsQuestion | apps/bridge/src/adapter-manager.ts:264-273 | the same for questions, which are shown exactly while they are pending |
| Reconnect.ReconnectKeepsSnapshotIff | docs/development/TESTING_STRATEGY.md:92-98 | versioned events after a snapshot leave the phone at the snapshot if and only if each is stale against it |
| Reconnect.ReplayAgreesIff | apps/bridge/src/ucp-gateway.ts:325-326 | from the bridge's tables through snapshot and replay: with versioned events the phone still shows the tables if and only if they hold what each replayed event says |
| Reconnect.RecordAfterReconnectIff | apps/bridge/src/ucp-gateway.ts:325-326 | for any record, listed by the snapshot or not, and any events: it is the same after the replay if and only if no replayed event about a listed session or approval is unversioned or above the row's version, the last replayed resolution of a listed question, if any, gives it the pending state, and no replayed event creates a record that is not listed |
| Reconnect.ScreenAfterReconnectIff | docs/development/TESTING_STRATEGY.md:92-98 | replay and full snapshot give the same screen if and only if that holds of every record |
| Reconnect.SessionAfterReconnectIff | apps/bridge/src/ucp-gateway.ts:325-326 | journal to screen past the replay: which sessions the snapshot lists; a listed one shows what the journal determines if and only if every replayed event about it carries a version not above that of the fold; one that is not listed stays off the screen if and only if no replayed event creates it |
| Reconnect.CardAfterReconnectIff | apps/bridge/src/ucp-gateway.ts:325-326 | the same for approval cards: pending ones against the version of the row, decided and unknown ones against creation |
| Reconnect.QuestionAfterReconnectIff | apps/bridge/src/ucp-gateway.ts:325-326 | the same for questions: a pending one stays as it is if and only if the last replayed resolution of it, if any, gives it the pending state |
| Reconnect.StampedSessionAgrees | docs/development/TESTING_STRATEGY.md:92-98 | with versions stamped by the journal every listed session shows after the replay what the journal determines, whatever the run and the cursor |
| Reconnect.StampedReplayAgrees | docs/development/TESTING_STRATEGY.md:92-98 | with such versions the list of sessions is right if and only if no replayed event creates a session that the snapshot does not list |
| Reconnect.FailedSessionRunsAgain | apps/mobile/src/store/session-store.ts:69-94 | a run of the bridge after which the replay turns a session that the snapshot shows as failed into a running one |
| Reconnect.CancelledSessionRunsAgain | apps/mobile/src/store/session-store.ts:69-94 | a run after which the replay shows a cancelled session as running, with every version stamped |
| Reconnect.DecidedApprovalPendsAgain | apps/mobile/src/store/session-store.ts:157-178 | a run after which the replay shows a decided approval as pending |
| Reconnect.FirstSyncReplaysNothing | apps/bridge/src/ucp-gateway.ts:431-432 | a phone whose snapshot came from an empty journal gets nothing replayed, whatever was journaled since, though all of it is after its cursor |
| Reconnect.ThreeEventsNotReplayed | docs/architecture/UCP_PROTOCOL.md:319 | a run with three rows after such a cursor and an empty replay |
| GatewayStream.AuthenticatedClient.SendEncrypted | apps/bridge/src/ucp-gateway.ts:116-125 | nothing on a socket that is not open; a message too large under the number it takes throws; else one frame with the next number |
| GatewayStream.UcpGateway.Authenticate | apps/bridge/src/ucp-gateway.ts:293-326 | the new client is registered and indexed, and its wire holds the handshake: first message, snapshot with watermark, replay, up to a message that is too large |
| GatewayStream.UcpGateway.ReplayEvents | apps/bridge/src/ucp-gateway.ts:431-442 | the first 500 rows after a positive cursor are sent in order, up to one that is too large |
| GatewayStream.UcpGateway.Broadcast | apps/bridge/src/ucp-gateway.ts:96-103 | the clients get the message in order of insertion, up to the first one under whose frame number it is too large; that one loses a number and those after it get nothing |
| GatewayStream.UcpGateway.Register | apps/bridge/src/ucp-gateway.ts:301-304 | the index stays the grouping of its clients by device key, with no empty group |
| GatewayStream.UcpGateway.Cleanup | apps/bridge/src/ucp-gateway.ts:197-209 | the same, also when it runs several times for one connection and after `stop()` |
| GatewayStream.UcpGateway.CloseEvents | apps/bridge/src/ucp-gateway.ts:357-359 | once the close events of all clients have come the index is empty, also after `stop()` |
| GatewayStream.UcpGateway.DisconnectDevice | apps/bridge/src/ucp-gateway.ts:127-133 | closes exactly the live connections of the device |
| GatewayStream.UcpGateway.Stop | apps/bridge/src/ucp-gateway.ts:135-146 | closes and forgets every connection; the index is right afterwards if and only if there was none |
| GatewayStream.RowsAfterIsSuffix | apps/bridge/src/ucp-gateway.ts:457-473 | in a journal with rising sequences the rows after a cursor are a suffix: everything before it is at or below the cursor |
| GatewayStream.ReplayRises | apps/bridge/src/ucp-gateway.ts:431-473 | the replay are the first rows of those after the cursor, at most 500, rising from above the cursor to at most the watermark |
| GatewayStream.OpenedEffect | apps/bridge/src/ucp-gateway.ts:301-326 | a handshake replays the rows after the cursor in order with none left out between them, completely up to the limit if and only if every message fits under the number its turn gives it |
| GatewayStream.HandshakeTells | apps/bridge/src/ucp-gateway.ts:312-326 | after a handshake that does not throw the wire holds exactly the greeting, the snapshot under the last sequence of the journal, and the replayed events, in frames numbered from 1 but for a greeting in the clear; one that throws got as far as the first message that is too large |
| Frames.FitsIff | packages/crypto/src/frame-crypto.ts:24-35 | a frame fits if and only if its envelope and the digits of its number take at most 1048514 bytes |
| EventStream.BridgeRuns | apps/bridge/src/adapter-manager.ts:76-109 | connections do not reach back: whatever they do, the tables are those of the bridge's own operations |
| EventStream.StreamOrder | apps/bridge/src/ucp-gateway.ts:96-103 | in every reachable state each wire holds the replay followed by a prefix of what was broadcast since, all of it while the connection is open, in frames with rising numbers |
| EventStream.EventsStrictlyIncrease | apps/bridge/src/ucp-gateway.ts:301-326 | on each connection the sequences of journaled events rise strictly: first the replayed ones, which are the first journal rows after the cursor with none left out, at most 500 and up to the watermark, then live ones above the watermark |
| EventStream.WireIsTold | apps/bridge/src/ucp-gateway.ts:96-125 | in every reachable state each wire holds the handshake ahead of everything else, with one snapshot under the watermark of that moment's journal, then events and exactly the replies handed to the connection, as they were given; it is open until its socket is lost or the bridge restarts |
| EventStream.DeliveredIff | apps/bridge/src/adapter-manager.ts:81-108 | from the state before the call: a runtime event reaches an open connection with its journal sequence if and only if it can be journaled, reads no null payload, repeats no request, and is small enough for the frame number of this connection and of every open one before it |
| GatewayStream.ReplayCompleteIff | apps/bridge/src/ucp-gateway.ts:457-473 | with a cursor a replay covers all rows after it if and only if the 501st row from the end is not one of them; without one, if and only if the journal is empty |
| RateLimiter.Limiters.IsRateLimited | apps/bridge/src/ucp-gateway.ts:155-163 | the list of one address is pruned, and extended only when the attempt is let through; other addresses are untouched |
| RateLimiter.Limiters.IsPairingCodeRateLimited | apps/bridge/src/ucp-gateway.ts:165-173 | the list of one code is pruned and always extended |
| RateLimiter.ListIsHistory | apps/bridge/src/ucp-gateway.ts:155-173 | pruning loses nothing: at every later moment the list says what the full history would |
| RateLimiter.ListAfterAttempt | apps/bridge/src/ucp-gateway.ts:155-173 | after each attempt the list is the counted history of the last window |
| RateLimiter.RecentIsSuffix | apps/bridge/src/ucp-gateway.ts:155-173 | on a clock that does not go back the remembered attempts are the latest ones, exactly those less than a window old |
| RateLimiter.AllowedIffFewRecent | apps/bridge/src/ucp-gateway.ts:155-173 | an attempt is let through if and only if fewer than the maximum counted attempts fell in its window |
| RateLimiter.WindowBound | apps/bridge/src/ucp-gateway.ts:155-173 | no half-open window of an unbounded run holds more than the maximum |
| RateLimiter.TenConnectionsPerMinute | apps/bridge/src/ucp-gateway.ts:155-163 | at most 10 connections per address in any 60 seconds, and one is accepted exactly when fewer than 10 accepted ones are that recent |
| RateLimiter.FiveCodeAttempts | apps/bridge/src/ucp-gateway.ts:165-173 | at most 5 admitted attempts per code in any 5 minutes; refused attempts count against the limit |
| Pairing.BridgePairingStore.CreatePairingSession | apps/bridge/src/pairing-support.ts:35-53 | stores an unused session that lives five minutes, or fails without effect when the nonce exists or an unused session holds the code |
| Pairing.BridgePairingStore.ValidatePairingCode | apps/bridge/src/pairing-support.ts:55-61 | true if and only if the code is four digits and the nonce's session has it, is unused and has not expired |
| Pairing.BridgePairingStore.ResolvePairingCode | apps/bridge/src/pairing-support.ts:63-70 | a nonce for which the code validates, or none if there is none |
| Pairing.BridgePairingStore.CompletePairing | apps/bridge/src/pairing-support.ts:72-156 | the error of the first failing check without effect, else device row, used nonce and audit entry together |
| Pairing.BridgePairingStore.ValidateDevice | apps/bridge/src/pairing-support.ts:158-192 | a grant exactly for active devices, whose last-seen time alone changes |
| Pairing.BridgePairingStore.RevokeDevice | apps/bridge/src/pairing-support.ts:194-213 | revokes and audits a device once, and does nothing for unknown or revoked ones |
| Pairing.BridgePairingStore.IsDeviceRevoked | apps/bridge/src/pairing-support.ts:215-220 | true exactly for keys whose row is revoked |
| Pairing.CodeText | apps/bridge/src/pairing-support.ts:40 | every drawn number prints as four digits that read back as that number |
| Pairing.EveryRunSound | apps/bridge/src/pairing-support.ts:72-213 | over all runs ids and active codes are unique, and the audit trail holds one completion per used session and one revocation per revoked device |
| Pairing.LivesForGood | apps/bridge/src/pairing-support.ts:72-213 | over any further run a revoked key stays revoked, a key keeps its device id and pairing time, a used nonce stays used and audit entries stay |
| Pairing.NonceConsumedOnce | apps/bridge/src/pairing-support.ts:72-156 | over all runs a nonce is consumed at most once, exactly when its session ends up used, and only if unexpired when checked |
| Pairing.ResolvesIffValidates | apps/bridge/src/pairing-support.ts:55-70 | a code resolves to n if and only if the pair of code and n validates at that moment |
| Pairing.AtMost9000Unused | db/migrations/003_short_pairing_codes.sql:5-7 | by pigeonhole at most 9000 sessions are unused at any time |
| Pairing.ExpiredCodeIsLost | db/migrations/003_short_pairing_codes.sql:5-7 | a session that expired unused blocks its code in every later state |
| Pairing.SessionIsAsIssued | apps/bridge/src/pairing-support.ts:35-53 | over all runs a nonce has a session if and only if a step stored it; the row holds host key and creation time of that step, the four digits of its draw, and an expiry 300000 ms after its clock |
| Pairing.DeviceIsAsPaired | apps/bridge/src/pairing-support.ts:72-213 | over all runs the row of a key is the device its steps make: id and pairing time of the first pairing, name of the last one, last-seen time of the last pairing or validation, and the time of its revocation |
| Pairing.AuditIsTrue | apps/bridge/src/pairing-support.ts:72-213 | over all runs the audit trail holds every pairing and every revocation with the id of its device, in order, and nothing else |
| Pairing.PairingAnswers | apps/bridge/src/pairing-support.ts:72-156 | exactly when a pairing ends with which error, and the grant it ends with otherwise |
| Pairing.ValidationAnswers | apps/bridge/src/pairing-support.ts:158-192 | a grant for active devices only, with id, name and pairing time of the row |
| Handshake.UcpGateway.OnInitialize | apps/bridge/src/ucp-gateway.ts:236-292 | the whole decision on a first message: close code or grant, tables and remembered attempts |
| Handshake.AdmittedIff | apps/bridge/src/ucp-gateway.ts:252-288 | a known key gets in if and only if it is active; an unknown one if and only if it brings a live code that is not rate limited, alone or with its own nonce |
| Handshake.HandshakeEndsAs | apps/bridge/src/ucp-gateway.ts:251-288 | every end of a handshake: 4002 without a device key, 4005 for a revoked one, the grant of its row for an active one; for an unknown key 4003 without a live code that is not rate limited, 4007 when the code has expired by the pairing or the new id is taken, else a grant under the new id |
| Handshake.ShakeIsSteps | apps/bridge/src/ucp-gateway.ts:263-283 | a handshake changes the pairing tables only by their own operations |
| Handshake.RevokedNeverAdmitted | apps/bridge/src/ucp-gateway.ts:257-261 | over every further run a handshake of a revoked key is closed with 4005 and changes nothing |
| Handshake.SameGrantEveryTime | apps/bridge/src/pairing-support.ts:119-121 | every later admission of a key carries the device id and pairing time of the first |
| Handshake.ListIsTries | apps/bridge/src/ucp-gateway.ts:165-173 | over all runs and interleavings of connections the remembered attempts of a code are what the tries of that code alone make of the list, and the tries let through are those the limiter allows |
| Handshake.FiveTriesPerCode | apps/bridge/src/ucp-gateway.ts:264-271 | over all runs and interleavings, on a clock that does not go back, at most five tries of one code in any five minutes get as far as the check of the code |
| Handshake.AdmissionWasLetThrough | apps/bridge/src/ucp-gateway.ts:263-281 | an unknown key is never admitted without such a try |
| CommandDispatch.CommandLedger.Accept | packages/bridge-core/src/command-ledger.ts:45-58 | a new row only for a new id and a new key; a used one is a duplicate, a broken foreign key throws, and neither changes anything |
| CommandDispatch.CommandLedger.Mark | packages/bridge-core/src/command-ledger.ts:60-82 | the state of the one row changes and nothing else |
| CommandDispatch.UcpGateway.HandleMessage | apps/bridge/src/ucp-gateway.ts:629-675 | ledger, calls, pending calls and replies after one message |
| CommandDispatch.UcpGateway.DispatchCommand | apps/bridge/src/ucp-gateway.ts:735-800 | the call made for each command type, or the failure recorded without one |
| CommandDispatch.UcpGateway.OnSettled | apps/bridge/src/ucp-gateway.ts:746-799 | a completed call is confirmed, and acknowledged if the socket is open; a broken one, a new session that cannot be registered, or an acknowledgement too large for an open socket, is failed and refused |
| CommandDispatch.NextSound | apps/bridge/src/ucp-gateway.ts:629-800 | rows are never removed or rewritten: a row keeps its key and moves only from dispatched to confirmed or to failed |
| CommandDispatch.AtMostOneCallPerKey | docs/architecture/UCP_PROTOCOL.md:333 | over all clients, resends, restarts and orders of completion no two runtime calls carry the same idempotency key |
| CommandDispatch.FinalForGood | packages/bridge-core/src/command-ledger.ts:60-82 | a confirmed or failed command stays what it is |
| CommandDispatch.ConfirmedIffSucceeded | apps/bridge/src/ucp-gateway.ts:792-799 | over all runs a command is confirmed if and only if its call succeeded while under way, a new session could be registered, and the client's socket was not open or the acknowledgement fitted |
| CommandDispatch.CalledIffCaused | apps/bridge/src/ucp-gateway.ts:629-675 | over all runs the runtime is called for a key if and only if some message with the key met the conditions for a call when it arrived |
| CommandDispatch.RepeatMakesNoSecondCall | apps/bridge/src/ucp-gateway.ts:659-662 | a message that made a call can be handed over again at any later time and on any connection: no second call, no row touched |
| CommandDispatch.SucceededButFailed | apps/bridge/src/ucp-gateway.ts:748-799 | a `command/start` whose acknowledgement is too large succeeds and is recorded as failed |
| CommandDispatch.StartRecordedFailedIff | apps/bridge/src/ucp-gateway.ts:748-799 | a `command/start` whose runtime call succeeded is recorded as failed if and only if the session cannot be registered or the acknowledgement cannot be sent |
| CommandDispatch.OtherAcksFit | apps/bridge/src/ucp-gateway.ts:792-795 | the acknowledgement of any other command that the gateway can receive fits in a frame |
| CommandDispatch.RepliesIff | apps/bridge/src/ucp-gateway.ts:659-799 | over all runs, from the steps: a command is acknowledged if and only if its call did what it was asked for and the acknowledgement went out; refused if and only if focus is not configured, its call ended with an error, its session was not registered or its acknowledgement was too large, and the refusal went out; and a repeat is answered as one if and only if a well-formed message came with a used id or key |
| CommandDispatch.ToldOnce | apps/bridge/src/ucp-gateway.ts:792-799 | no command is both acknowledged and refused, none is told either twice, and what was told is what the ledger says |
| CommandDispatch.FailedIff | apps/bridge/src/ucp-gateway.ts:735-799 | over all runs a command is failed if and only if nothing serves its type, its call ended with an error, its session was not registered, or its acknowledgement was too large for an open socket |
| CommandDispatch.RowIsMessage | packages/bridge-core/src/command-ledger.ts:45-58 | the ledger has a row if and only if the gateway took the command from some message, and the row holds key, device, session and type of that message |
| CommandDispatch.InFlightIff | apps/bridge/src/ucp-gateway.ts:735-799 | a call is under way if and only if it was made and has neither ended nor been forgotten by a restart |
| SecureChannel.EncryptFrame | packages/crypto/src/frame-crypto.ts:17-52 | a plaintext too large with the frame's number in it fails without sealing; else the frame carries nonce and ciphertext, and opens to its envelope |
| SecureChannel.DecryptFrame | packages/crypto/src/frame-crypto.ts:57-94 | the envelope, or the first of the five checks that fails |
| SecureChannel.OpensAgain | packages/crypto/src/frame-crypto.ts:17-94 | decrypting undoes encrypting |
| SecureChannel.OpensOnlyUnderItsHeader | packages/crypto/src/frame-crypto.ts:83-88 | sealed bytes open if and only if the frame header is the one they were sealed with, and under no other key |
| SecureChannel.SecureConnection.OnMessage | apps/bridge/src/ucp-gateway.ts:334-355 | counter, handed messages and close codes after one incoming message of any kind |
| SecureChannel.UcpClient.Send | apps/mobile/src/services/ucp-client.ts:162-169 | each send takes the next number, also when the frame is too large to be sent |
| SecureChannel.HandledInSequence | apps/bridge/src/ucp-gateway.ts:334-355 | under any network the handled messages have strictly rising sequences and each was sealed under exactly its header's sequence and nonce |
| SecureChannel.HandledInSealingOrder | apps/bridge/src/ucp-gateway.ts:334-355 | each of the phone's envelopes is handled at most once per connection, in sealing order, in the frame the phone made |
| SecureChannel.HandledIff | apps/bridge/src/ucp-gateway.ts:334-355 | over all runs a delivery is handled if and only if it opens and its sequence is above every sequence that opened on this connection before; any other leaves the counter; and each brings its close code: 1009 for an oversized message, 4010 for JSON that is no sealed frame, 4009 for a low sequence, 4004 for one that does not open, for `null` and for a handler that throws |
| SecureChannel.ClosedWith | apps/bridge/src/ucp-gateway.ts:334-355 | over any run a connection was closed with exactly the codes of its deliveries, in order |
| SecureChannel.SentIs | apps/mobile/src/services/ucp-client.ts:162-169 | over any run the frames sent are those of the sends that fit, each numbered by its place among all sends |
| SecureChannel.OpeningFailsBy | packages/crypto/src/frame-crypto.ts:57-94 | for any bytes and any header, exactly which check fails |
| SecureChannel.HandledAgainIff | apps/bridge/src/ucp-gateway.ts:293-300 | a frame of the phone, handled on an earlier connection or not, is handled now if and only if its sequence is above what opened on this one |
| SecureChannel.InOrderAllHandled | apps/bridge/src/ucp-gateway.ts:334-355 | frames that arrive in order are all handled, with any of them missing |
| ReconnectBackoff.UcpClient.Connect | apps/mobile/src/services/ucp-client.ts:131-135 | returns early while connected or connecting, else opens a socket |
| ReconnectBackoff.UcpClient.Disconnect | apps/mobile/src/services/ucp-client.ts:137-142 | timer and socket are gone and the status is closed |
| ReconnectBackoff.UcpClient.OnOpen | apps/mobile/src/services/ucp-client.ts:200-202 | connected, with the attempts back at zero |
| ReconnectBackoff.UcpClient.OnTimer | apps/mobile/src/services/ucp-client.ts:375-378 | the timer is spent and the next socket is opened |
| ReconnectBackoff.UcpClient.OnClose | apps/mobile/src/services/ucp-client.ts:219-224 | an intended close ends there, any other schedules a retry |
| ReconnectBackoff.UcpClient.OnHandshakeError | apps/mobile/src/services/ucp-client.ts:204-212 | closes the client only for its current socket |
| ReconnectBackoff.UcpClient.ScheduleReconnect | apps/mobile/src/services/ucp-client.ts:368-379 | gives up after five attempts, else sets a timer with the doubled delay |
| ReconnectBackoff.NextSound | apps/mobile/src/services/ucp-client.ts:195-229 | every event keeps the one-connection invariant when `connect()` is called only where it is harmless |
| ReconnectBackoff.ConnectedOnce | apps/mobile/src/services/ucp-client.ts:131-229 | connected once, a client never has more than one live socket or pending timer, nor more than five attempts |
| ReconnectBackoff.ConnectHarmlessIff | apps/mobile/src/services/ucp-client.ts:131-135 | the exact condition under which a later `connect()` keeps that |
| ReconnectBackoff.NothingOpensAfterDisconnect | apps/mobile/src/services/ucp-client.ts:137-142 | after `disconnect()` no socket opens until the next `connect()` |
| ReconnectBackoff.DisconnectInsideHoldsIff | apps/mobile/src/services/ucp-client.ts:219-224 | the exact condition under which that holds for a call from inside the callback |
| ReconnectBackoff.FailuresEnd | apps/mobile/src/services/ucp-client.ts:368-379 | from any live state with a attempts, failures lead through exactly 5 - a retries with doubling delays to closed |
| ReconnectBackoff.FiveRetriesThenClosed | apps/mobile/src/services/ucp-client.ts:368-379 | a client that never gets through makes six sockets, waits 31000 ms in all and is then closed |
| ReconnectBackoff.StatusTells | apps/mobile/src/services/ucp-client.ts:131-229 | connected and disconnected any number of times: closed if and only if nothing is live or planned, connected with an open socket and no attempt used, connecting or reconnecting while dialing by whether an attempt was used; a planned retry waits 1000 ms doubled for each attempt before it |
| ReconnectBackoff.AttemptsCountRetries | apps/mobile/src/services/ucp-client.ts:131-202 | the attempts count the retries planned since a socket was last open; nothing else resets them, neither `connect()` nor `disconnect()` |
| TextSplitting.NoEarlierMatch | packages/adapter-opencode/src/opencode-client.ts:57-59 | later input never creates a delimiter before an existing one |
| TextSplitting.DelimitersAre | packages/adapter-opencode/src/opencode-client.ts:57-59 | the three delimiters in characters |
| TextSplitting.SplitAppend | packages/adapter-opencode/src/opencode-client.ts:57-59 | appending text leaves every finished piece alone and continues the last one |
| TextSplitting.PiecesHoldNoDelimiter | packages/adapter-opencode/src/opencode-client.ts:58-59 | no piece of a split holds a delimiter |
| SseFraming.ReadEvents | packages/adapter-opencode/src/opencode-client.ts:53-65 | for every way of cutting the stream the loop decodes exactly the records of the whole text |
| SseFraming.EmittedIsPrefix | packages/adapter-opencode/src/opencode-client.ts:57-60 | what was emitted stays the start of what the whole stream emits |
| SseFraming.PayloadPreservedIff | packages/adapter-opencode/src/opencode-client.ts:177-188 | which printed payloads decode to their own text, exactly, for any number of lines |
| SseFraming.DecodeUndoesPrint | packages/adapter-opencode/src/opencode-client.ts:177-188 | a printed payload decodes to its text |
| SseFraming.OneLinePreservedIff | packages/adapter-opencode/src/opencode-client.ts:178-181 | the one-line case: not empty and no leading character of the 25 that count as white space |
| SseFraming.PrintedStreamDecodes | packages/adapter-opencode/src/opencode-client.ts:177-188 | a printed stream decodes to its payloads, once each and in order, if and only if every payload is preserved |
| SseFraming.DeliverPrinted | packages/adapter-opencode/src/opencode-client.ts:53-65 | the same through the reading loop under any chunking |
| SseFraming.OtherLinesIgnored | packages/adapter-opencode/src/opencode-client.ts:177-182 | a line of a record that is no `data:` line changes nothing, wherever it stands |
| SseFraming.UnterminatedLastDecodes | packages/adapter-opencode/src/opencode-client.ts:61-64 | a stream that ends without the blank line after its last record delivers that record too |
| JsonRpcClient.CodexClient.OnData | packages/adapter-codex/src/codex-client.ts:27-49 | one chunk: every completed line is processed in order, the rest stays in the buffer |
| JsonRpcClient.CodexClient.SendRequest | packages/adapter-codex/src/codex-client.ts:111-129 | a request is pending, or rejected at once on a closed client |
| JsonRpcClient.CodexClient.OnTimeout | packages/adapter-codex/src/codex-client.ts:116-119 | a pending request is rejected, one that is gone is left alone |
| JsonRpcClient.CodexClient.OnWriteError | packages/adapter-codex/src/codex-client.ts:121-127 | the request leaves the table and its promise settles unless it already had |
| JsonRpcClient.CodexClient.OnClose | packages/adapter-codex/src/codex-client.ts:51-59 | every pending request is rejected and nothing is pending |
| JsonRpcClient.ChunkingInvisible | packages/adapter-codex/src/codex-client.ts:27-49 | the same complete lines are processed in order, and the same text is buffered, however the input is cut |
| JsonRpcClient.FirstResponseWins | packages/adapter-codex/src/codex-client.ts:35-41 | a pending request is resolved by the first response with its id |
| JsonRpcClient.EveryRequestAccountedFor | packages/adapter-codex/src/codex-client.ts:111-129 | every issued request is either pending or settled, a closed client has none pending, and the buffer holds no complete line |
| JsonRpcClient.SettledForGood | packages/adapter-codex/src/codex-client.ts:51-129 | a promise settles once, closed is final, and a request resolves only with a response to it |
| JsonRpcClient.EveryLineHeard | packages/adapter-codex/src/codex-client.ts:27-49 | over all runs and any chunking: the notifications emitted are exactly the complete lines of the output that parse as such, in order, the errors exactly the malformed ones, and the rest is buffered |
| JsonRpcClient.RequestEndsAs | packages/adapter-codex/src/codex-client.ts:27-129 | over all runs a request ends as whatever came first: rejected by a closed client, its timeout, a failed write or the end of the connection, or resolved with the first response that carries its id |
| FaultPipeline.FakeAdapter.InjectFault | packages/adapter-fake/src/fake-adapter.ts:179-197 | the setting of one fault changes and the others stay |
| FaultPipeline.FakeAdapter.ClearFaults | packages/adapter-fake/src/fake-adapter.ts:199-202 | all faults are off and the held events are gone |
| FaultPipeline.FakeAdapter.EmitWithFaults | packages/adapter-fake/src/fake-adapter.ts:231-261 | crash, drop, duplicate and reorder take effect in that order |
| FaultPipeline.Conservation | packages/adapter-fake/src/fake-adapter.ts:231-261 | for every schedule of faults the input events are, as a multiset, the unflagged deliveries, the dropped, the crashed, the cleared and the held ones |
| FaultPipeline.BufferBound | packages/adapter-fake/src/fake-adapter.ts:246-258 | events are held only while the window is three, and never three of them |
| FaultPipeline.FlushReverses | packages/adapter-fake/src/fake-adapter.ts:246-258 | a flush delivers exactly the two held events and the new one, last first |
| FaultPipeline.OutputIs | packages/adapter-fake/src/fake-adapter.ts:179-261 | for every schedule of faults exactly what is emitted, in order: crash notices with their session, nothing for the one dropped event, two flagged copies of the one doubled event, and a window of three last first |
| FaultPipeline.DelayWithinBounds | packages/adapter-fake/src/fake-adapter.ts:184-186 | an injected delay lasts from 500 to 2000 ms, the first one 854 |

## Left out

- Append: a null session id is not modelled; `handleEvent`, its only caller, passes the event's session id.
- GetPending: the order by creation time.
- BuildSnapshot: the order of the rows; nothing in the bridge writes the stored pending counts or an approval's expiry, so they are their defaults.
- SelectSessions: the same order and counts.
- SelectApprovals: the same order and expiry.
- SelectQuestions: the same order.
- PhoneShowsJournal: says what the snapshot shows; `Reconnect` says what is left of it after the replay.
- RedeliveryIsHarmless: the redeliveries it drops are those of versioned events; the live events the bridge sends today carry no version, which the phone's types require.
- EveryRunIsProjected: rows are written one event at a time; two bridge processes on one database are not modelled.
- ConnectedOnce: `onDisconnected` is taken to make no call into the client; `DisconnectInsideHoldsIff` treats the one that does.
- HandledInSealingOrder: covers the frames the phone sealed; other frames under the same key are only covered by `HandledInSequence`.
- JSON parsing, schema validation, UTF-8 decoding and base64: records and text are given; a malformed command message is one that is dropped.
- Ed25519, X25519, HKDF and the inside of AES-GCM: the session key is a value, and one key is used throughout a run of the secure channel.
- How the phone turns a replayed row into an event: `Reconnect` takes any such reading.
- SQLite and its driver: an undefined parameter is taken to be bound as NULL, INSERT OR IGNORE to skip a row that breaks NOT NULL but to use up its number, and a statement that throws to use up none.
- The bytes of JSON text: the length of an envelope is given, characters of ids and errors count as one byte.
- Timestamps, `runtime_instances`, `project_name` and the stored pending counts of the tables; ISO time strings are compared as numbers.
- Events that arrive before the adapter's probe has answered: they throw in `ensureSession`, as they do here for an unregistered adapter, and registering two different runtimes.
- `QuestionService.resolve`: it writes a column that the `questions` table does not have; approval resolution is the model of that protocol.
- The foreign key from commands to devices: the secure path passes a public key where a device id is referenced; the model takes the set of accepted values as given.
- A process that dies between two SQL statements of one handler; a restart happens between handlers.
- Listeners and callbacks that throw or call back into the emitter while an event is emitted.
- The handshake timeout, oversized and unparsable first messages, and bridges configured without pairing hooks.
- The legacy plaintext path, which repeats the logic of the secure path, and `packages/bridge-pairing`, a near copy of the pairing store without codes.
- The phone's receiving side of sealed frames, which checks no sequence.
- `route-diagnostics.ts`: a ten-sample window with mean and maximum, settled by reading one method.
- Screens, preferences, host discovery, URL validators, event-normalizer tables and the scenario runner.
