# Verified model of the factory platform's recovery protocols and exact codecs

The platform runs a factory: a *post agent* beside each machine polls leased commands, drives scales
and printers and reports back, and browser workbenches send business operations to the API. Replies
get lost, processes crash, pages reload, users press a button twice. This project models the code
that has to stay right through all of that, and the arithmetic and encodings with exact promises,
and proves what they promise. `dafny verify dfyconfig.toml` checks the whole project.

## What is modelled

**The post agent** (`AgentProtocol`, `GatewayAgent`, `ResultOutbox`, `JournalText`, `OfflineBuffer`, `LineFile`).
The agent polls, invokes a device, journals the result, and delivers it until it is acknowledged or
rejected for good; diagnostic events travel in a bounded store-and-forward file. `AgentProtocol` is
the protocol as a step system: memory, durable files, platform and a monotone clock, where a step is
one synchronous segment between two suspension points, or one durable write when a crash may fall in
between. `GatewayAgent.Agent` holds the agent's fields and is proved, method by method, to make exactly
those steps, using the `Outbox` class that is proved against the journal's file. The theorems hold in
every interleaving of polls, heartbeats, lost replies, crashes and restarts.

**The idempotent client** (`Transport`, `OperationGate`, `ReplayGuard`). A gate keeps one operation key per
intent while delivery is uncertain, in memory and for signed-in users in a durable journal; guards freeze
the payload meanwhile. `Transport` says what can become of a request and what the client makes of it; the
gate is a step system over it together with a server that commits each key at most once, answers truthfully
about the operation when it answers about it at all, and may answer late or never; the guards are composed
with that same gate.

**Live refresh and the inbox** (`LiveRefresh`, `Inbox`, `LoadMore`). The generation, in-flight, trailing
and abort machine of the refresh controller with reentrant calls, the algebra of merging pages and
optimistic reads, and the request frontier with the chain of cursors it protects.

**Payroll** (`Payroll`, `PayrollLadder`, `GroupedSum`). What an accepted payroll preview guarantees about
its sums, and tariff ladders as a partition of all masses.

**Codecs and loops** (`JsonString`, `JsonCanon`, `KeyOrder`, `JsonParse`, `JsonText`, `JsonWellFormed`, `Utf8`, `HexBytes`,
`UriComponent`, `BreakdownAction`, `JsTrim`, `Zpl`, `Paging`, `RollGroups`). Canonical JSON, JSON printing
and parsing (RFC 8259; key order as in section 3.2.3 of RFC 8785), UTF-8 (section 3 of RFC 3629),
percent-encoding (section 19.2.6 of ECMA-262), ZPL labels, cursor loops and the grouping of rolls.

JavaScript strings are sequences of UTF-16 code units; a JSON number is carried by its text.

## What the proofs found

- `OfflineBuffer`: an event can be lost without being sent and without overflowing itself. When the
  queue overflows while its head is being sent, `splice` drops the event in flight and the `shift`
  after the send removes the next one instead. `OverflowDuringSendLosesAnEvent` is a run of it,
  `RemovedEventArrivedIff` and `LossIff` the exact condition, `NothingLostWithRoom` the guarantee that is left.
- `AgentProtocol`: a crash between a device invocation and the journal write can repeat an execution
  (`ACrashCanRepeatAnExecution`), and nothing else can as long as the platform leases no settled id again
  (`RepeatedExecutionNeedsACrash`).
- `LiveRefresh`: a task started from inside an abort listener of `stop` ends up active but without interval
  and listeners (`StartInsideStopLosesTheListeners`); `RegisteredIff` is the exact condition.
- `OperationGate`: whether attempts of one intent share a key, and only they, comes down in every run to two branches of
  `start` (`OneKeyBetweenClosings`): an open intent started with its key in neither memory nor journal, and a closed one
  started while the journal still gives its old key. Both are reachable. After a reload a key is gone when the session was
  cleared, another user started a durable operation (signing in writes nothing) or its age is out of range
  (`KeySurvivesIff`); then one intent can take effect twice (`AnotherUserForgetsTheKey`). A clock that is behind when a
  success is reported leaves the entry in the journal (`ClosedKeyRevivesIff`); set right again, the next operation of that
  intent goes out under the used key and is reported as a success without any effect (`AClockSetBackRevivesAClosedKey`).
- `Transport`: three kinds of reply close an intent although they say nothing about its operation: an exception before
  the retry is sent, a refusal from before the operation looks at its key (a session, a limit), and an undecided answer
  of status 4xx whose body, and with it the code, cannot be read. After a first request that took effect unseen each of
  them costs a second effect (`ABlindReplyForgetsACommittedKey`); `CommittedIsReportedOrOpen` says that nothing else does,
  and `ExactlyOnce` what holds without them.
- `LoadMore`: leaving the role during a load invalidates the request but not the inbox, which goes on loading with nothing
  to wait for and refuses every press until a first page or a clear (`LeavingDuringALoadStaysLoading`,
  `StrandedInboxIsStuck`); `LoadingIffOneCurrent` is the exact condition.
- `Inbox`: begin and roll back are inverse, and commute with another read, exactly under the conditions
  of `BeginThenRollback` and `RollbackCommutesWithBegin`; they fail at an unread count of zero.
- `Paging`: a page naming the empty cursor makes the warehouse queue send its first query again
  (`QueriesRepeatIffEmptyCursor`); the production pages refuse such a cursor.
- `Payroll`: the joined shift key confuses two machine shifts exactly when one shift id is the other, a NUL and a
  beginning of the other's post id (`ShiftKeysEqualIff`); an accepted preview then counts them as one
  (`CountedShiftsIff`, `NulMakesShiftKeysCollide`).

## Model

| member | source | states |
|---|---|---|
| AgentProtocol.DeviceRunsOnlyWithEmptyJournal | apps/gateway-agent/src/agent.ts:121-163 | in every run a device starts or works only while journal and memory hold no result, and outside development only after a grant |
| AgentProtocol.NoResultIsLost | apps/gateway-agent/src/result-outbox.ts:121-144 | a result once journaled is in the journal, acknowledged or in quarantine, at every crash point |
| AgentProtocol.BatchHandledInOrder | apps/gateway-agent/src/agent.ts:138-159 | the commands dealt with are a prefix of the batch without duplicates, all of it at the end, each with a recorded result or in progress |
| AgentProtocol.DistinctPrefix | apps/gateway-agent/src/agent.ts:138-143 | removing duplicates from a longer part of the batch only appends |
| AgentProtocol.DistinctCovers | apps/gateway-agent/src/agent.ts:138-143 | the batch without duplicates has each id once, by its first occurrence |
| AgentProtocol.InvocationsBeatTheirDeadline | apps/gateway-agent/src/agent.ts:130-183 | every invocation, late in the batch or not, starts more than 50 ms before the deadline the platform set during the poll |
| AgentProtocol.GrantedIff | apps/gateway-agent/src/agent.ts:165-183 | on a monotone clock a command is granted exactly when its dates parse and more than 50 ms of its finite budget are left |
| AgentProtocol.RepeatedExecutionNeedsACrash | apps/gateway-agent/src/agent.ts:139-158 | if settled ids are never leased again, an id runs at most once more than crashes cut it off from its journal write, and has one recorded result at most |
| AgentProtocol.ACrashCanRepeatAnExecution | apps/gateway-agent/src/agent.ts:153-155 | the bound is reached: a run with one crash and two invocations of one id |
| AgentProtocol.InvocationsCounted | apps/gateway-agent/src/agent.ts:139-158 | whatever the platform leases, an id was invoked exactly as often as its invocations ended in a journaled result, were cut off by a crash, or are under way |
| AgentProtocol.RecordedAsAnswered | apps/gateway-agent/src/agent.ts:144-155 | in every run a result that was ever journaled is what a device answered for that command and lease, or the deadline refusal of a command the agent came to without a grant |
| AgentProtocol.DeviceAnswerIsJournaled | apps/gateway-agent/src/agent.ts:153-156 | in every run what the device answers is journaled next, alone, and its delivery begins |
| AgentProtocol.DeliveryEnds | apps/gateway-agent/src/agent.ts:185-203 | in every run an acknowledged result leaves, a rejected one leaves after its copy is in quarantine, and one whose delivery failed is sent again by the next poll before anything else |
| AgentProtocol.PollingFollowsTheLastWord | apps/gateway-agent/src/agent.ts:79-82 | in every run commands are fetched only when the last acknowledgement since the start allowed it, and by an idle agent with nothing to deliver exactly then |
| AgentProtocol.WaitsEnd | apps/gateway-agent/src/agent.ts:134-137 | a failed poll leaves the agent idle, a device's answer ends its invocation, and recording ends in a delivery |
| AgentProtocol.RestartIsFresh | apps/gateway-agent/src/main.ts:56-64 | after a crash at any point the next process has the journal in memory and nothing else: no batch, no heartbeat under way, no grant |
| AgentProtocol.ClockIsLatest | apps/gateway-agent/src/agent.ts:181-182 | the agent's clock is the latest time reported |
| AgentProtocol.RunSound | apps/gateway-agent/src/agent.ts:121-163 | the invariants behind these hold after every sequence of steps |
| AgentProtocol.RunInTime | apps/gateway-agent/src/agent.ts:165-183 | the deadline bound holds along every run |
| AgentProtocol.RunAtMostOnce | apps/gateway-agent/src/agent.ts:142-155 | the bound on invocations and records holds along every run |
| AgentProtocol.PickResumes | apps/gateway-agent/src/agent.ts:139-153 | the batch loop stops at a command not dealt with before, invoking it exactly when its grant holds, or at the end of the batch |
| AgentProtocol.StepShape | apps/gateway-agent/src/agent.ts:121-163 | a step either runs a loop to its next suspension point or leaves batch, journal and history alone |
| GatewayAgent.Agent.constructor | apps/gateway-agent/src/agent.ts:30-43 | a new process is the protocol's restart over the same files; polling is allowed at once only in development |
| GatewayAgent.Agent.PollTimer | apps/gateway-agent/src/agent.ts:121-127 | makes the protocol's step; an overlapping poll does nothing |
| GatewayAgent.Agent.FlushHead | apps/gateway-agent/src/agent.ts:125-130 | reaches the next send or gives way to the poll or the batch, as the protocol does |
| GatewayAgent.Agent.Pick | apps/gateway-agent/src/agent.ts:138-153 | the batch loop reaches the protocol's next invocation or refusal |
| GatewayAgent.Agent.Take | apps/gateway-agent/src/agent.ts:142-153 | a fresh command is invoked or refused as the protocol does |
| GatewayAgent.Agent.ResultReplied | apps/gateway-agent/src/agent.ts:185-203 | an answer to a delivery makes the protocol's step |
| GatewayAgent.Agent.Acknowledge | apps/gateway-agent/src/agent.ts:188-190 | an acknowledged result leaves journal and memory and the flush goes on |
| GatewayAgent.Agent.LoseReply | apps/gateway-agent/src/agent.ts:199-201 | a failed delivery ends the flush and keeps the result |
| GatewayAgent.Agent.Quarantine | apps/gateway-agent/src/agent.ts:192-197 | a terminal rejection puts a copy in quarantine while the journal still holds the result |
| GatewayAgent.Agent.FinishRemoval | apps/gateway-agent/src/result-outbox.ts:134-141 | only then does the rejected result leave the journal |
| GatewayAgent.Agent.DropOldest | apps/gateway-agent/src/result-outbox.ts:140-141 | the oldest result leaves memory and journal together |
| GatewayAgent.Agent.PollReplied | apps/gateway-agent/src/agent.ts:129-139 | a batch makes the protocol's step, timed from before the poll |
| GatewayAgent.Agent.PollRejected | apps/gateway-agent/src/agent.ts:134-137 | a failed poll leaves everything as it is |
| GatewayAgent.Agent.DeviceFinished | apps/gateway-agent/src/agent.ts:153-154 | the device's result is held, not yet durable |
| GatewayAgent.Agent.RecordResult | apps/gateway-agent/src/agent.ts:155-158 | the result is journaled before it is sent; a conflict with a stored one cannot arise |
| GatewayAgent.Agent.Journal | apps/gateway-agent/src/agent.ts:155-155 | journals the result and makes the protocol's step |
| GatewayAgent.Agent.HeartbeatTimer | apps/gateway-agent/src/agent.ts:71-73 | an overlapping heartbeat does nothing |
| GatewayAgent.Agent.HeartbeatReplied | apps/gateway-agent/src/agent.ts:79-82 | the acknowledgement alone decides whether the next poll may fetch commands |
| GatewayAgent.Agent.HeartbeatFinished | apps/gateway-agent/src/agent.ts:96-98 | makes the protocol's step |
| GatewayAgent.Launch | apps/gateway-agent/src/main.ts:58-62 | over any journal file, blank ends, duplicates and unreadable lines included, the process starts as the protocol restarts with the records the file holds |
| ResultOutbox.FirstValidRecordWins | apps/gateway-agent/src/result-outbox.ts:57-72 | loading keeps exactly the first valid record of each id and sets aside exactly the unreadable and contradicting lines |
| ResultOutbox.SameRecordMeaning | apps/gateway-agent/src/result-outbox.ts:63-67 | comparing canonical texts compares id, lease, time and the result up to key order |
| ResultOutbox.LoadAfterPersist | apps/gateway-agent/src/result-outbox.ts:50-84 | loading what was persisted is the identity |
| ResultOutbox.DeliveryPartition | apps/gateway-agent/src/result-outbox.ts:121-144 | the records that left the queue are, with multiplicity, those acknowledged and those quarantined |
| ResultOutbox.Outbox.constructor | apps/gateway-agent/src/result-outbox.ts:45-48 | a new outbox touches no file |
| ResultOutbox.Outbox.Persist | apps/gateway-agent/src/result-outbox.ts:146-162 | the journal file is replaced by the records in memory |
| ResultOutbox.Outbox.Load | apps/gateway-agent/src/result-outbox.ts:50-84 | memory holds the loaded records, contradictions are appended to the corrupt file, and loading again would give the same; every other operation can follow |
| ResultOutbox.Outbox.Has | apps/gateway-agent/src/result-outbox.ts:90-92 | true exactly for an id with a record |
| ResultOutbox.Outbox.Enqueue | apps/gateway-agent/src/result-outbox.ts:94-119 | a new id is appended and journaled; a repeated identical result returns the stored record, another one throws, and nothing changes |
| ResultOutbox.Outbox.Flush | apps/gateway-agent/src/result-outbox.ts:121-144 | delivers in order up to the first failure; sent, quarantined and remaining add up to the records there were, and the quarantine file gains exactly the rejected ones |
| JournalText.JournalRoundTrip | apps/gateway-agent/src/result-outbox.ts:57-72 | the journal's UTF-8 bytes decode to its text, and parsing that line by line gives back exactly the records it was printed from, lone surrogates included |
| JournalText.ReadRecord | apps/gateway-agent/src/result-outbox.ts:25-38 | a printed record is one line and passes the record check as itself |
| JournalText.ReadFileText | apps/gateway-agent/src/result-outbox.ts:151-151 | the file holds one readable line a record and a blank end |
| JsonCanon.CanonicalIffEquivalent | apps/gateway-agent/src/result-outbox.ts:15-23 | two values have the same canonical text exactly when they are equal up to the order of object keys, at every depth |
| JsonCanon.CanonicalInjective | apps/gateway-agent/src/result-outbox.ts:15-23 | equal canonical texts come from equivalent values |
| JsonCanon.EquivalentSameText | apps/gateway-agent/src/result-outbox.ts:15-23 | equivalent values print the same text |
| JsonCanon.CanonicalSeparable | apps/gateway-agent/src/result-outbox.ts:15-23 | a canonical text can be cut off a larger one in one way only |
| KeyOrder.SortedUnique | apps/gateway-agent/src/result-outbox.ts:19-20 | entries with distinct keys have one sorted arrangement |
| KeyOrder.SortSorts | apps/gateway-agent/src/result-outbox.ts:19-20 | sorting orders keys by code units and keeps the entries |
| JsonString.ReadEscaped | apps/gateway-agent/src/result-outbox.ts:21-21 | a printed string reads back, surrogates and control characters included, and what follows it is left |
| JsonString.QuoteSeparable | apps/gateway-agent/src/result-outbox.ts:21-21 | a printed string ends where it says it ends |
| JsonString.EscapesAre | apps/gateway-agent/src/result-outbox.ts:21-21 | exactly seven units have a short escape, other control characters and lone surrogates the long one, and nothing else is escaped |
| JsonString.ReadsShortEscapes | apps/gateway-agent/src/result-outbox.ts:61-61 | parsing knows eight short escapes, the solidus among them, and refuses every other letter but `u` |
| JsonString.HexValueIff | apps/gateway-agent/src/result-outbox.ts:61-61 | a hexadecimal digit is read in either case |
| JsonText.ParseStringify | apps/gateway-agent/src/result-outbox.ts:151-151 | parsing a printed value returns the value |
| JsonText.PrintNoControl | apps/gateway-agent/src/result-outbox.ts:151-151 | printed JSON fits on one line |
| JsonParse.MergedUnique | frontend-siemens/src/api/operator.ts:825-829 | a parsed object has each key once |
| JsonParse.NumberReads | frontend-siemens/src/api/operator.ts:825-829 | every number of the JSON grammar is read whole, up to what cannot belong to it |
| JsonParse.NumberShape | frontend-siemens/src/api/operator.ts:825-829 | whatever is read as a number is a sign, whole part, fraction and exponent of that grammar |
| OfflineBuffer.MemoryIsSuffixOfFile | apps/gateway-agent/src/offline-buffer.ts:72-110 | over any file an earlier process left, with sends in flight and crashes anywhere, memory is the end of the file, every event in it is one that was loaded or enqueued, and the platform holds each arrived id once |
| OfflineBuffer.EnqueueBounds | apps/gateway-agent/src/offline-buffer.ts:78-85 | over any file, no enqueue leaves more than the limit, however many events were loaded |
| OfflineBuffer.SendsInOrder | apps/gateway-agent/src/offline-buffer.ts:99-107 | sends go strictly forward through the positions of the log: an answered send is followed by that of a later event, a flush begins with the oldest in memory, and nothing else changes what is being sent |
| OfflineBuffer.RemovedEventArrivedIff | apps/gateway-agent/src/offline-buffer.ts:83-105 | the event removed after a send arrived exactly when no enqueue overflowed during the send, or it had arrived before |
| OfflineBuffer.NothingLostWithRoom | apps/gateway-agent/src/offline-buffer.ts:72-110 | without an overflow during a send, every event that left was sent or dropped by an overflow |
| OfflineBuffer.LossIff | apps/gateway-agent/src/offline-buffer.ts:72-110 | a run loses an event exactly when it answers a send after an overflow, with an unsent event at the head |
| OfflineBuffer.OverflowDuringSendLosesAnEvent | apps/gateway-agent/src/offline-buffer.ts:83-105 | a queue of one loses its second event unsent |
| OfflineBuffer.RunSound | apps/gateway-agent/src/offline-buffer.ts:72-110 | the invariants behind these hold after every sequence of steps |
| OfflineBuffer.FileIsMemoryBetweenFlushes | apps/gateway-agent/src/offline-buffer.ts:90-110 | in every run, while no flush is under way the file holds exactly what memory holds, also after a flush that a failed send stopped |
| OfflineBuffer.CrashKeepsTheFile | apps/gateway-agent/src/offline-buffer.ts:30-66 | a crash at any point leaves the process to start over with exactly the events of the file |
| OfflineBuffer.DecodeEncode | apps/gateway-agent/src/offline-buffer.ts:112-117 | reading the lines written for events gives the events |
| OfflineBuffer.LinesAreSorted | apps/gateway-agent/src/offline-buffer.ts:37-55 | loading sorts every line with its multiplicity: events to memory, unreadable lines to the corrupt file, blank ones nowhere |
| OfflineBuffer.Buffer.constructor | apps/gateway-agent/src/offline-buffer.ts:30-66 | loading is the machine's restart over the readable lines; exactly the unreadable ones are set aside, and only then is the file rewritten |
| OfflineBuffer.Buffer.PersistFile | apps/gateway-agent/src/offline-buffer.ts:112-128 | the file then reads as the events in memory |
| OfflineBuffer.Buffer.Enqueue | apps/gateway-agent/src/offline-buffer.ts:72-88 | makes the machine's step, dropping the oldest events beyond the limit |
| OfflineBuffer.Buffer.FlushStart | apps/gateway-agent/src/offline-buffer.ts:94-101 | a flush begins with the oldest event |
| OfflineBuffer.Buffer.SendHead | apps/gateway-agent/src/offline-buffer.ts:99-101 | the next send is of the event at the head at that time |
| OfflineBuffer.Buffer.StopFlush | apps/gateway-agent/src/offline-buffer.ts:108-109 | the file is rewritten only when something was sent |
| OfflineBuffer.Buffer.SendSettled | apps/gateway-agent/src/offline-buffer.ts:100-107 | a resolved send removes whatever is at the head, a rejected one ends the flush |
| Transport.ClosesIff | frontend-siemens/src/api/idempotentOperation.ts:48-65 | for every kind of reply: the client closes the intent exactly for a success it could read, a final failure, a request that asked nothing, and, wrongly, an undecided answer whose code was lost |
| Transport.ResolvesIff | frontend-siemens/src/api/client.ts:155-168 | only a success that could be read resolves |
| Transport.TerminalCodes | frontend-siemens/src/api/idempotentOperation.ts:13-32 | the client's list of final codes is exactly the server's final device failures |
| OperationGate.OneKeyBetweenClosings | frontend-siemens/src/api/idempotentOperation.ts:149-201 | in every run: the attempts of an intent between two closing outcomes share one key exactly when no open intent was started with its key in neither memory nor journal, and no other attempt carries it exactly when no closed intent was started while the journal gave its old key |
| OperationGate.AtMostOneEffect | frontend-siemens/src/api/idempotentOperation.ts:136-202 | while no open key is forgotten, at most one effect commits per intent between two closing outcomes and a reported success means exactly one; while no closed key returns either, no other success is the same effect |
| OperationGate.ExactlyOnce | frontend-siemens/src/api/idempotentOperation.ts:136-202 | if moreover no intent is started twice at once and a reply that says nothing about the operation comes only to a first attempt that asked nothing: of all tries of an intent, across all closings, at most one effect is unreported, and none once the intent is closed |
| OperationGate.CommittedIsReportedOrOpen | frontend-siemens/src/api/idempotentOperation.ts:178-192 | in every run without forgotten keys and double starts, a committed key was reported as a success, or belongs to the open epoch, or its epoch was closed by a reply that says nothing about the operation |
| OperationGate.FailureMeansNoEffect | frontend-siemens/src/api/idempotentOperation.ts:184-190 | in every run the key of a failure the server reports as final is never committed after it |
| OperationGate.UndecidedKeeps | frontend-siemens/src/api/idempotentOperation.ts:48-65 | a lost connection, an abort, a timeout, an unreadable success and every undecided answer leave memory, journal and the open intent as they were |
| OperationGate.ABlindReplyForgetsACommittedKey | frontend-siemens/src/api/idempotentOperation.ts:184-190 | for every reply that closes without saying anything about the operation, a run in which one intent takes effect twice |
| OperationGate.OneSlotIsAlone | frontend-siemens/src/api/idempotentOperation.ts:149-159 | an intent that always uses one serialization key is never started twice at once |
| OperationGate.KeySurvivesIff | frontend-siemens/src/api/idempotentOperation.ts:89-174 | in every run: the next attempt of an intent neither started again nor closed reuses its key exactly when the page was not reloaded, or the key was journaled, nothing dropped it and its age is in range, and otherwise remembers none |
| OperationGate.DurableKeySurvivesIff | frontend-siemens/src/api/idempotentOperation.ts:89-134 | in every run over every state, with any users and any clock: a stored key its user neither starts again nor settles is read back exactly while no session was cleared, no other user started a durable operation, and its age is between zero and the time-to-live |
| OperationGate.StartStores | frontend-siemens/src/api/idempotentOperation.ts:155-176 | an accepted durable start leaves the key it is sent with in the journal, dated now |
| OperationGate.AnotherUserForgetsTheKey | frontend-siemens/src/api/idempotentOperation.ts:102-115 | a run in which another user starts between an uncertain attempt and a reload: the next attempt of the same open intent carries a second key and both take effect |
| OperationGate.ClosedKeyRevivesIff | frontend-siemens/src/api/idempotentOperation.ts:117-134 | in every run: a closed intent remembers its journaled key exactly when the closing outcome met another key or an age out of range, nothing dropped the entry, and its age is in range again; never its own with a clock not set back |
| OperationGate.AClockSetBackRevivesAClosedKey | frontend-siemens/src/api/idempotentOperation.ts:89-134 | a run in which two operations of one intent are reported as successes and the server committed one effect |
| OperationGate.ScopeTextInjective | frontend-siemens/src/api/idempotentOperation.ts:155-158 | different users or intents have different map keys |
| OperationGate.RunKeeps | frontend-siemens/src/api/idempotentOperation.ts:149-201 | in every run: memory holds keys of open intents only, memory and journal hold for an open intent a key of its current epoch, only an open intent has attempts in its epoch, and an unsettled attempt holds its slot |
| OperationGate.OneRequestPerSlot | frontend-siemens/src/api/idempotentOperation.ts:159-199 | in every run two unsettled attempts of a page never share a serialization slot |
| OperationGate.RunServer | frontend-siemens/src/api/idempotentOperation.ts:136-139 | a server that dedupes by key commits none twice, along every run |
| OperationGate.Gate.constructor | frontend-siemens/src/api/idempotentOperation.ts:140-147 | a page load keeps only what browser storage holds |
| OperationGate.Gate.Start | frontend-siemens/src/api/idempotentOperation.ts:149-200 | makes the gate's step: the remembered key, else a new one, is stored before the request; a held slot or a missing key starts nothing |
| OperationGate.Gate.Settled | frontend-siemens/src/api/idempotentOperation.ts:180-197 | success and definite failure forget the key and its journal entry, an uncertain outcome keeps both |
| ReplayGuard.IntentInjective | frontend-siemens/src/api/financePaymentCorrectionReplay.ts:49-61 | the intent text determines the order and the whole normalized payload, for corrections and stock adjustments alike |
| ReplayGuard.RetainedCommandHoldsItsKey | frontend-siemens/src/api/financePaymentCorrectionReplay.ts:83-99 | a retained command stands under the gate's key for its intent, and a retry with another key never occurs |
| ReplayGuard.UncertainOutcomeFreezesTheCommand | frontend-siemens/src/App.tsx:5495-5566 | from a request whose answer leaves its outcome open to a closing one: its command stays retained, every command sent for the order is that one, key and payload, and another draft does nothing, whatever else the gate starts and settles |
| ReplayGuard.OneEffectPerCorrection | frontend-siemens/src/App.tsx:5583-5626 | from that answer on, however often and with whatever drafts it is tried again, the server commits its key at most once and no other key is sent |
| ReplayGuard.AnswerIff | frontend-siemens/src/api/financePaymentCorrectionReplay.ts:101-117 | in every run a closing answer forgets the subject's command, any other retains the command it answers, and nothing else changes |
| ReplayGuard.SubmitIff | frontend-siemens/src/App.tsx:5495-5541 | in every run a draft is sent, under the retained key if there is one, exactly when no request of the subject is in flight, no other payload is retained and a key can be had; otherwise nothing happens |
| ReplayGuard.RetainedIsFrozen | frontend-siemens/src/App.tsx:5495-5566 | the freeze holds from any retained command |
| ReplayGuard.CommandIff | frontend-siemens/src/api/financePaymentCorrectionReplay.ts:69-99 | for an order with a retained command, prepare and command give it exactly for its payload and key and refuse everything else; without one nothing is refused |
| ReplayGuard.IntentNormalizes | frontend-siemens/src/api/financePaymentCorrectionReplay.ts:49-61 | white space around the reason does not change the intent |
| ReplayGuard.SubmitSends | frontend-siemens/src/App.tsx:5495-5541 | a submission either does nothing or sends the draft under the gate's key, which is the retained command when there is one |
| ReplayGuard.RunJoint | frontend-siemens/src/App.tsx:5495-5566 | guard and gate agree after every sequence of submissions, answers, reloads and other operations of the same gate |
| ReplayGuard.RunServer | frontend-siemens/src/App.tsx:5495-5566 | guarded runs keep the server's promise |
| ReplayGuard.OutsideMovesTheGate | frontend-siemens/src/App.tsx:1941-1952 | a page load forgets what the guards retained; time, commits and other operations move the gate alone |
| ReplayGuard.PaymentCorrectionGuard.constructor | frontend-siemens/src/api/financePaymentCorrectionReplay.ts:63-67 | nothing is retained at first |
| ReplayGuard.PaymentCorrectionGuard.Prepare | frontend-siemens/src/api/financePaymentCorrectionReplay.ts:69-81 | the normalized draft, or a refusal when another payload is retained for the order |
| ReplayGuard.PaymentCorrectionGuard.MakeCommand | frontend-siemens/src/api/financePaymentCorrectionReplay.ts:83-99 | the retained command, or a new one; another payload or key is refused |
| ReplayGuard.PaymentCorrectionGuard.Resolve | frontend-siemens/src/api/financePaymentCorrectionReplay.ts:101-103 | forgets exactly this order |
| ReplayGuard.PaymentCorrectionGuard.Reject | frontend-siemens/src/api/financePaymentCorrectionReplay.ts:105-117 | an uncertain outcome retains the first command, a definite failure forgets the order |
| ReplayGuard.RawAdjustmentGuard.constructor | frontend-siemens/src/api/warehouseRawAdjustmentReplay.ts:24-25 | nothing is retained at first |
| ReplayGuard.RawAdjustmentGuard.Prepare | frontend-siemens/src/api/warehouseRawAdjustmentReplay.ts:27-38 | the trimmed draft, or a refusal when another payload is retained for the material |
| ReplayGuard.RawAdjustmentGuard.Resolve | frontend-siemens/src/api/warehouseRawAdjustmentReplay.ts:40-42 | forgets exactly this material |
| ReplayGuard.RawAdjustmentGuard.Reject | frontend-siemens/src/api/warehouseRawAdjustmentReplay.ts:44-56 | an uncertain outcome retains the first payload, a definite failure forgets the material |
| LiveRefresh.OneLoadStaleIffAborted | frontend-siemens/src/api/liveRefresh.ts:382-446 | at most one load is in flight, and it is stale exactly when its signal is aborted |
| LiveRefresh.OnlyCurrentValueIsApplied | frontend-siemens/src/api/liveRefresh.ts:460-478 | a loaded value is applied exactly when its load was not aborted and the controller is active, and it is then the current task's for the current generation |
| LiveRefresh.OnlyCurrentFailureIsReported | frontend-siemens/src/api/liveRefresh.ts:467-470 | a failed load or a throwing apply is reported exactly when its load was not aborted and the controller is active |
| LiveRefresh.LoadsAreCurrent | frontend-siemens/src/api/liveRefresh.ts:382-419 | a load begins for the current task and generation, at once when none is in flight; start, stop and invalidate abort the load in flight and nothing else does |
| LiveRefresh.AppliedAtMostOncePerLoad | frontend-siemens/src/api/liveRefresh.ts:460-478 | in every run no more values are applied than loads began |
| LiveRefresh.StopAtRest | frontend-siemens/src/api/liveRefresh.ts:421-428 | a stop with nothing in flight is over at once and leaves nothing registered |
| LiveRefresh.NoRefreshIsLost | frontend-siemens/src/api/liveRefresh.ts:400-419 | a refresh is waiting exactly when one was asked for after the last load began and the last stop, and it waits behind a load in flight |
| LiveRefresh.RequestsDuringFlightCauseOneLoad | frontend-siemens/src/api/liveRefresh.ts:471-477 | all refreshes asked for during a load cause one load when it completes, none cause none |
| LiveRefresh.RegisteredIff | frontend-siemens/src/api/liveRefresh.ts:421-446 | interval and listeners are registered exactly for an active automatic task, unless that task was started inside the abort of a stop |
| LiveRefresh.StartInsideStopLosesTheListeners | frontend-siemens/src/api/liveRefresh.ts:421-428 | the exception is reachable |
| LiveRefresh.RunCoherent | frontend-siemens/src/api/liveRefresh.ts:382-478 | the invariants behind these hold after every sequence of calls |
| LiveRefresh.Controller.constructor | frontend-siemens/src/api/liveRefresh.ts:372-380 | an inactive controller, nothing registered |
| LiveRefresh.Controller.StartTask | frontend-siemens/src/api/liveRefresh.ts:382-398 | makes the machine's step |
| LiveRefresh.Controller.RequestRefresh | frontend-siemens/src/api/liveRefresh.ts:400-408 | makes the machine's step |
| LiveRefresh.Controller.Woken | frontend-siemens/src/api/liveRefresh.ts:448-458 | a wake-up of a hidden page refreshes nothing |
| LiveRefresh.Controller.InvalidateAndRefresh | frontend-siemens/src/api/liveRefresh.ts:410-419 | makes the machine's step |
| LiveRefresh.Controller.StopTask | frontend-siemens/src/api/liveRefresh.ts:421-426 | the first half of stop, up to its abort listeners |
| LiveRefresh.Controller.StopReturned | frontend-siemens/src/api/liveRefresh.ts:427-428 | the second half of stop |
| LiveRefresh.Controller.ConfigureAutomaticScheduling | frontend-siemens/src/api/liveRefresh.ts:430-446 | each callback is registered once while scheduling is on and not at all otherwise |
| LiveRefresh.Controller.LoadSucceeded | frontend-siemens/src/api/liveRefresh.ts:465-466 | a value is applied exactly when it is still wanted |
| LiveRefresh.Controller.Failed | frontend-siemens/src/api/liveRefresh.ts:467-470 | an error is reported exactly when the load is still wanted and not aborted |
| LiveRefresh.Controller.CallbackReturned | frontend-siemens/src/api/liveRefresh.ts:471-477 | the callback's return completes the load |
| LiveRefresh.Controller.FinishRun | frontend-siemens/src/api/liveRefresh.ts:471-477 | a completed load starts the trailing refresh, if any |
| Inbox.MergeItems | frontend-siemens/src/api/liveRefresh.ts:100-113 | every id of either list once, by its first item and in first-seen order |
| Inbox.FirstPageIdempotent | frontend-siemens/src/api/liveRefresh.ts:191-204 | merging the same first page again changes nothing, under any pending reads |
| Inbox.MergeShape | frontend-siemens/src/api/liveRefresh.ts:191-204 | every id of page and inbox once, by its first item, the page's first and in order; unread items with a pending read show its mark, all others are as sent; the count is the server's less the marks shown; the cursor is kept or taken from the page as asked |
| Inbox.AppendShape | frontend-siemens/src/api/liveRefresh.ts:206-223 | an older page keeps what is shown in place and adds its new ids after it in its order; marks and count as for a first page; its cursor is offered exactly when it is not empty and was not asked for |
| Inbox.PendingOfIsLast | frontend-siemens/src/api/liveRefresh.ts:124-124 | the last pending read of an id wins |
| Inbox.BeginReadIff | frontend-siemens/src/api/liveRefresh.ts:225-246 | a read begins exactly for a shown unread id, marks every item of it and lowers the count by one, not below zero |
| Inbox.BeginThenRollback | frontend-siemens/src/api/liveRefresh.ts:225-257 | rolling back a read restores the inbox exactly when something was unread and no second item of that id differed |
| Inbox.RollbackCommutesWithBegin | frontend-siemens/src/api/liveRefresh.ts:225-257 | rolling back one read and beginning another commute exactly when something was unread or one of them has nothing to do |
| Inbox.ProjectTwice | frontend-siemens/src/api/liveRefresh.ts:115-137 | applying pending reads twice is applying them once |
| LoadMore.NoCursorTwice | frontend-siemens/src/App.tsx:3788-3835 | between two clears, role changes included, no cursor's page is taken twice and no answered cursor is asked for again |
| LoadMore.LoadingIffOneCurrent | frontend-siemens/src/App.tsx:3788-3848 | the inbox shows that it is loading exactly while one request is current, or after the role was left during a load and neither a first page nor a clear followed; never are two requests current |
| LoadMore.StrandedInboxIsStuck | frontend-siemens/src/App.tsx:3788-3848 | an inbox left during a load stays loading with no current request through every event but a first page and a clear; presses do nothing and late answers change nothing |
| LoadMore.LeavingDuringALoadStaysLoading | frontend-siemens/src/App.tsx:2472-2477 | such a run: a first page, a press, the role is left |
| LoadMore.ChainIsFinite | frontend-siemens/src/App.tsx:3788-3835 | no more older pages are taken than the server named distinct cursors |
| LoadMore.PageIsTaken | frontend-siemens/src/App.tsx:3809-3829 | every request sent can be answered; the current one's page is shown after what is there and its cursor offered when it is new, any other answer changes nothing |
| LoadMore.FailedPageCanBeAskedAgain | frontend-siemens/src/App.tsx:3830-3848 | when the current request fails, what is shown stays and the same page can be asked for again |
| LoadMore.StaleRequestsAreAborted | frontend-siemens/src/api/liveRefresh.ts:153-170 | an unsettled request has its signal aborted exactly when it is no longer current |
| LoadMore.ReadsLeaveTheChain | frontend-siemens/src/api/liveRefresh.ts:225-257 | reads and rollbacks mark the shown items and leave the chain alone |
| LoadMore.RunInv | frontend-siemens/src/App.tsx:2119-2136 | the invariants behind these hold through first pages, clears, role changes, failures and reads |
| LoadMore.RequestFrontier.constructor | frontend-siemens/src/api/liveRefresh.ts:148-151 | no request has been issued |
| LoadMore.RequestFrontier.AdvanceFirstPage | frontend-siemens/src/api/liveRefresh.ts:153-158 | a new generation and request number; the request held is aborted |
| LoadMore.RequestFrontier.BeginLoadMore | frontend-siemens/src/api/liveRefresh.ts:160-170 | a new request with a fresh signal; the one held before is aborted |
| LoadMore.RequestFrontier.FinishLoadMore | frontend-siemens/src/api/liveRefresh.ts:180-184 | succeeds exactly for the current request |
| LoadMore.RequestFrontier.TicketsAreSignals | frontend-siemens/src/api/liveRefresh.ts:172-178 | a request is current exactly when its numbers are and its signal is not aborted |
| LoadMore.RequestFrontier.AtMostOneCurrent | frontend-siemens/src/api/liveRefresh.ts:172-178 | at most one request ever issued is current, and it is the latest |
| Payroll.SampleAccepted | frontend-siemens/src/api/directorPayroll.ts:221-282 | a preview of one kilogram at 450 kopecks is accepted |
| Payroll.BuiltIsAccepted | frontend-siemens/src/api/directorPayroll.ts:188-282 | whatever rows and facts pass their own checks, with distinct ids, known orders, operators listed once and totals in range, the preview that groups and sums them is accepted, complete, partial or empty as its lists are |
| Payroll.PricedRowIsRow | frontend-siemens/src/api/operatorPayroll.ts:180-192 | a row of whole grams priced half up passes its checks |
| Payroll.AcceptedFigures | frontend-siemens/src/api/operatorPayroll.ts:137-260 | every figure of an accepted preview is in the safe range, every mass whole grams, every name non-empty, every row id its own |
| Payroll.StatusIs | frontend-siemens/src/api/operatorPayroll.ts:269-273 | the status of an accepted preview says which of the two lists is empty |
| Payroll.AmountsAddUp | frontend-siemens/src/api/directorPayroll.ts:188-219 | in an accepted preview the operators' amounts add up to the summary's amount |
| Payroll.GramsAddUp | frontend-siemens/src/api/directorPayroll.ts:188-219 | the operators' grams add up to the summary's grams |
| Payroll.FactsAddUp | frontend-siemens/src/api/directorPayroll.ts:209-216 | the operators' unresolved counts add up to the facts that name an operator, and to all facts exactly when every fact does |
| Payroll.UnresolvedAddUp | frontend-siemens/src/api/operatorPayroll.ts:245-258 | the summary's unresolved mass is the grams of the facts added up |
| Payroll.MachineShiftsCovered | frontend-siemens/src/api/directorPayroll.ts:208-215 | the operators' shift counts add up to at least the summary's, and to exactly it when no machine shift has two operators |
| Payroll.CountedShiftsIff | frontend-siemens/src/api/operatorPayroll.ts:266-269 | in an accepted preview the summary counts at most the machine shifts there are, and exactly these when no two rows overlap around a NUL |
| Payroll.ShiftKeysEqualIff | frontend-siemens/src/api/operatorPayroll.ts:266-267 | two rows have one joined key exactly when they are of one machine shift, or one shift id is the other, a NUL and a text m, and the other post id is m, a NUL and this post id |
| Payroll.ShiftKeysTellApart | frontend-siemens/src/api/operatorPayroll.ts:266-267 | without NUL in shift ids the joined key is equal exactly for equal shift and post |
| Payroll.NulMakesShiftKeysCollide | frontend-siemens/src/api/operatorPayroll.ts:266-267 | an accepted preview with two different machine shifts whose summary counts one |
| Payroll.GramsIff | frontend-siemens/src/api/operatorPayroll.ts:237-240 | a mass has grams exactly when it is within the tolerance of a whole safe number of them |
| Payroll.RowRounding | frontend-siemens/src/api/operatorPayroll.ts:186-192 | a row's amount is within half a kopeck of the exact pay, ties rounded up |
| Payroll.RowsRounding | frontend-siemens/src/api/operatorPayroll.ts:186-192 | n accepted rows together are within n half kopecks of the exact pay |
| Payroll.SummaryRounding | frontend-siemens/src/api/operatorPayroll.ts:259-260 | the accepted total obeys the same bound |
| GroupedSum.GroupsAddUp | frontend-siemens/src/api/directorPayroll.ts:204-207 | groups of distinct owners that cover every owned row add up to the total |
| GroupedSum.KeyCountsCover | frontend-siemens/src/api/directorPayroll.ts:208-208 | counts of distinct keys by owner cover the distinct keys, exactly when no key is shared |
| GroupedSum.ImageSize | frontend-siemens/src/api/operatorPayroll.ts:266-269 | distinct keys are as many as distinct items exactly when no two items share a key |
| PayrollLadder.ValidThresholdSequence | frontend-siemens/src/api/payrollTariffOrders.ts:200-210 | accepts exactly the ladders: non-empty, only the last threshold open, the others positive and strictly increasing |
| PayrollLadder.BandFor | apps/api/src/common/payroll-tariffs/payroll-tariff-engine.ts:201-206 | finds the first band that takes the mass |
| PayrollLadder.FirstMatchIsTheOnlyCover | apps/api/src/common/payroll-tariffs/payroll-tariff-engine.ts:201-206 | on a ladder the lookup always succeeds, and its band is the only one covering the mass |
| PayrollLadder.InsertKeepsRates | frontend-siemens/src/features/director/payroll-tariffs/payrollTariffOrderModel.ts:122-130 | adding a closed band keeps a ladder a ladder, and every mass is still paid at the same rates |
| PayrollLadder.InsertKeepsLadder | frontend-siemens/src/features/director/payroll-tariffs/payrollTariffOrderModel.ts:122-130 | the new band goes below the open one and copies its rates |
| Utf8.DecodeEncode | apps/gateway-agent/src/label.ts:20-23 | strict decoding undoes encoding |
| Utf8.EncodeDecode | frontend-siemens/src/api/operator.ts:825-825 | whatever strict decoding accepts is the one encoding of its code point |
| Utf8.PointsOfJoined | apps/gateway-agent/src/label.ts:37-44 | cutting text between code points and joining the pieces makes no new pairs |
| Utf8.JoinedOfPoints | apps/gateway-agent/src/label.ts:37-44 | joining the code points of a text gives the text |
| Utf8.DecodeEncodedAll | apps/gateway-agent/src/label.ts:20-23 | the bytes of a text decode to its code points, a lone surrogate to U+FFFD |
| Utf8.Utf8RoundTrip | apps/gateway-agent/src/result-outbox.ts:57-57 | text without lone surrogates survives its UTF-8 bytes |
| UriComponent.ComponentRoundTrip | frontend-siemens/src/api/operator.ts:815-825 | encoding throws exactly on a lone surrogate, and decoding gives back what was encoded |
| UriComponent.EncodedAlphabet | frontend-siemens/src/api/operator.ts:815-815 | encoded text holds only unreserved characters and percent-encoded bytes |
| UriComponent.UnreservedAre | frontend-siemens/src/api/operator.ts:815-815 | letters, digits and `-_.!~*'()` are left alone, and nothing else |
| BreakdownAction.ActionRoundTrip | frontend-siemens/src/api/operator.ts:809-847 | for every type and text, building never throws and parsing returns the type and the trimmed details, omitted when blank |
| BreakdownAction.ReadPayloadIff | frontend-siemens/src/api/operator.ts:826-847 | a payload is accepted exactly when it is an object with a known type, details that are not blank if any, and no other property |
| BreakdownAction.AcceptedReportsAreStable | frontend-siemens/src/api/operator.ts:818-847 | whatever id is accepted, building and parsing its report again changes nothing |
| JsonWellFormed.EscapeWellFormed | frontend-siemens/src/api/operator.ts:815-815 | a JSON string literal never holds a lone surrogate |
| JsonWellFormed.StringifyWellFormed | apps/gateway-agent/src/result-outbox.ts:151-151 | no printed JSON value holds a lone surrogate, whatever its strings hold |
| JsTrim.TrimIdempotent | frontend-siemens/src/api/operator.ts:810-810 | trimmed text has no white space at its ends and is its own trim |
| JsTrim.TrimCuts | frontend-siemens/src/api/operator.ts:810-810 | trimming cuts white space off the two ends and nothing else |
| JsTrim.SpacesAre | frontend-siemens/src/api/operator.ts:810-810 | the 25 code units ECMA-262 counts as white space or line terminators |
| Zpl.Sanitize | apps/gateway-agent/src/label.ts:17-18 | no quotation mark, backslash or line break is left, and text without any is unchanged |
| Zpl.SplitText | apps/gateway-agent/src/label.ts:36-47 | cuts the sanitized characters into full lines up to the limit |
| Zpl.SplitIsPrefix | apps/gateway-agent/src/label.ts:36-47 | the lines hold the text from its beginning, and only the limit on lines leaves characters out |
| Zpl.TextFieldsPrintPrefixes | apps/gateway-agent/src/label.ts:73-97 | the fields print, in UTF-8, a prefix of each sanitized value, and of the first as much as fits on all lines |
| Zpl.LineHasField | apps/gateway-agent/src/label.ts:85-96 | every line that is not empty has its field at its own place |
| Zpl.FieldsGoDown | apps/gateway-agent/src/label.ts:85-96 | every field is that of a line, and fields go down the label |
| Zpl.ReadFieldOfEscaped | apps/gateway-agent/src/label.ts:20-23 | field data reads back as its bytes and holds only backslashes and upper-case hexadecimal digits |
| Zpl.PalletFields | apps/gateway-agent/src/label.ts:213-225 | for any width and height the fields tile the rows, are at most 99,999 bytes and as large as possible, and draw the bitmap that was sent |
| Zpl.PalletZpl | apps/gateway-agent/src/label.ts:205-232 | refuses exactly a wrong printer profile or bitmap size; the rest is drawn whole |
| Paging.FetchBucket | frontend-siemens/src/api/production.ts:320-341 | returns all items when a last page arrives within the limit before a repeat, and otherwise the failure that came first |
| Paging.ItemsInPageOrder | frontend-siemens/src/api/production.ts:320-341 | the collected items of a page come right after those of the pages before it, in the page's order |
| Paging.ItemsAreThePages | frontend-siemens/src/api/production.ts:320-341 | an item is collected exactly when some page fetched holds it |
| Paging.FetchCommercialActions | frontend-siemens/src/api/production.ts:316-344 | returns exactly when both buckets end, each id once, in first-seen order, with its last value; otherwise throws the failure of the bucket that settles first, or of the other when that one ends |
| Paging.FetchCoverCheckQueue | frontend-siemens/src/api/warehouse.ts:947-961 | the same for the warehouse queue, collected page by page; at most a hundred requests, each with the cursor before it |
| Paging.ReturnedIff | frontend-siemens/src/api/production.ts:325-340 | a loop returns, reports a repeat, or reports too many pages exactly when the pages say so |
| Paging.QueueReturnedIff | frontend-siemens/src/api/warehouse.ts:952-960 | the warehouse queue is returned exactly when it ends within the limit, and never in part |
| Paging.PutAllShape | frontend-siemens/src/api/production.ts:343-343 | a map filled in order shows each id once, in first-seen order, with its last value |
| Paging.PutPage | frontend-siemens/src/api/warehouse.ts:954-954 | putting a page's items extends the map by the page |
| Paging.QueriesRepeatIffEmptyCursor | frontend-siemens/src/api/warehouse.ts:929-953 | no cursor is asked for twice, and a query goes out twice exactly when a page names the empty cursor |
| RollGroups.RollProgress | frontend-siemens/src/api/operator.ts:255-283 | progress is whole figures between zero and the total; consistent figures are kept |
| RollGroups.ProgressFigures | frontend-siemens/src/api/operator.ts:255-283 | current, completed and total are whole numbers from zero to the total, and figures sent that way are kept |
| RollGroups.LegacyIntegerIs | frontend-siemens/src/api/operator.ts:255-257 | a figure that is no number or below one counts as none, any other loses its fraction |
| RollGroups.PositionOf | frontend-siemens/src/api/operator.ts:285-290 | a roll's line is the trimmed one unless blank, and its sequence the whole part of the one sent, at least one |
| RollGroups.SameKeyIff | frontend-siemens/src/api/operator.ts:285-290 | two rolls share a position exactly when they name one order line, or none and one sequence |
| RollGroups.MapOrder | frontend-siemens/src/api/operator.ts:384-417 | one group a position in first-seen order, and for each roll the id of its group |
| RollGroups.Collect | frontend-siemens/src/api/operator.ts:384-390 | the map holds, for each position, its rolls in the order's sequence |
| RollGroups.NumberGroups | frontend-siemens/src/api/operator.ts:391-396 | groups are numbered from one in the order of positions |
| RollGroups.GroupsPartition | frontend-siemens/src/api/operator.ts:384-400 | distinct group ids, every roll in the groups as often as in the order, each group in the order's sequence, one group a position |
| RollGroups.GroupIdNamesItsGroup | frontend-siemens/src/api/operator.ts:417-417 | a roll's group id names the group that holds it and no other |

## Left out

- Device drivers and the branches of `commands.ts`: a device invocation is one opaque step with an arbitrary result.
- Logging, reachability marks, release information and device status lists of the agent: no effect on the protocol.
- The buffer writes between a device's answer and the journal write: they belong to the step that ends the invocation.
- fsync, rename and file modes: a rewrite replaces the file at once, an append is atomic, and a crash may fall between them.
- A heartbeat that runs while events are flushed is one flag; the events themselves are the separate machine of `OfflineBuffer`.
- Files that are not UTF-8, which Node decodes with replacement characters.
- JournalText.ReadRecord: does not model properties beyond the four of a record, which a hand-edited line could carry through a rewrite.
- OfflineBuffer.Buffer.constructor: takes the file as lines that are blank, unreadable or an event; the text of an event line is not modelled.
- `undefined`, NaN and negative zero in `canonicalJson`: JSON cannot carry them back.
- The order in which JavaScript lists integer-like property names: it does not change which keys an object has.
- Nesting depth limits of `JSON.parse`.
- OperationGate.AtMostOneEffect: a storage that fails or is edited, and a second tab, are not modelled.
- ReplayGuard.UncertainOutcomeFreezesTheCommand: assumes one signed-in user while the workbench is mounted, where the gate is durable; `AuthGate` unmounts it on a change of session.
- Transport.ClosesIff: white space around an error code, which the client trims, and the token checks of status 401.
- A call of `start` from inside `execute` of the same slot.
- The gate's handlers and the caller's `resolve` or `reject` run as one step: nothing of the program runs in between.
- ReplayGuard.OneEffectPerCorrection: ends at a page reload, because the guards live in memory only; the durable gate then still keeps the key of the same draft.
- LiveRefresh: the browser's own callbacks do not call back into the controller while it registers them.
- LoadMore.NoCursorTwice: takes the inbox as it is when the button is pressed; a rendering that lags behind is not modelled.
- Payroll.AmountsAddUp: sums and products are exact; rounding of doubles beyond 2^53 is not modelled.
- Payroll: date, label and enumeration formats of a preview, which only make acceptance stricter.
- Removing a tariff band, and the fields of a band other than threshold and rates.
- The layout arithmetic of labels: characters a line and lines a label are parameters, and only the hexadecimal text fields and the graphic fields are modelled.
- The TSPL label builder: it prints sanitized text as it is.
- RollGroups.MapOrder: the descriptive fields of a group and the choice of the current group; position sequences beyond 10^21, which JavaScript prints with an exponent.
- Paging.FetchCommercialActions: which of the two buckets settles first is a parameter.
- `operatorDefectReplay.ts` and `liveMutationGate.ts`: simpler copies of the guards and the gate.
