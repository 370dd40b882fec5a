# Verified model of the kit SDK runtimes

The SDK is a set of small servers and helpers that a domain kit links against: a
source-connector server that takes webhooks and polls, an egress server that pushes
records to an external system and reports a verdict for each, a loader server, an
agent runtime that executes tool plans and streams events, a capped download, and
the manifest rules a kit is held to. This project models the parts of it where
correctness depends on several operations together, and proves what those parts
promise for every input, every call sequence or every interleaving.

| file | component |
|---|---|
| `ServerProtocol.dfy`, `ServerSafety.dfy`, `ServerAnswers.dfy` | the connector server as a concurrent protocol: start-up order, Connect gate, webhook handlers, bounded queue and worker, poll loops, Connect retry, ordered shutdown |
| `PollLoop.dfy` | the cursor of one binding over a whole poll run |
| `ConnectBackoff.dfy` | the Connect retry delays in int64 arithmetic |
| `WriterLifecycle.dfy` | the life of a transfer writer on every connector and loader path |
| `Verdicts.dfy`, `VerdictLaws.dfy`, `Batches.dfy`, `ReplyMeaning.dfy` | egress verdicts: the rules, their laws, the two mutable collectors and the push handlers, and what each call comes to on the wire |
| `EntityVersions.dfy` | version stamps and the store that refuses stale writes |
| `LogScan.dfy`, `LogScanLaws.dfy` | the log-key scanner: slice definitions as a cyclic graph |
| `ArgumentResolution.dfy`, `Extraction.dfy`, `ResolutionLaws.dfy`, `PlanExecution.dfy`, `PlanLaws.dfy` | plan execution, argument resolution and identifier extraction |
| `EventStream.dfy`, `EventStreamLaws.dfy` | server-sent events: printer and parser (sections 9.2.5 and 9.2.6 of the WHATWG HTML Living Standard) |
| `Download.dfy` | the capped, retried spool download |
| `EdgeNames.dfy`, `EgressManifest.dfy`, `EgressManifestLaws.dfy` | edge identifiers and the egress section of a manifest |
| `Spans.dfy` | the span tracker |
| `Prelude.dfy`, `Text.dfy` | nil-able values, the int64 range, and the Go string operations the rest relies on |

`dafny verify dfyconfig.toml` checks everything.

## How the model is built

- State the source changes in place is a class (`Batch`, `RelationshipBatch`,
  `CountingWriter`, `Poller`, `Expansion`, `ArgMap`, `LazySchemas`, `FileSystem`,
  `StreamWriter`, `SpanTracker`); loops are loops. Each method is proved against a
  function or predicate, and the laws are lemmas about that function or predicate.
- The connector server is a step relation. Each goroutine is a program counter, a run
  is any sequence of enabled steps, and the theorems of `ServerSafety` speak of every
  reachable state. `http.Server.Shutdown` returns nil only with no handler in flight,
  and requests may arrive until it does; a serve error stops none of them.
  The queue send and the 202 are two steps, so the worker may be ahead of the answer.
  A send that would meet a closed channel is modelled as a panic flag, so that its
  absence is a theorem.
- The egress server starts, gates its push lanes and retries Connect in the same order.
  It is the same machine in the configuration `IsEgress`: no queue, no polls, its lanes as
  bindings, an empty push answered without a call, and 501, 400 and 429 where the egress
  server gives them. `ServerSafety.EgressPushesFollowConnect` speaks of that configuration.
- The functions a method is proved against are pinned in their turn: the `Laws`,
  `ServerAnswers` and `ReplyMeaning` modules say what they mean with the words, numbers and
  field names of the source written out, so that a rule cannot change together with its
  specification.
- What a component, a gateway, the network or a disk does is an input: a script, a
  function or a datatype of outcomes. Random draws, identifiers and key sorting are
  parameters.

## Where the code and a natural claim differ

- A delivery answered 202 may never reach the component. On the clean exit of
  `ListenAndServe` that happens to a delivery if and only if the worker could not make a
  writer for it, and dropped it (`ServerSafety.CleanReturnsLoseOnlyTheDropped`); a handler
  or commit that fails is only logged, but the component has then seen the delivery. On
  every other exit deliveries still queued are lost as well, in every configuration that
  queues deliveries and in no other (`ServerSafety.OnlyCleanReturnsAreLossFree`, per
  configuration and exit). A caller cannot see the difference afterwards: the call returns
  nil both after a clean drain and after one that timed out
  (`ServerSafety.LossIsDecidedByTheConfiguration`).
- A drain of a source over finitely many cursors ends if and only if it comes back to no
  cursor, and then within as many calls as there are cursors
  (`PollLoop.DrainEndsUnlessItRepeats`); two alternating cursors are a source on which it
  never ends (`PollLoop.CyclicCursorNeverStops`).
- Doubling the retry delay overflows when the effective cap is above half the int64
  range, and then the delay turns negative; that cap is the exact condition for the
  delays (`ConnectBackoff.BackoffStaysInBounds`) and for what is waited after jitter
  (`ConnectBackoff.WaitsStayInBounds`).
- A newline in an event type can put a line of its own into the stream
  (`EventStream.NewlineInTypeBreaksTheStream`), and need not do harm:
  `EventStream.StreamRoundTrips` and `EventStream.TransparentIffAllSurvive` give the
  exact condition, on the type's own lines and the data, for events of any type.
- Comments in the download code call a network error retryable; an attempt that gets no
  response is retried if and only if it timed out (`Download.OnlyTimeoutsAreRetried`).
- `IsStale` comes without a store; the one modelled here records the stamp, or the absence
  of one, of what it last wrote. There a stamped write keeps the stamp from falling, an
  unstamped one is never refused and erases it, and `EntityVersions.StaleGetsThrough` says
  exactly when a stale write then gets through.
- A span deeper than 100 reports no depth (`Spans.DeepSpansReportNoDepth`).
- A comment on the loader says that a receipt sets the status to running; the code does so
  only where the handler left the status empty, and the model follows the code.
- A comment on the shape descriptors says that nested string arrays always yield entity
  identifiers; the code gives them the descriptor's kind, and the model follows the code.

## Model

| member | source | states |
|---|---|---|
| `ServerSafety.StepKeepsInv` | connector/server.go:259-376 | every step of every goroutine keeps the protocol invariant |
| `ServerSafety.RunKeepsInv` | connector/server.go:259-376 | so does every run, in any interleaving |
| `ServerSafety.DeliveriesAreKept` | connector/server.go:665-774 | in every reachable state the jobs taken are a prefix of the accepted ones in queue order, a delivery is accepted exactly when it is answered 202 or its handler is about to, once and with the payload that arrived, the queue stays within its depth, and no send meets a closed channel |
| `ServerSafety.DeliveriesAreHandedOverInOrder` | connector/server.go:769-805 | in every reachable state the deliveries handed to the component or dropped for want of a writer are, in order and without repetition, a prefix of the accepted ones |
| `ServerSafety.WorkerEndsEmptyHanded` | connector/server.go:769-774 | once the worker has ended it is done with everything accepted, in order, and no handler is in flight |
| `ServerSafety.CleanReturnLosesNothing` | connector/server.go:348-376 | at a clean return the worker is done with every delivery answered 202, every request is answered, every poll loop stopped, and the log accounts for the accepted deliveries in queue order, each as handed to the component or as dropped, never both |
| `ServerSafety.CleanReturnsLoseOnlyTheDropped` | connector/server.go:779-786 | after a clean return a delivery answered 202 has not reached the component if and only if its writer factory failed |
| `ServerSafety.LossOnFailedFactory` | connector/server.go:779-786 | in every configuration that queues deliveries a clean return is reachable with a delivery dropped so |
| `ServerSafety.OnlyCleanReturnsAreLossFree` | connector/server.go:335-376 | for every configuration and every kind of return: with no writer factory failing, a delivery answered 202 can have missed the component if and only if the return is not the clean one, the mode is async and some binding serves webhooks; with failing factories the last two conditions alone decide |
| `ServerSafety.LossIsDecidedByTheConfiguration` | connector/server.go:359-376 | some run loses a delivery if and only if the configuration queues deliveries, and so does some run that returns nil with every writer made |
| `ServerSafety.CleanReturnIsReachable` | connector/server.go:348-376 | in every configuration that queues deliveries the clean return is reachable with a delivery accepted and handed to the component |
| `ServerSafety.PollsCanStop` | connector/server.go:348-350 | after cancellation idle poll loops can all end without anything else changing |
| `ServerSafety.RefusedRequestsAreNotHandled` | connector/server.go:665-735 | the component sees each request at most once, never one answered 400, 404, 413, 501 or 503, one answered 429 only where it throttled itself, and in async mode only ones answered 202 or about to be |
| `ServerSafety.NothingRunsBeforeConnect` | connector/server.go:260-331 | no webhook handler and no Sync starts before the initial Connect attempt has returned |
| `ServerSafety.ConnectCallsAreDisciplined` | connector/connect_retry.go:35-56 | Connect calls never overlap, only follow a failed one, and none follows a success |
| `ServerSafety.EgressPushesFollowConnect` | egress/server.go:213-261 | for the egress configuration: no push reaches the component before the initial Connect attempt has returned, Connect calls neither overlap nor follow a success, a push reaches it at most once and never after a refusal, and nothing else calls it |
| `ServerSafety.OnlyPollBindingsAreSynced` | connector/server.go:324-331 | Sync is called only for bindings that poll |
| `ServerAnswers.RouterAnswers` | connector/server.go:665-670 | a request goes on if and only if its binding is in webhook or both mode; else 404, or 501 for a push lane |
| `ServerAnswers.GateAnswers` | connector/server.go:681-687 | in every reachable state the gate answers 503 if and only if the initial Connect attempt is not over |
| `ServerAnswers.BodyAnswers` | connector/server.go:688-697 | an unreadable body is answered 400, one that is too large 413, and 400 on a push lane |
| `ServerAnswers.ValidationAnswers` | connector/server.go:699-717 | an invalid payload is answered 400, a valid one dispatched |
| `ServerAnswers.FullQueuesRefuse` | connector/server.go:725-735 | in every reachable state a delivery is answered 429 if and only if the queue holds as many jobs as it can, 16 unless a positive depth is configured; else its job goes to the end of the queue |
| `ServerAnswers.QueuedIsAcknowledged` | connector/server.go:725-735 | a queued delivery is answered 202 |
| `ServerAnswers.InlineAnswers` | connector/server.go:739-760 | without a queue the component is called first and the answer is 200, 500 or, for a throttled push, 429 as the call ended; a failed writer factory gives 500 and an empty push 200, both without a call |
| `ServerAnswers.StatusesMean` | connector/server.go:665-760 | over every run: 404 or 501 for exactly the bindings without a webhook, 202 only with a queue, 200 only without |
| `ServerAnswers.BurstsFillTheQueue` | connector/server.go:725-735 | in every run, as long as the worker has taken nothing, as many deliveries as the queue holds are accepted and the rest refused |
| `ServerAnswers.BurstIsReachable` | connector/server.go:725-735 | a burst of any n deliveries without a worker step is answered 202 up to the capacity and 429 from there on |
| `ServerAnswers.SyncsAreMadeWhereDue` | connector/server.go:324-331 | some run calls Sync for a binding if and only if its mode is poll or both |
| `ServerAnswers.SyncsGoOn` | connector/server.go:577-589 | a polled binding is synced any number of times |
| `ServerAnswers.FailedPollsGoOn` | connector/server.go:577-620 | a poll whose writer cannot be made goes back to waiting |
| `ServerAnswers.CancelledLoopsEnd` | connector/server.go:577-589 | after cancellation an idle poll loop and a waiting retry only end |
| `ServerAnswers.RetriesAreMadeWhereDue` | connector/server.go:317-322 | some run calls Connect n times if and only if n is at most one or retries are not disabled |
| `ServerSafety.HistoryIsPermanent` | connector/server.go:665-805 | no later step takes back an answer, an acceptance, a finished job or a log entry, and a closed queue accepts nothing more |
| `ServerSafety.WorkerIsNeverStuck` | connector/server.go:769-774 | with the queue closed, a worker that has not ended can always take a step |
| `ServerSafety.ClosedQueueOnlyDrains` | connector/server.go:359-372 | with the queue closed every worker step lowers the drain measure and no other step raises it |
| `ServerSafety.DrainIsBounded` | connector/server.go:359-372 | however the rest interleaves, the worker ends within the measure of its own steps, and is then done with everything accepted |
| `ServerSafety.LossOnServeError` | connector/server.go:342-345 | in every configuration that queues deliveries a reachable run returns the serve error with an accepted delivery still queued |
| `ServerSafety.LossOnShutdownError` | connector/server.go:354-357 | the same for a failed Shutdown |
| `ServerSafety.LossOnDrainTimeout` | connector/server.go:364-372 | the same for a drain that runs out of time |
| `PollLoop.Poller.SyncOnce` | connector/server.go:596-620 | one turn of a drain: one Sync at the current cursor with its writer used as it must be, the cursor advanced by the rule, and whether to go on |
| `PollLoop.Poller.Drain` | connector/server.go:596-620 | a drain extends the run's trace by calls of this drain only and stops where it must |
| `PollLoop.Poller.Poll` | connector/server.go:577-589 | a whole poll run produces a trace of the poll relation whose every call used its writer with discipline |
| `PollLoop.CursorLeavesOnlySettledBatches` | connector/server.go:596-663 | over a whole run the cursor leaves a value only after a Sync at it returned and its batch was committed by a successful Close or the writer had accepted nothing |
| `PollLoop.SettledCallsSucceed` | connector/server.go:645-663 | a call is settled, by the calls made on its writer, exactly when it reports success |
| `PollLoop.FailuresRetryTheSameCursor` | connector/server.go:596-620 | a call that is not settled committed nothing, and the next Sync gets the same cursor in a later drain; within a drain consecutive cursors differ |
| `PollLoop.OnlyTheLastCallOfADrainFails` | connector/server.go:596-620 | every call of a drain but its last was settled and advanced the cursor |
| `PollLoop.CursorsFollowAnswers` | connector/server.go:596-620 | the next cursor is the one a settled call answered, if any, and the drain goes on exactly when it announced more under a new cursor |
| `PollLoop.DrainsAreOrdered` | connector/server.go:577-589 | drains follow one another in the trace |
| `PollLoop.DrainEndsUnlessItRepeats` | connector/server.go:596-620 | over finitely many cursors a drain ends if and only if it comes back to no cursor, and then within as many calls as there are cursors |
| `PollLoop.DrainSource` | connector/server.go:596-620 | the drain loop, proved to terminate under that condition, at the first call that does not go on |
| `PollLoop.EndlessDrains` | connector/server.go:577-620 | a source whose drain does not end keeps one drain of the poll loop going for any number of calls |
| `PollLoop.CyclicCursorNeverStops` | connector/server.go:596-620 | a source alternating between two cursors repeats, and its drain never ends |
| `ConnectBackoff.Bounds` | connector/connect_retry.go:60-73 | the bounds are positive and ordered; each is the configured one, or the default where that is not positive, with the cap raised to the first delay if it is below |
| `ConnectBackoff.RetryConnect` | connector/connect_retry.go:35-56 | it waits the jittered backoff delays in turn, each within bounds where the cap allows it, stops at the first success, and calls Connect no more after it |
| `ConnectBackoff.DelayIsCappedDoubling` | connector/connect_retry.go:35-56 | up to half the int64 range the delays are the capped powers of two, non-decreasing and in bounds |
| `ConnectBackoff.DelayOverflows` | connector/connect_retry.go:50 | above it some delay is negative |
| `ConnectBackoff.BackoffStaysInBounds` | connector/connect_retry.go:35-73 | all delays stay in bounds if and only if the effective cap is at most half the int64 range |
| `ConnectBackoff.JitterIsBounded` | connector/connect_retry.go:77-82 | for every draw jitter stays between the delay and half as much again, if and only if half as much again fits an int64 |
| `ConnectBackoff.JitterAddsTheDraw` | connector/connect_retry.go:77-82 | a positive delay is lengthened by the draw; any other waits not at all |
| `ConnectBackoff.WaitsStayInBounds` | connector/connect_retry.go:35-82 | every wait is between the first delay and half as much again as the cap, for every draw, if and only if the effective cap is at most half the int64 range |
| `WriterLifecycle.CountingWriter.WriteVertex` | connector/server.go:449-455 | the write reaches the inner writer and is counted exactly if it was accepted |
| `WriterLifecycle.CountingWriter.WriteEdge` | connector/server.go:457-463 | the same for edges |
| `WriterLifecycle.CountingWriter.WriteEntityType` | connector/server.go:465-471 | the same for entity types |
| `WriterLifecycle.CountingWriter.WriteRelationshipType` | connector/server.go:473-479 | the same for relationship types |
| `WriterLifecycle.CountingWriter.WriteHierarchy` | connector/server.go:481-487 | the same for hierarchy entries |
| `WriterLifecycle.CountingWriter.Emit` | connector/server.go:434-487 | after any writes the count is zero exactly when none of the five kinds was accepted |
| `WriterLifecycle.RunSync` | connector/server.go:645-663 | success is reported exactly when the factory, Sync and a due commit succeeded, and the writer is used with discipline: closed at most once, only after success with something accepted, discarded last |
| `WriterLifecycle.ProcessWebhookSync` | connector/server.go:739-760 | the same discipline, with 200 exactly on success and 500 otherwise |
| `WriterLifecycle.ProcessWebhookAsync` | connector/server.go:779-805 | the same discipline, with the success line exactly after a commit |
| `WriterLifecycle.PathIsDisciplined` | connector/server.go:645-805 | the calls a path makes satisfy the declarative discipline |
| `WriterLifecycle.CommitsAreCloses` | connector/server.go:645-805 | a call commits exactly when its writer was closed without an error |
| `WriterLifecycle.CloseIsReported` | loader/server.go:488-531 | a failed Close ends in a terminal failure that keeps the handler's error and appends its own; a receipt sets the job id and replaces neither a status nor an error |
| `WriterLifecycle.CloseErrorsRead` | loader/server.go:493-506 | the text of a failed Close, alone or after what the handler said |
| `WriterLifecycle.StatusesSayIfItIsOver` | loader/server.go:436-441 | 200 for a load that is over, 202 for one that goes on |
| `WriterLifecycle.RunSinglePass` | loader/server.go:424-442 | the writer is closed exactly when Load gave a response, which is the one returned with the receipt, and discarded last |
| `WriterLifecycle.RunStreaming` | loader/server.go:445-480 | passes are made in plan order up to the first failure; the writer is closed exactly when all succeeded and discarded last on every exit |
| `Batches.Batch.constructor` | egress/batch.go:41-60 | a fresh batch answers for the distinct non-empty ids of its entities in request order |
| `Batches.Batch.Created` | egress/batch.go:64-66 | stores a created verdict by the rules |
| `Batches.Batch.Updated` | egress/batch.go:75-77 | stores an updated verdict |
| `Batches.Batch.Withdrawn` | egress/batch.go:88-90 | stores a withdrawn verdict |
| `Batches.Batch.Skipped` | egress/batch.go:104-106 | stores a skipped verdict |
| `Batches.Batch.SkippedReason` | egress/batch.go:119-126 | stores a skipped verdict with its code normalised and a refused code reported |
| `Batches.Batch.Failed` | egress/batch.go:139-151 | stores a failed verdict, with the minted code where no reason was given |
| `Batches.Batch.FailedErr` | egress/batch.go:154-160 | the same from an error, which may be nil |
| `Batches.Batch.FailedReason` | egress/batch.go:167-180 | stores a failed verdict with code and detail, minting what is missing |
| `Batches.Batch.ReasonCode` | egress/batch.go:185-191 | the normalised code, with a defect exactly when it was refused |
| `Batches.Batch.Record` | egress/batch.go:202-207 | stores a raw verdict, normalising its code unless it replays a minted failure |
| `Batches.Batch.Store` | egress/batch.go:209-223 | drops an unknown id, reports a duplicate, and lets the last verdict win |
| `Batches.Batch.Pending` | egress/batch.go:228-236 | the ids without a verdict, in order |
| `Batches.Batch.ResultFor` | egress/batch.go:264-284 | what the reply says of one id: the verdict as it is, or the failure that replaces it with its defect |
| `Batches.Batch.Results` | egress/batch.go:261-287 | the reply and all defects, as the rules define them |
| `Batches.Batch.Play` | egress/batch.go:64-223 | any call sequence leads to the state the rules define |
| `Batches.RelationshipBatch.constructor` | egress/relationship.go:145-164 | the relationship collector starts from the same ids |
| `Batches.RelationshipBatch.Created` | egress/relationship.go:194-196 | as its entity counterpart |
| `Batches.RelationshipBatch.Updated` | egress/relationship.go:200-202 | as its entity counterpart |
| `Batches.RelationshipBatch.Withdrawn` | egress/relationship.go:208-210 | as its entity counterpart |
| `Batches.RelationshipBatch.Skipped` | egress/relationship.go:223-225 | as its entity counterpart |
| `Batches.RelationshipBatch.SkippedReason` | egress/relationship.go:230-237 | as its entity counterpart |
| `Batches.RelationshipBatch.Failed` | egress/relationship.go:242-252 | as its entity counterpart |
| `Batches.RelationshipBatch.FailedErr` | egress/relationship.go:255-261 | as its entity counterpart |
| `Batches.RelationshipBatch.FailedReason` | egress/relationship.go:265-278 | as its entity counterpart |
| `Batches.RelationshipBatch.ReasonCode` | egress/relationship.go:282-288 | as its entity counterpart |
| `Batches.RelationshipBatch.Record` | egress/relationship.go:293-298 | as its entity counterpart |
| `Batches.RelationshipBatch.Store` | egress/relationship.go:300-309 | as its entity counterpart |
| `Batches.RelationshipBatch.Pending` | egress/relationship.go:313-321 | as its entity counterpart |
| `Batches.RelationshipBatch.ResultFor` | egress/relationship.go:333-352 | as its entity counterpart, written out a second time |
| `Batches.RelationshipBatch.Results` | egress/relationship.go:330-355 | as its entity counterpart, with its own no-verdict prose |
| `Batches.RelationshipBatch.Play` | egress/relationship.go:194-309 | any call sequence leads to the state the rules define |
| `Batches.RunBoth` | egress/relationship.go:145-355 | both collectors on the same ids, verb and calls give the same ordered verdicts, defects and pending ids, but for the no-verdict prose |
| `Batches.Decode` | egress/server.go:601-639 | a body is accepted exactly when it decodes, names its kind and is homogeneous |
| `Batches.WellFormedMeans` | egress/server.go:601-639 | refused are exactly a body that does not decode, names no kind, or holds a record of another kind |
| `Batches.ServePush` | egress/server.go:557-598 | behind the gate nothing is pushed; every 200 carries a reply the platform accepts; faults give 429 or 500 and no verdicts |
| `Batches.ServeRelationshipPush` | egress/server.go:466-499 | the same for the relationship lanes |
| `VerdictLaws.IdsAreTheRequestedOnes` | egress/batch.go:41-60 | the ids are distinct, exactly the non-empty requested ones, in order of first occurrence |
| `VerdictLaws.PlayKeepsLast` | egress/batch.go:209-223 | after any calls each id holds the verdict of its last call, and only ids with a call hold one |
| `VerdictLaws.ReplyIsTheLastVerdicts` | egress/batch.go:261-287 | the reply has one verdict per id in order, each the normalised last one |
| `VerdictLaws.EveryReplyIsAccepted` | egress/batch.go:261-306 | for every call sequence the reply meets the platform's acceptance rule: one verdict per id, outcomes of the lane, external ids where due |
| `VerdictLaws.PendingAndRecordedPartition` | egress/batch.go:228-236 | pending and recorded ids partition the batch by whether a call was made for them |
| `VerdictLaws.NormalizedCodes` | egress/types.go:505-525 | a code is kept, trimmed, exactly when it is short, free of whitespace and outside the reserved namespaces; otherwise it is dropped |
| `VerdictLaws.NamespacesAreProtected` | egress/types.go:484-550 | over any calls no verdict carries a platform code, an SDK code only as a minted constant on a failure, and all codes are short and free of whitespace |
| `VerdictLaws.ReplayIsAFixpoint` | egress/batch.go:185-318 | recording a reply entry by entry into a fresh batch reproduces it exactly, without defects |
| `VerdictLaws.LanesAgree` | egress/relationship.go:330-355 | the two lanes' replies differ at most in the no-verdict prose and their defects not at all |
| `ReplyMeaning.ReplySaysWhatWasCalled` | egress/batch.go:64-318 | over every call sequence the reply says of each id, in wire words and codes, what the last of the nine calls for it said, or the failure with its minted code that replaces it |
| `ReplyMeaning.RecordingLogsWhatIsDue` | egress/batch.go:185-223 | over every call sequence recording logs exactly ids outside the batch, second verdicts and refused codes with their reason |
| `ReplyMeaning.ReplacementsAreLogged` | egress/batch.go:261-306 | the reply logs each verdict it replaces, by why it replaces it |
| `ReplyMeaning.MissingVerdictsAreLogged` | egress/batch.go:261-273 | a missing verdict is logged for exactly the ids without a call |
| `ReplyMeaning.PendingComeInOrder` | egress/batch.go:228-236 | pending ids come in request order |
| `EntityVersions.CompareIsTotalPreorder` | egress/version.go:71-76 | comparison is reflexive, antisymmetric in sign and transitive, strictly where a step is strict |
| `EntityVersions.SubMillisecondsDoNotCount` | egress/version.go:36-76 | two stamps compare equal exactly when they share their number and their millisecond, and then compare alike with every stamp |
| `EntityVersions.RecreatedIsNewer` | egress/version.go:36-95 | a re-created entity is newer than its predecessor whatever its version number |
| `EntityVersions.GreaterNumbersAreNewer` | egress/version.go:71-76 | at the same millisecond the greater number is newer and is written over the smaller |
| `EntityVersions.OnlyOlderIsStale` | egress/version.go:84-95 | stale is exactly an earlier millisecond or, at the same one, a smaller number; nothing is stale without two stamps |
| `EntityVersions.WriteNeverLowers` | egress/version.go:90-95 | a write keeps the stored stamp from falling if and only if it carries a stamp, which the record then has at least |
| `EntityVersions.StampNeverFalls` | egress/version.go:90-95 | from any point of a run on, stamped writes never lower the stamp |
| `EntityVersions.UnstampedForgets` | egress/version.go:84-95 | after an unstamped write the rest is written as on an empty record |
| `EntityVersions.StaleGetsThrough` | egress/version.go:84-95 | a write stale against the stored stamp gets through later if and only if an unstamped delivery came between and none after it carried a greater stamp |
| `EntityVersions.LastGreatestWins` | egress/version.go:71-95 | a record ends with the last delivery among those with the greatest stamp |
| `EntityVersions.OrdersConverge` | egress/version.go:36-95 | any two orders and repetitions of the same stamps end at equal stamps |
| `LogScan.WalkPairs` | scripts/check-log-data.go:432-455 | the index loop computes the key/value reading of an argument list |
| `LogScan.SliceDefs` | scripts/check-log-data.go:305-333 | each variable maps to exactly the slice values assigned to it, in order |
| `LogScan.Expansion.Expand` | scripts/check-log-data.go:399-427 | terminates on any graph; everything returned is reachable, and everything is covered up to the visited variables, whose definitions are covered too |
| `LogScan.ExpandSlice` | scripts/check-log-data.go:399-427 | a fresh expansion returns exactly the attributes of the slice values reachable through append bases, spreads and definitions |
| `LogScan.CallAttrs` | scripts/check-log-data.go:381-392 | a log call yields exactly the attributes it passes |
| `LogScan.CoveredPath` | scripts/check-log-data.go:399-427 | the cut-offs of the shared visited set lose nothing along any path |
| `LogScan.DefsAreUnique` | scripts/check-log-data.go:305-333 | a file determines its definitions |
| `LogScan.SelfAppendIsFollowed` | scripts/check-log-data.go:399-427 | a self-appending slice yields exactly its first and appended keys |
| `LogScanLaws.ContextCallsPass` | scripts/check-log-data.go:366-392 | a Context method passes what comes after its context and message |
| `LogScanLaws.LogCallsPass` | scripts/check-log-data.go:366-392 | Log and LogAttrs pass what comes after context, level and message |
| `LogScanLaws.PlainCallsPass` | scripts/check-log-data.go:366-392 | every other method passes what comes after its message |
| `LogScanLaws.StringIsAKey` | scripts/check-log-data.go:432-455 | a string literal with something after it is the key of that |
| `LogScanLaws.LastStringIsNoKey` | scripts/check-log-data.go:432-455 | a string literal at the end gives nothing |
| `LogScanLaws.ConstructorIsAnAttribute` | scripts/check-log-data.go:432-455 | a call of one of the ten slog constructors is one attribute under its own key |
| `LogScanLaws.OthersGiveNothing` | scripts/check-log-data.go:432-455 | any other element takes one place and gives nothing |
| `LogScanLaws.KeysLoseTheirQuotes` | scripts/check-log-data.go:432-455 | the key is what stands between the quotes |
| `LogScanLaws.CompositeHolds` | scripts/check-log-data.go:399-427 | a composite literal holds exactly the pairs of its elements |
| `LogScanLaws.AppendHolds` | scripts/check-log-data.go:399-427 | an append holds exactly what its base holds and the pairs it adds |
| `LogScanLaws.SpreadHolds` | scripts/check-log-data.go:399-427 | with a spread, what the last argument holds as well |
| `LogScanLaws.VariableHolds` | scripts/check-log-data.go:399-427 | a variable holds exactly what the slice values assigned to it hold |
| `LogScanLaws.ParenHolds` | scripts/check-log-data.go:348-356 | parentheses change nothing |
| `LogScanLaws.OthersHoldNothing` | scripts/check-log-data.go:399-427 | any other expression holds nothing |
| `LogScanLaws.SliceValuesAre` | scripts/check-log-data.go:337-346 | a slice value is a composite literal or an append, in any number of parentheses |
| `LogScanLaws.AssignedMeans` | scripts/check-log-data.go:305-333 | the definitions of a variable are exactly the slice values some balanced assignment gives it |
| `ArgumentResolution.FirstOfKindIsFirst` | agent/resolve.go:231-238 | the identifier found for a kind is the first of that kind in document order |
| `ArgumentResolution.ArgMap.ResolveNamed` | agent/resolve.go:152-162 | in whatever order the keys are visited, each value is changed by its own rule and no key is added or removed |
| `ArgumentResolution.ArgMap.Fill` | agent/resolve.go:196-206 | one field is filled exactly when it needs it and may be there |
| `ArgumentResolution.ArgMap.AutoFill` | agent/resolve.go:196-214 | the ID fields filled and added, and every other field kept |
| `ArgumentResolution.ArgMap.Resolve` | agent/resolve.go:91-128 | the argument map becomes the resolved one, key by key |
| `ArgumentResolution.OnlyPlaceholdersChange` | agent/resolve.go:217-227 | nothing is removed, concrete values are kept, only ID fields are added |
| `ArgumentResolution.FillsAreOfTheFieldsKind` | agent/resolve.go:165-214 | a changed field holds the first identifier of that field's kind, or the entity's type or label |
| `ArgumentResolution.PlatformToolsGetDeclaredKeysOnly` | agent/resolve.go:119-128 | a platform tool gets no key its schema does not declare |
| `ArgumentResolution.ResolutionIsIdempotent` | agent/resolve.go:91-112 | resolving twice is resolving once |
| `ResolutionLaws.PlaceholdersAre` | agent/resolve.go:495-506 | a placeholder stands in angle brackets, or starts with one and one of five phrases in any case |
| `ResolutionLaws.PlaceholdersGiveWay` | agent/resolve.go:152-190 | a placeholder in one of the seven ID arguments gives way to the first extracted identifier of its kind |
| `ResolutionLaws.DescriptionsGiveWay` | agent/resolve.go:165-190 | an entity_type or label placeholder gives way to that of the first entity |
| `ResolutionLaws.GapsAreFilled` | agent/resolve.go:196-214 | an empty automatic ID argument is filled; a missing one is added unless the tool is a kg_ tool that does not declare it |
| `ResolutionLaws.KgToolsGetDeclaredKeysOnly` | agent/resolve.go:119-128 | a kg_ tool gets no key its schema does not declare |
| `ResolutionLaws.OtherValuesAreKept` | agent/resolve.go:217-227 | a value that is neither empty nor a placeholder, and one that is no string, is kept |
| `Extraction.HeuristicScan` | agent/resolve.go:376-397 | the loops compute the scan, in document order |
| `Extraction.ScanItem` | agent/resolve.go:401-440 | so for one item |
| `Extraction.FirstArrayOfObjects` | agent/resolve.go:444-465 | the first key of the order that holds objects |
| `Extraction.ExtractWithDescriptor` | agent/resolve.go:261-296 | the single field, then the first array key that yields identifiers |
| `Extraction.ExtractNested` | agent/resolve.go:299-326 | the nested paths of an item, in order |
| `Extraction.FindNonEmpty` | agent/resolve.go:339-346 | the first non-empty string field |
| `Extraction.Extract` | agent/resolve.go:244-258 | the descriptor's identifiers, or the scan's when there are none |
| `Extraction.ScanFindsTheLocatedOnes` | agent/resolve.go:348-465 | the scan yields exactly the identifiers that stand in allow-listed places, at most two levels down |
| `Extraction.ScannedAreConcrete` | agent/resolve.go:376-481 | scanned identifiers are non-empty and no placeholders, never of relationship kind, and of document kind only out of a document_id field |
| `Extraction.UnlistedFieldsAreNotRead` | agent/resolve.go:348-397 | documents that differ only in the text under a key off the allow-list, such as a tenant id, at the top, in items or any depth of arrays below, scan alike |
| `Extraction.UnlistedItemFieldsAreNotRead` | agent/resolve.go:401-440 | the same for one item and the objects of its arrays |
| `Extraction.DescriptorsYieldTheirKind` | agent/resolve.go:261-326 | a descriptor yields non-empty identifiers of its own kind only |
| `Extraction.ScanFillsConcreteValues` | agent/resolve.go:91-112 | an ID field changed from scanned content holds a concrete value of its kind that stands in the content |
| `Extraction.DescriptorsKeepKindsApart` | agent/resolve.go:91-112 | a descriptor that finds something leaves the ID fields of every other kind alone |
| `ResolutionLaws.PlacesAre` | agent/resolve.go:348-366 | the allow-listed fields, the list field and the array keys, in their order |
| `ResolutionLaws.FieldsAreReadAs` | agent/resolve.go:468-481 | a document_id gives a document, any other field an entity; empty values and placeholders give nothing |
| `ResolutionLaws.TopFieldsAreFound` | agent/resolve.go:376-386 | an allow-listed field at the top is found, of the kind its name says |
| `ResolutionLaws.ItemFieldsAreFound` | agent/resolve.go:401-410 | one in an item is found with the item's type and label |
| `ResolutionLaws.NestedAreFound` | agent/resolve.go:411-440 | so are matched entities and the fields of objects in an item's arrays |
| `ResolutionLaws.FirstArrayIsFirst` | agent/resolve.go:444-465 | the array scanned is that of the first key that holds objects |
| `ResolutionLaws.FirstNonEmptyIsFirst` | agent/resolve.go:339-346 | the first non-empty field counts |
| `ResolutionLaws.FirstYieldIsFirst` | agent/resolve.go:272-293 | the first array key that yields anything gives the identifiers |
| `ResolutionLaws.ShapedItemsMean` | agent/resolve.go:272-326 | a descriptor reads in each item exactly its first non-empty field and what its one- and two-part paths lead to |
| `ResolutionLaws.DescriptorsRead` | agent/resolve.go:261-336 | the single field first, then the first yielding array |
| `ResolutionLaws.ExtractionFallsBack` | agent/resolve.go:244-258 | the scan where the descriptor is missing or finds nothing; nothing for content that is no object |
| `PlanExecution.LazySchemas.Target` | agent/tool_planner.go:572-590 | the schema of a platform tool, with the tools listed on the first such call only |
| `PlanExecution.Execute` | agent/tool_planner.go:173-234 | the loop gives the first min(len, MaxSteps) results of the execution relation, makes its calls, and lists tools once exactly when a step that ran needed it |
| `PlanExecution.CallsAreTheUnblockedSteps` | agent/tool_planner.go:173-234 | calls are made in plan order, at most once a step, exactly by the steps that are not blocked |
| `PlanExecution.NothingSpreads` | agent/tool_planner.go:173-234 | everything downstream of a step that gave nothing is blocked |
| `PlanExecution.DependentsOfNothingNeverCall` | agent/tool_planner.go:173-234 | no step on a chain of dependencies from a failed, skipped or empty step calls a tool |
| `PlanExecution.OnlyDependentsOfNothingAreSkipped` | agent/tool_planner.go:173-234 | conversely a step that calls nothing has such a chain |
| `PlanExecution.ResultsAreAligned` | agent/tool_planner.go:392-415 | result i belongs to step i, and a success is what its call returned |
| `PlanExecution.KitSchemaDoesNotMatter` | agent/resolve.go:119-128 | for a kit tool the schema plays no part in resolution |
| `PlanLaws.DependentStepsSendResolved` | agent/tool_planner.go:205-225 | a call of a dependent step has, in each ID argument that was a placeholder, the first identifier of its kind out of the prior result, and keeps every concrete argument |
| `PlanLaws.DependentStepsGetMissingIds` | agent/tool_planner.go:205-225 | a missing ID argument is added, for a kg_ tool only if the last schema listed under its name declares it |
| `PlanLaws.IndependentStepsSendTheirArguments` | agent/tool_planner.go:173-234 | a call goes to its step's tool; without a backward dependency it carries the step's own arguments |
| `PlanLaws.StepsCallUnlessGivenNothing` | agent/tool_planner.go:173-205 | a step calls its tool unless the earlier step it depends on failed, was skipped or gave no content |
| `PlanLaws.ResultsAreWhatCallsReturned` | agent/tool_planner.go:392-415 | a step succeeds exactly with the content its call returned, and is empty where the call failed or was not made |
| `PlanLaws.ListingsAreNeeded` | agent/tool_planner.go:572-590 | tools are listed exactly when a step that ran depends on an earlier one and names a kg_ tool |
| `EventStream.StreamWriter.WriteEvent` | agent/serve.go:149-162 | the output stays the printed form of the events written, a nil event writing nothing |
| `EventStream.StreamWriter.Close` | agent/serve.go:168-185 | one last task/status event is written |
| `EventStream.ReadStream` | gateway/client.go:518-555 | the scan loop computes the parse of the stream |
| `EventStream.ParsePrinted` | gateway/client.go:518-555 | parsing one printed event of any type gives what its lines deliver and goes on, or stops at a line over the limit |
| `EventStream.ParseOfPrint` | gateway/client.go:518-555 | parsing any printed list of events gives exactly what they deliver, then the rest of the stream unless a line was over the limit |
| `EventStream.StreamRoundTrips` | agent/serve.go:149-185 | where all lines fit, the texts come back as they were, in order, if and only if every event survives: its data is trimmed, non-empty and not the end mark, and its type's own lines emit nothing and hold only blank text |
| `EventStream.TransparentIffAllSurvive` | gateway/client.go:518-555 | without a bound on the lines: events come back as they were and leave whatever follows untouched if and only if every one survives |
| `EventStream.EventOutMeaning` | gateway/client.go:524-540 | a fitting event with proper data gives at least one payload, and exactly its data if and only if its type is quiet |
| `EventStream.TypesWithoutDataLinesAreQuiet` | gateway/client.go:542-555 | a type of any number of lines without a data line is quiet if and only if its lines fit |
| `EventStream.OneLineTypesAreQuiet` | gateway/client.go:542-555 | a type on one line is quiet if and only if its line fits |
| `EventStream.JsonEventsRoundTrip` | agent/serve.go:149-185 | JSON objects on one line within the limit all come back if and only if their types are quiet |
| `EventStream.NewlineInTypeBreaksTheStream` | agent/serve.go:149-162 | a data line smuggled in by a newline in the type becomes part of the payload |
| `EventStreamLaws.EventsAreThreeLines` | agent/serve.go:149-162 | an event is printed as its type line, its data line and an empty line |
| `EventStreamLaws.DataLinesAreHeld` | gateway/client.go:542-555 | a data line is held without its field name |
| `EventStreamLaws.CarriageReturnsAreDropped` | gateway/client.go:542-555 | one carriage return at the end of a line is dropped |
| `EventStreamLaws.EmptyLinesSend` | gateway/client.go:524-540 | an empty line sends the held lines, joined and trimmed, unless that is empty or the end mark |
| `EventStreamLaws.OtherLinesAreIgnored` | gateway/client.go:542-555 | any other line is passed over |
| `EventStreamLaws.TheEndSends` | gateway/client.go:542-555 | the end of the stream sends what is held |
| `EventStreamLaws.LongLinesEndTheStream` | gateway/client.go:518-522 | a line of 1048576 bytes or more ends the stream there |
| `EventStreamLaws.LastLinesCount` | gateway/client.go:542-555 | a last line without a newline counts |
| `Download.ReadLimit` | fetch/fetch.go:666-673 | the limit is one past the cap, except at the maximum, where it is the cap |
| `Download.LimitDetectsOverrun` | fetch/fetch.go:633-673 | reading to the limit tells a body over the cap from one that fits, for every positive cap |
| `Download.CopyBody` | fetch/fetch.go:633-639 | the copy puts the body up to the limit in the file and the hash, and fails by a failed write or by a read error met before the limit or with the bytes that reach it |
| `Download.WriteSpool` | fetch/fetch.go:633-649 | it ends as the body, the disk and the cap determine: a failed write is permanent, a read error that is met is itself, a body over the cap is refused; an accepted body is in the file, the hash and the size exactly |
| `Download.TransferredBodiesMeetTheCap` | fetch/fetch.go:633-673 | a fully transferred body is accepted if and only if it fits the cap, for every positive cap |
| `Download.AcceptedBodiesAreComplete` | fetch/fetch.go:633-673 | an accepted body fits the cap and was read to its end |
| `Download.TryOnce` | fetch/fetch.go:504-577 | an attempt ends as its exchange determines; a failure leaves the files as they were, a success adds exactly one holding the complete body |
| `Download.OnlyTimeoutsAreRetried` | fetch/retry.go:112-128 | an attempt without a response is retried if and only if it timed out |
| `Download.StatusesDecideRetries` | fetch/retry.go:140-150 | a status outside 200 to 299 fails the attempt, which is retried if and only if the status is not in 400 to 499 |
| `Download.RefusalsAreFinal` | fetch/fetch.go:504-577 | a bad request, a declared or actual size over the cap, a spool file that cannot be made and a failed write fail for good |
| `Download.RetryableFailuresAre` | fetch/retry.go:112-128 | no permanent failure and no ended context is retried, a network failure only if it timed out, anything else is |
| `Download.AttemptsSucceedExactly` | fetch/fetch.go:504-577 | an attempt succeeds if and only if it gets a 2xx whose declared and actual size fit and the disk takes the body |
| `Download.Get` | fetch/fetch.go:420-472 | a request goes out exactly for an https URL, or http where allowed, to a listed host if any is; each attempt ends as the exchange it made determines; an error leaves no file and success exactly one with the complete body; at most max(1, MaxAttempts) attempts, each but the last a retryable failure, none after the context ended |
| `Download.GetUndisturbed` | fetch/retry.go:67-107 | while the context lasts, the run stops at the first attempt that succeeds or fails for good, and fails after the whole budget if there is none |
| `Download.Result.Close` | fetch/fetch.go:225-241 | deletes the file once, whatever the number of calls |
| `EdgeNames.CheckAddressable` | manifest/egress.go:1371-1383 | accepts exactly the addressable names |
| `EdgeNames.SanitizeEdgeName` | manifest/egress.go:1388-1400 | computes the sanitized form |
| `EdgeNames.SanitizedIsEmptyOrAddressable` | manifest/egress.go:1388-1400 | the sanitized form is empty or addressable |
| `EdgeNames.NoLegalForm` | manifest/egress.go:1388-1400 | it is empty exactly when no character but underscores would remain |
| `EdgeNames.AddressableIffFixedPoint` | manifest/egress.go:1361-1400 | a name is addressable if and only if it is a non-empty fixed point |
| `EdgeNames.SanitizeIsIdempotent` | manifest/egress.go:1388-1400 | sanitizing twice is sanitizing once |
| `EdgeNames.AddressableNamesAre` | manifest/egress.go:1371-1383 | an addressable name is a word of ASCII letters, digits and underscores that does not end in one |
| `EdgeNames.SanitizedIs` | manifest/egress.go:1388-1400 | the sanitized form keeps word characters in place, has underscores elsewhere and only drops underscores at the end |
| `EgressManifest.NamesAreInPushOrder` | manifest/egress.go:832-843 | the entity type names are the non-empty ones, in the order of their entries |
| `EgressManifest.CheckOwnerPrecedence` | manifest/egress.go:1298-1321 | accepts exactly the valid precedence lists |
| `EgressManifest.CheckReferenceEdges` | manifest/egress.go:1331-1359 | accepts exactly complete, addressable reference edges with distinct names |
| `EgressManifest.CheckParentEdges` | manifest/egress.go:1238-1291 | accepts exactly valid parent edges with distinct names |
| `EgressManifest.CheckEntityType` | manifest/egress.go:1189-1293 | accepts exactly the valid entity types |
| `EgressManifest.CheckOntology` | manifest/egress.go:1139-1172 | accepts exactly non-blank anchors that differ after trimming |
| `EgressManifest.CheckRelationships` | manifest/egress.go:1077-1129 | accepts exactly declared endpoints with distinct tuples |
| `EgressManifest.CheckDelivery` | manifest/egress.go:1017-1043 | accepts exactly the coherent delivery settings |
| `EgressManifest.CheckComponent` | manifest/egress.go:968-1009 | accepts exactly the valid components |
| `EgressManifest.ValidateEgressSyncs` | manifest/egress.go:947-1012 | accepts exactly the valid sections, and otherwise names the first component whose prefix is invalid |
| `EgressManifest.HierarchicalTypesResolveTheirEdge` | manifest/egress.go:918-925 | in an accepted section a type is hierarchical exactly when it resolves a walk edge, which is unique, directed and addressable; parent names are distinct fixed points of the sanitizer |
| `EgressManifest.RelationshipEntityTypes` | manifest/egress.go:868-889 | the distinct non-empty endpoint types where each first occurs |
| `EgressManifest.EndpointTypesAreDeclared` | manifest/egress.go:868-889 | in an accepted section they are distinct, declared, and all the lane names |
| `EgressManifestLaws.SectionsAreValidExactly` | manifest/egress.go:947-1359 | a section is valid if and only if every component meets every rule, each spelled out on the declared values, and no two share a name |
| `EgressManifestLaws.WalkEdgesAre` | manifest/egress.go:918-925 | the walk edge is the one parent edge of a hierarchical type, pointing out unless it says otherwise |
| `EgressManifestLaws.EndpointsComeInOrder` | manifest/egress.go:868-889 | endpoint types come in declared order, source before target, each where it first occurs |
| `Spans.SpanTracker.constructor` | agent/events.go:389-398 | one root without a parent |
| `Spans.SpanTracker.ChildSpan` | agent/events.go:408-414 | the new span is recorded under its parent and nothing else changes |
| `Spans.SpanTracker.Depth` | agent/events.go:417-439 | on any map, cycles included, the true depth if it is at most 100 and -1 otherwise |
| `Spans.DepthIsUnique` | agent/events.go:417-439 | a span has at most one depth |
| `Spans.OthersKeepTheirDepth` | agent/events.go:408-414 | a new span changes no other depth |
| `Spans.ChildIsOneDeeper` | agent/events.go:369-414 | a new span is one deeper than its parent, a root without one, and without a depth under an unknown one |
| `Spans.RunsGrowATree` | agent/events.go:369-414 | after any run of nested calls every span has a depth and only the root has depth 0 |
| `Spans.DepthsAreStable` | agent/events.go:408-439 | a depth once held is kept for the rest of the run |
| `Spans.ChainsAreDeep` | agent/events.go:408-414 | a run that always nests under the last span builds one as deep as it is long |
| `Spans.DeepSpansReportNoDepth` | agent/events.go:417-439 | the last span of such a chain reports a depth if and only if the chain is no longer than 100 |
| `Spans.RingsHaveNoDepth` | agent/events.go:417-439 | spans that are each other's parent have no depth |

## Left out

- HTTP, JSON, YAML and TLS handling, signals, timers and logging: decoded values are datatypes, time is nondeterminism.
- The wording of error messages, reasons and defects: each is a datatype value that carries what the text is about.
- `egress/server.go` `ListenAndServe` as a machine of its own: it is the connector machine in the configuration `IsEgress`, and its loss of queued work does not arise.
- The health, liveness and test-connection endpoints and the extra routes: they call neither Connect, Sync nor a handler.
- The statistics a receipt adds to a load response: field copies.
- `transfer` internals: a writer is the record of the calls made on it.
- Plan requests, prompts and answer assembly: they depend on a language model.
- Decoding tool output and tool schemas: content is a JSON value or nothing, a schema the set of argument names it declares.
- `agent/resolve_registry.go`: the table is data; the laws hold for every descriptor.
- PlanExecution.Execute: identifier extraction is any function of the prior content and tool, of which `Extraction.Extract` is one.
- The final filter of the log scanner (denied and approved keys, safe values) and the directory walk: flat lookups.
- The delays between download attempts: only whether the context ends while waiting matters here.
- Download.WriteSpool: bodies of at most 2^63-1 bytes; the checksum is represented by the bytes that were hashed; at a cap of 2^63-1 a body of exactly that length is accepted without a look at a read after it.
- Download.TryOnce: removing a file is taken to succeed.
- Bearer tokens, redirects and stale spool sweeping in `fetch`: not part of the retry and spool protocol.
- EventStream.ReadStream: a context cancelled in the middle of a stream is not modelled, and text is a sequence of code points whose UTF-8 length is computed.
- Spans.RunsGrowATree: identifiers are taken to be fresh when drawn, neither in use nor named as a parent before.
- PollLoop.Poller.Poll: ends with its script of Sync outcomes, which stands for the context; the exact condition for a drain to end by itself is `PollLoop.DrainEndsUnlessItRepeats`.
- Manifest checks outside the egress section, JSON Schema and language-tag checks: flat field checks and library calls.
- `auth`, `kitlog`, `ontology`, `outcomereport` and `internal/redact`: I/O, field copies and one-branch checks.
