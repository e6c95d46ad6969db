# Proofs about the meeting assistant's backend and its scripts

A Dafny model of the stateful core of the repository, with proofs of what that code promises. Five groups:

1. **Home mirror** (`scripts/home-feed/bridge.ts`). Publishers, closers and forwarders keep a SQL binding table and a
   legacy key-value record in step. Every await-to-await stretch is one atomic step; other processes, editors of the
   legacy record, erasures and crashes interleave between any two. The safety theorems hold of every state of every
   run; the recovery and issuance theorems say what a run alone and a re-run after a crash end with; the watcher's
   theorems say that no notification is lost and no saved response is skipped.
2. **Agent task client** (`backend/src/agent-task-client.ts`). A bounded byte-level event-stream reader (compare
   section 9.2.6 of the WHATWG HTML standard), the strict frame protocol on top of it, and the cancel latch of a run.
   The reader and the protocol are classes proved equal to functions, and the theorems are about those functions.
3. **Credits** (`backend/src/billing/`). The price ladder and its margin in exact reals, the outbox of the usage
   ledger under concurrent enqueues and flushes, the seeding of local counters from the ledger, and the credit gate.
4. **Grants and key routing** (`backend/src/delegation-verify.ts`, `backend/src/portable-delegation.ts`). Which signed
   grants are accepted, what activation makes of them, which keys the router forwards, and how long a cached
   verification is served; one theorem runs from acceptance to the forwarded key.
5. **Budgets, limits and selections** (`scripts/agent-sync/fireflies.ts`, `backend/src/rate-limits.ts`,
   `backend/scripts/meeting-eval.ts`, `backend/src/modelSelection.ts`). Persisted request caps under kills, the gap
   audit and duplicate pass, the request classifier, counters and limiters, the evaluation matrix, and model health.

Each group has modules of its own, one per file; `Optional` and `Pigeonhole` are shared. A program that changes state
step by step is either a class whose methods are proved against functions, or, where several parties interleave, a
state machine `Next` with an invariant proved of every `Exec`. `dafny verify dfyconfig.toml` checks everything.

## What the proofs found

- `LedgerRehydrator` says its key mapping keeps a paid week and a free day with the same start apart
  (`backend/src/billing/ledger-rehydrate.ts:19-22`). The read does, but the key that marks a window as rehydrated holds
  only the address and the start (line 62). `LedgerRehydrate.UnreadWindowSkippedIff` says exactly when a window that
  was never read is taken as seeded, and `LedgerRehydrate.CollidingWindowIsNotSeeded` is such a run.
- One usage record per address holds one window, so a read that began before midnight and finishes after the new day
  was seeded wipes the new day's counter. `LedgerRehydrate.SeedingLastsIff` is the exact condition,
  `LedgerRehydrate.DisplacedForGood` shows that the marked window is never read again, and
  `LedgerRehydrate.MidnightReadDisplacesNewDay` is such a run.
- `getEntitlement` and the gate call a missing count an outage and never a zero-credit read, but test only for null
  (`ledger-rehydrate.ts:155`, `ledger-gate.ts:145`). An answer without the field is compared, the comparison is false,
  and the ledger allows: `LedgerGate.MissingCountIsAllowed`. `LedgerGate.ReadsDisagreeIff` says exactly when the gate
  compares what the seeding read of the same file rejects.
- `isCompleteReleaseMatrix` can be false after a matrix that ran to its end: a provider catalog that lists an offered
  model twice makes every run of it happen twice (`EvalRun.ListedTwiceIsIncomplete`).
  `EvalRun.CompletedIsReleaseMatrix` is the exact condition.
- The daily caps of the Fireflies runner depend on what the state file remembers: a start on another day forgets the
  counts of the day before, so a clock set back over midnight allows more than four runs of one day.
  `FirefliesBudget.ClockSetBack` is such a run, and `FirefliesBudget.StartIsSafeIff` says exactly when a start is safe.
- In `parseStoredGrant` the test that a cached grant has not expired can never fail, because its `until` never passes
  the expiry; `GrantCaching.GrantCache.Begin` asserts it at that point.
- `evictStoredGrantVerification` is to invalidate a verified grant when it is replaced or revoked
  (`backend/src/delegation-verify.ts:64`), but `parseStoredGrant` awaits its verification before it stores the answer
  (lines 154-155): a parse that began before the eviction can store its answer after it, and parses are then served
  from the cache, although a verification would refuse the grant. `GrantCaching.LateParseOutlivesEviction` is such a
  run, `GrantCaching.EvictionLastsIff` says exactly when the next parse verifies anew, and
  `GrantCaching.EvictionIsSafeIff` exactly when an eviction is safe whatever follows. That no answer rests on a
  verification of more than ten minutes before holds all the same (`GrantCaching.AnswersAreRecent`).
- The router's `list` folds the `path` option into the forwarded prefix and forwards the option as well
  (`backend/src/portable-delegation.ts:185-190`). A node that joins the two as the router does lists another path,
  exactly when the option is not empty (`KvPaths.PathCountsTwiceIff`); the listing still lies under its resource.

## Model

| member | source | states |
|---|---|---|
| HomeMirror.InsertKeepsOwner | scripts/home-feed/bridge.ts:172-182 | the guard of the atomic INSERT keeps one source and card per legacy key |
| HomeMirror.StoreKeeps | scripts/home-feed/bridge.ts:165 | a conditional put keeps the world in order when it replaces what its writer may replace |
| HomeMirror.PublishStepKeeps | scripts/home-feed/bridge.ts:133-191 | every await of a publication keeps the world's invariant and what its own locals claim about it |
| HomeMirror.CloseStepKeeps | scripts/home-feed/bridge.ts:281-320 | the same for every await of a close |
| HomeMirror.ProcStepKeeps | scripts/home-feed/bridge.ts:345-399 | the same for forwarding, with the close it may contain |
| HomeMirror.NextKeeps | scripts/home-feed/bridge.ts:133-399 | no act of any process, editor or crash breaks the invariant, and the write history only grows |
| HomeMirror.Reachable | scripts/home-feed/bridge.ts:133-399 | the invariant holds after every run of any interleaving |
| HomeMirrorSafety.OneOwnerInEveryRun | scripts/home-feed/bridge.ts:148-182 | in every reachable state all binding rows for one legacy key name the same source and card |
| HomeMirrorSafety.PublishReplacesOnlyItsOwn | scripts/home-feed/bridge.ts:158-167 | a publication put replaced nothing, a version bound to its own source and card, or a record without card UUID and with equal business content |
| HomeMirrorSafety.NoForeignBoundVersionLost | scripts/home-feed/bridge.ts:144-167 | no publication ever replaces a version bound, before or after, to another source or card |
| HomeMirrorSafety.NoOtherCardReplaced | scripts/home-feed/bridge.ts:158-167 | neither publications nor closes of one card ever replace a version carrying another card |
| HomeMirrorSafety.BindingsAreImmutable | scripts/home-feed/bridge.ts:169-189 | a binding row never changes its binding and never disappears |
| HomeMirrorSafety.ClosePutReplaces | scripts/home-feed/bridge.ts:293-312 | a close put replaces the head it examined, which is the published version, already the patched record, or the version of the last receipt; that a close puts what it must is `HomeMirrorClosing.ClosesAlone` |
| HomeMirrorSafety.ReceiptIsCompareAndSet | scripts/home-feed/bridge.ts:313-318 | a receipt is recorded only over the very receipt its close loaded |
| HomeMirrorSafety.DeliveryIsPrecededByReceipt | scripts/home-feed/bridge.ts:377-397 | a closing response is delivered only after a receipt naming it was stored in its row and the closed version was read back as the head of the row's binding |
| HomeMirrorAnswers.PublishedIsBound | scripts/home-feed/bridge.ts:146-190 | in every interleaving a publication that returns answers a binding of its own request, held by its row from then on, that names a written version of the legacy key with the request's bytes |
| HomeMirrorAnswers.InsertedIsFound | scripts/home-feed/bridge.ts:172-189 | a binding that was inserted is found and answered although the reply of the insert was lost; an insert that took no effect publishes nothing |
| HomeMirrorOrder.MirrorFollowsHome | scripts/home-feed/bridge.ts:135-189 | in every interleaving a publication writes the record or a row only after the card was published at home and found there, and the record only after it was found there once more |
| HomeMirrorOrder.ClosesOnlyWhenPermitted | scripts/home-feed/bridge.ts:303-318 | in every interleaving a close puts or stores a receipt only after it was told, for this very plan, that the card is current and no newer response is there |
| HomeMirrorOrder.DeliversOnlyCurrent | scripts/home-feed/bridge.ts:350-397 | in every interleaving a delivery follows the response having been found deliverable for its row and the card found current once more |
| HomeMirrorClosing.ReceiptsAreTrue | scripts/home-feed/bridge.ts:293-318 | in every interleaving a stored receipt names two written versions of its binding's key that carry the binding's card; the closed one has the receipt's status and is the examined one with a patch that was selected for the receipt's response, a new version if the patch changed anything |
| HomeMirrorClosing.DeliveredReceiptsAreTrue | scripts/home-feed/bridge.ts:377-397 | in every interleaving a closing response is delivered with such a true receipt for it |
| HomeMirrorClosing.ClosesAlone | scripts/home-feed/bridge.ts:276-320 | alone, a close is written out in full: whether it closes, whether it puts the patched record, the receipt it stores and the whole world it leaves; in every other case it changes nothing |
| HomeMirrorClosing.ClosesPublished | scripts/home-feed/bridge.ts:276-320 | from the published head with a response selected whose patch changes the record, a close ends with the patched record at the head and a receipt of that version and status, in its row |
| HomeMirrorForwarding.ForwardsAlone | scripts/home-feed/bridge.ts:345-399 | alone, a forward delivers exactly a response that closes nothing, or one whose close ends with a receipt for it that is still the head with its status, and then with that receipt |
| HomeMirrorForwarding.AnswerArrives | scripts/home-feed/bridge.ts:345-399 | from the published head the owner's selected answer closes the mirror and is delivered with the receipt the row then holds |
| HomeMirrorRuns.PublicationRuns | scripts/home-feed/bridge.ts:133-191 | a publication begun at any point of any run and then left alone leaves the world and its answer as `IssuesIff` says, and touches no other process |
| HomeMirrorRuns.CloseRuns | scripts/home-feed/bridge.ts:276-320 | the same for a close, as `ClosesAlone` says |
| HomeMirrorRuns.ForwardRuns | scripts/home-feed/bridge.ts:345-399 | the same for a forward, as `ForwardsAlone` says |
| HomeMirrorRecovery.AloneSucceedsIffPublishable | scripts/home-feed/bridge.ts:133-191 | running alone, a publication returns within ten awaits and succeeds exactly when the request is publishable, leaving head and binding in step; `HomeMirrorIssuance.PublishableIff` writes out what publishable means |
| HomeMirrorIssuance.IssuesIff | scripts/home-feed/bridge.ts:133-191 | written out over the rows and the head: alone, a well-formed request whose legacy key has only rows of its own source and card is issued exactly when its own row is of the same request and closed or still at the head, or, without a row, when the record is absent, has the new bytes, is the bound version of any earlier issuance or has no card and the same content; the world left is given in full, and otherwise nothing changes |
| HomeMirrorIssuance.ReissueSucceeds | scripts/home-feed/bridge.ts:158-189 | a card that is mirrored at the head can be issued again with any new content: the new bytes are then at the head and bound by the only new row |
| HomeMirrorIssuance.PublishableIff | scripts/home-feed/bridge.ts:133-191 | the condition of the recovery theorems is the written-out one |
| HomeMirrorIssuance.RerunIssues | scripts/home-feed/bridge.ts:146-189 | wherever an issuance that may succeed crashed, its re-run is published, with the new bytes bound and, unless closed, at the head |
| HomeMirrorRecovery.RerunAfterCrash | scripts/home-feed/bridge.ts:146-189 | from a crash after any await, a re-run ends with the published bytes at the head and a binding carrying that version |
| HomeMirrorRecovery.RerunIsIdempotent | scripts/home-feed/bridge.ts:146-189 | re-running a completed publication returns the same binding and writes nothing at any await |
| HomeMirrorRecovery.BoundRunChangesNothing | scripts/home-feed/bridge.ts:152-157 | once its row exists a publication never reaches a put or an insert |
| HomeMirrorRecovery.CalmStep | scripts/home-feed/bridge.ts:133-191 | one undisturbed await keeps the locals current, keeps whether the request is publishable and comes closer to the end |
| HomeMirrorRecovery.ReachableRowsAreKeyed | scripts/home-feed/bridge.ts:98-105 | every reachable table carries its own keys, so the recovery theorems apply to it |
| HomeMirrorResponses.SavedResponse | scripts/home-feed/bridge.ts:330-342 | for whatever pages the feed answers the loop ends with the one answer they lead to; it fails exactly when full pages without the id advance to a full page without the id that does not advance |
| HomeMirrorResponses.SearchFindsFirst | scripts/home-feed/bridge.ts:330-342 | in an ordered feed that may grow between requests paging never fails and finds the response exactly when its first header, in the feed at the last request, has the caller's identity |
| HomeMirrorWatch.NextKeeps | scripts/home-feed/bridge.ts:423-475 | at every point of a drain the last notification is covered by the dirty flag, the current pass or a finished pass |
| HomeMirrorWatch.Reachable | scripts/home-feed/bridge.ts:423-475 | the same after every run of notifications, pages, failures, renewals and reconnections |
| HomeMirrorWatch.QuietMeansDrained | scripts/home-feed/bridge.ts:423-451 | a quiet, ready, unfailed watcher finished a full pass that began after the last notification, and every response saved by then lies on one of the pages that pass handled |
| HomeMirrorWatch.OneDrainAtATime | scripts/home-feed/bridge.ts:443-451 | the drains started and not yet finished are at most one, across reconnections too |
| HomeMirrorWatch.LateNotificationIsServed | scripts/home-feed/bridge.ts:447-451 | a notification between the loop's exit and `finally` starts a new pass there and then |
| HomeMirrorWatch.PassTerminates | scripts/home-feed/bridge.ts:427-440 | the pages of a pass are bounded by the newest sequence, since the page sequence strictly increases |
| HomeMirrorWatchRuns.NotificationIsServed | scripts/home-feed/bridge.ts:443-451 | an accepted notification starts a pass from the beginning at once, or asks the running drain for one more |
| HomeMirrorWatchRuns.OtherwiseNothingStarts | scripts/home-feed/bridge.ts:443-446 | without a ready connection, or after a failure or an abort, a notification starts nothing |
| HomeMirrorWatchRuns.PassReachesTheEnd | scripts/home-feed/bridge.ts:424-441 | a pass left alone handles page after page, end to end, up to the newest response, and starts over exactly if a notification came |
| HomeMirrorWatchRuns.NotificationIsDrained | scripts/home-feed/bridge.ts:423-451 | from a notification to quiet by one full pass over everything saved |
| HomeMirrorWatchRuns.FailureEndsTheWatch | scripts/home-feed/bridge.ts:438-476 | a failed page, forward or page sequence fails the watch, stops its connection and ends it with nothing running |
| HomeMirrorWatchRuns.AbortEndsTheDrain | scripts/home-feed/bridge.ts:428-451 | an abort ends a running drain at its next await without a failure |
| HomeMirrorWatchRuns.NoPassStartsAgain | scripts/home-feed/bridge.ts:441-476 | after an abort or a noticed failure no pass ever starts again |
| HomeMirrorWatchRuns.RenewalReconciles | scripts/home-feed/bridge.ts:453-475 | a renewed connection is opened again and its first ready starts a pass from the beginning |
| HomeMirrorWatchRuns.GoesOnIff | scripts/home-feed/bridge.ts:468-476 | an ended connection waits for the drain, and the watch goes on exactly when a renewal stopped it without error, failure or abort |
| HomeMirrorWatchRuns.OverIsQuiet | scripts/home-feed/bridge.ts:453-477 | in every run a watch that is over runs and hears nothing |
| TaskFraming.FrameReader.Push | backend/src/agent-task-client.ts:284-300 | the bounded buffer never overflows and one byte changes it as the pure framer says |
| TaskFraming.FramesConcat | backend/src/agent-task-client.ts:281-302 | reading a concatenation is reading its parts in turn |
| TaskFraming.ChunkingIsInvisible | backend/src/agent-task-client.ts:281-302 | the frames depend only on the concatenated bytes |
| TaskFraming.FramesMatchLines | backend/src/agent-task-client.ts:284-300 | byte by byte reading is splitting at line feeds, stripping one trailing carriage return and joining data lines at blank lines, with the same size limit |
| TaskFraming.RoundTrip | backend/src/agent-task-client.ts:284-300 | encoding valid UTF-8 payloads without carriage returns within the limit and reading the bytes gives exactly the payloads back |
| TaskUtf8.DecodesText | backend/src/agent-task-client.ts:277-291 | a line that encodes a text, by section 3 of RFC 3629, is decoded to that text without a byte order mark at its front |
| TaskUtf8.MalformedIff | backend/src/agent-task-client.ts:277-291 | exactly the lines that encode no sequence of Unicode scalar values are malformed |
| TaskProtocol.UsageIsSound | backend/src/agent-task-client.ts:92-99 | an accepted usage has finalized <= reported <= started <= 5, no count below the previous one, and completeness exactly when finalized equals started; that it is the frame's own is `TaskFrames.UsageIff` |
| TaskFrames.UsageIff | backend/src/agent-task-client.ts:92-99 | usage is read from a frame exactly when its five fields are safe counts, none below the previous one, ordered, at most 5 attempts, without tokens before a report and with the completeness that follows; the usage read is those five fields |
| TaskFrames.ConsumedIff | backend/src/agent-task-client.ts:173-252 | every frame that is consumed, written out: routing, sequence, size, and for each of the six types its fields and limits |
| TaskFrames.ConsumedEffect | backend/src/agent-task-client.ts:173-252 | what a consumed frame of each type leaves of every field of the client, which callback it calls and when that cancels the run |
| TaskFrames.RefusedEffect | backend/src/agent-task-client.ts:173-252 | a refused frame changes nothing but counted characters, and its code is a routing mismatch, a size limit or an incomplete upstream exactly by the written-out conditions |
| TaskUsage.UsageComesFromFrames | backend/src/agent-task-client.ts:92-252 | at every moment of every run the client's usage is the one the last consumed usage or final frame carries, or none |
| TaskProtocol.ContentEffect | backend/src/agent-task-client.ts:200-207 | a content delta adds its text to the characters and hands it over once unless cancelled |
| TaskProtocol.BodyEffect | backend/src/agent-task-client.ts:187-242 | no other frame delivers content |
| TaskProtocol.ConsumeKeeps | backend/src/agent-task-client.ts:173-252 | after every frame what was delivered is the in-order account of the deltas; a refused frame delivers nothing; the usage and latch invariants hold |
| TaskProtocol.RepeatChangesNothing | backend/src/agent-task-client.ts:177-179 | an exact repeat of the last frame changes nothing |
| TaskProtocol.NothingBeforeAccepted | backend/src/agent-task-client.ts:173-195 | before acceptance a frame is consumed exactly when it is a valid acceptance with the checked version, model and deadline; it accepts the run and changes nothing else, and every other frame fails without effect |
| TaskRun.ReceiveConsumesFrames | backend/src/agent-task-client.ts:281-302 | what the client becomes depends on the bytes only through the frames they spell |
| TaskRun.RunIgnoresChunking | backend/src/agent-task-client.ts:281-302 | client, callbacks and error do not depend on the chunking |
| TaskRun.Reachable | backend/src/agent-task-client.ts:254-315 | the run invariant holds after any sequence of chunks, cancellations, timeouts and failures |
| TaskRun.EveryRunReturns | backend/src/agent-task-client.ts:303-315 | every run that ends has a final frame or an error code, and is observed completely exactly with a final frame of complete usage |
| TaskRun.OneCancelRequest | backend/src/agent-task-client.ts:146-163 | at most one cancel request is sent, only after submission and only by a cancelled run |
| TaskEndings.CancelRequestIff | backend/src/agent-task-client.ts:146-163 | a cancel request was sent exactly by a cancelled submitted run, once; a submitted run has an error code exactly when cancelled, and without a final frame it ends cancelled |
| TaskEndings.ProbeDecides | backend/src/agent-task-client.ts:260-266 | an unready service, an earlier cancellation or a request too large ends the run before anything is submitted, with its code; otherwise the agent task is submitted |
| TaskEndings.AnswerDecides | backend/src/agent-task-client.ts:267-275 | an event stream is read; 503, any other refusal and an answer that is no stream fail the run with their codes and one cancel request |
| TaskEndings.ChunkDecides | backend/src/agent-task-client.ts:281-302 | a chunk is consumed up to the final frame or the first error: a final frame ends the run as it is, an error fails it with its code, otherwise reading goes on |
| TaskEndings.TransportFails | backend/src/agent-task-client.ts:281-315 | a broken connection, an observed abort and an early end of the stream fail a submitted run with their codes, keeping what was received, delivered and counted |
| TaskEndings.AbortLatches | backend/src/agent-task-client.ts:146-164 | a cancellation latches with its code; before submission it aborts the transport, afterwards it sends the request and leaves the stream open |
| TaskEndings.UndisturbedRunSucceeds | backend/src/agent-task-client.ts:254-315 | a submitted run whose bytes carry a final frame and whose callbacks do not object returns it without an error or a cancel request |
| TaskRun.ContentIsInOrder | backend/src/agent-task-client.ts:165-206 | the text handed over is the in-order sequence of deltas while reading uncancelled and a prefix otherwise; a run that returns a final frame uncancelled handed over exactly the deltas up to that frame, at most 64,000 units |
| TaskRun.RunsOnlyProgress | backend/src/agent-task-client.ts:146-171 | between any two moments usage never decreases, acceptance, cancellation, first error and final frame stay, and nothing is delivered after a cancellation |
| TaskBounds.DeliveredIsBounded | backend/src/agent-task-client.ts:202-206 | at every moment of every run at most 64,000 units were handed to onContent |
| TaskTwin.ConsumeAlike | backend/src/agent-task-client.ts:173-252 | a client and its cancelled twin take or refuse every frame alike, with the same code, and the cancelled one delivers nothing |
| TaskTwin.ReceiveAlike | backend/src/agent-task-client.ts:281-302 | the same for any bytes |
| TaskTwin.CancelledRunAbsorbsUsage | backend/src/agent-task-client.ts:146-302 | cancelling a reading run changes nothing of what it takes from the stream: same usage, final frame, frame position, characters and phase as uncancelled, and nothing more delivered |
| TaskClient.AgentTaskRun.CancelWith | backend/src/agent-task-client.ts:146-163 | the cancellation latches, the first error code stays, one cancel request goes out for a submitted run and none ever again, and nothing received or delivered is lost |
| TaskClient.AgentTaskRun.Report | backend/src/agent-task-client.ts:244-249 | the usage callback is called exactly once, cancelled or not, only its objection cancels the run, and deliveries, usage, final frame and frame position stay |
| TaskClient.AgentTaskRun.Deliver | backend/src/agent-task-client.ts:165-171 | a cancelled run delivers nothing and stays as it is; otherwise the text follows all earlier ones once, and exactly a refusal or a throw cancels |
| TaskClient.AgentTaskRun.ConsumeFrame | backend/src/agent-task-client.ts:173-252 | the fields after one frame, also after a refused one, are those of the specified protocol |
| TaskClient.AgentTaskRun.CheckAnswer | backend/src/agent-task-client.ts:224-235 | a final frame's answer is taken exactly when it is a good buffered or streamed one, or absent for a non-answering outcome, and then the characters stay within the limit |
| TaskClient.AgentTaskRun.Read | backend/src/agent-task-client.ts:281-302 | reading a chunk leaves reader and client as the specified byte loop does |
| Credits.NiceCeilBounds | backend/src/billing/credits.ts:53-66 | the snapped value is on the ladder, reaches x up to the epsilon, written out, and is at most 1.5 x |
| Credits.NiceCeilIsLeast | backend/src/billing/credits.ts:53-66 | it is the least ladder value that reaches x up to the epsilon |
| Credits.NiceCeilMonotone | backend/src/billing/credits.ts:53-66 | snapping is monotone |
| Credits.NiceCeilFixesLadder | backend/src/billing/credits.ts:48-66 | ladder values of at least 1e-9 stay where they are |
| Credits.RateTable.RatesForModel | backend/src/billing/credits.ts:83-100 | a model without pricing gets the fallback rates and is warned about once per process |
| Credits.RatesAreSensible | backend/src/billing/credits.ts:83-100 | every model's rates are non-negative |
| Credits.RatesFollowPrices | backend/src/billing/credits.ts:83-100 | each rate covers its own price in credits up to the epsilon, is at most 1.5 times it and depends on it alone |
| Credits.FallbackRates | backend/src/billing/credits.ts:83-100 | the rates of a model without a price |
| Credits.CreditsAre | backend/src/billing/credits.ts:129-142 | a charge is the tokens times the rates rounded up once |
| Credits.CreditsCoverCost | backend/src/billing/credits.ts:77-142 | credits times the peg cover the upstream cost of a message up to the epsilon slack |
| Credits.PiecewiseCharge | backend/src/billing/credits.ts:129-142 | charging a message in k >= 1 pieces costs at least the whole and at most the whole plus k - 1 |
| Credits.EstimateCredits | backend/src/billing/credits.ts:150-162 | the estimate charges once for a quarter, rounded up, of the summed characters of all string contents, and never more than charging every message and the completion on its own |
| Credits.MultiplierFor | backend/src/billing/credits.ts:107-122 | the badge is the least rung covering the ratio up to the epsilon, or the top rung when none does or there is no usable baseline |
| LedgerFlusher.Flusher.Push | backend/src/billing/ledger-flusher.ts:37-50 | the cap is kept, only the oldest record of a full outbox is lost, the new one is last, and at the trigger size a flush is under way |
| LedgerFlusher.Flusher.Begin | backend/src/billing/ledger-flusher.ts:52-56 | single flight: a batch is taken only while none is in flight, is the whole outbox, and keeps the invariant of every system the flusher is part of |
| LedgerFlusher.Flusher.End | backend/src/billing/ledger-flusher.ts:73-80 | a finished flush drops exactly its batch when acknowledged and nothing otherwise |
| LedgerFlusher.NothingIsLost | backend/src/billing/ledger-flusher.ts:37-82 | the outbox holds at most 5000 records, exactly those enqueued, in order, that were neither acknowledged nor evicted |
| LedgerFlusher.OnlyTheOldestIsEvicted | backend/src/billing/ledger-flusher.ts:38-43 | a record leaves without acknowledgement only as the oldest of a full outbox |
| LedgerFlusher.FlushLeavesOnlyNewer | backend/src/billing/ledger-flusher.ts:73-75 | an acknowledged flush leaves only records enqueued after its snapshot |
| LedgerFlusher.CreditsAreConserved | backend/src/billing/ledger-flusher.ts:37-82 | at every moment recorded, waiting and evicted credits are the enqueued ones plus those of records counted twice because their reply is missing; drained without eviction the ledger has exactly the enqueued credits |
| LedgerDelivery.ReportSends | backend/src/billing/ledger-flusher.ts:37-50 | a new record goes to the end of the outbox, of which a full one of 5000 drops its oldest, and exactly an idle flusher with 50 records or more sends the whole outbox |
| LedgerDelivery.TickSends | backend/src/billing/ledger-flusher.ts:52-68 | a tick sends the whole outbox of an idle flusher, and does nothing with a batch in flight or nothing to send |
| LedgerDelivery.DeliveryEmptiesTheOutbox | backend/src/billing/ledger-flusher.ts:52-82 | a tick whose request arrives and is acknowledged empties the outbox and leaves every record ever enqueued in the ledger unless it was evicted |
| LedgerDelivery.LostBatchIsResent | backend/src/billing/ledger-flusher.ts:69-81 | a batch whose request or reply is lost stays as it was and is sent again by the next tick; if the ledger had received it, the repetition adds nothing and its acknowledgement empties the outbox |
| LedgerDelivery.IngestAddsMissing | backend/src/billing/ledger-flusher.ts:57-68 | the ledger adds exactly the missing ids, so a batch it holds adds nothing |
| LedgerRehydrate.Rehydrator.Finish | backend/src/billing/ledger-rehydrate.ts:66-117 | a successful read leaves the counter at the maximum of its value and the floored count and marks the key; a failed one changes no counter and no mark, and exactly failures past the allowance are answered at-limit; no other address changes |
| LedgerRehydrate.SeedTakesMaximum | backend/src/billing/ledger-rehydrate.ts:108-114 | one seeding leaves the counter at the maximum of its value and the floored read, and no other counter changes |
| LedgerRehydrate.ReadsNeverAddUp | backend/src/billing/ledger-rehydrate.ts:66-117 | for any interleaving of reads and charges of any addresses and windows: since a window was last displaced its counter is the maximum of what it started from and all its reads, never their sum, with charges on top at most once |
| LedgerTouches.TouchSeeds | backend/src/billing/ledger-rehydrate.ts:52-117 | the first touch of a window reads, leaves its counter at the maximum of its value and the count, and no later touch reads it again |
| LedgerTouches.FailedTouchReadsAgain | backend/src/billing/ledger-rehydrate.ts:52-106 | a touch whose read fails changes no counter and the next touch reads again |
| LedgerTouches.TwoTouchesTakeMaximum | backend/src/billing/ledger-rehydrate.ts:52-117 | of two first touches at once both read, and in either order of their answers the counter ends at the largest count |
| LedgerTouches.NothingSpentIsLost | backend/src/billing/ledger-rehydrate.ts:52-117 | while an address has one window, everything spent in it counts on top of what was there, and the counter is never below a count that was read, however touches, answers and charges interleave |
| LedgerRehydrate.MaximumIff | backend/src/billing/ledger-rehydrate.ts:66-117 | the counter ends at the maximum of its prior value and all reads exactly when no other window of the address was written meanwhile or that maximum was read again since |
| LedgerRehydrate.SeedingLastsIff | backend/src/billing/ledger-rehydrate.ts:108-114 | a seeding stays in the counter while no other window of the address is written, and only later reads and charges count once one is; without those it lasts exactly when no other window was written |
| LedgerRehydrate.DisplacedForGood | backend/src/billing/ledger-rehydrate.ts:58-106 | a marked window whose counter was displaced is never read again and shows at most what is spent from then on |
| LedgerRehydrate.MidnightReadDisplacesNewDay | backend/src/billing/ledger-rehydrate.ts:52-114 | a concrete run: a read begun before midnight finishes after the new day was seeded, leaving the new day marked with a counter of 0 |
| LedgerRehydrate.FirstFailuresForgiven | backend/src/billing/ledger-rehydrate.ts:87-103 | exactly the first 200 failed reads of a process are forgiven |
| LedgerRehydrate.FailuresNeverMark | backend/src/billing/ledger-rehydrate.ts:75-106 | a failed or null read never marks a key as rehydrated |
| LedgerRehydrate.UnreadWindowSkippedIff | backend/src/billing/ledger-rehydrate.ts:58-64 | a window never read is taken as seeded exactly when the window of the other kind with the same start was read |
| LedgerRehydrate.CollidingWindowIsNotSeeded | backend/src/billing/ledger-rehydrate.ts:58-64 | a concrete run in which that happens |
| LedgerGate.LedgerVerdictIff | backend/src/billing/ledger-gate.ts:121-175 | the ledger decides exactly when the window authorities agree, the limit is positive and the count is not null, and then denies exactly when the count is, or converts to, a number at or over the limit |
| LedgerGate.OutageVerdict | backend/src/billing/ledger-gate.ts:95-167 | otherwise a missing weekly anchor denies under every policy and else the policy decides, and the source says whether there was nothing to compare, the windows disagree or the limit is no positive number |
| LedgerGate.NeverComparesMismatched | backend/src/billing/ledger-gate.ts:151-167 | otherwise the ledger's count cannot influence the decision |
| LedgerGate.LocalUsageConsultedIff | backend/src/billing/ledger-gate.ts:95-138 | local usage is consulted exactly under the bounded policy with a safe window and no comparable ledger, never with a missing weekly anchor |
| LedgerGate.SoftFailureIsAnOutage | backend/src/billing/ledger-rehydrate.ts:142-181 | a null count, whatever else the answer says, is to the gate the same as never having asked, in every window and under every policy |
| LedgerGate.ReadsDisagreeIff | backend/src/billing/ledger-rehydrate.ts:75-86 | the gate compares an answer that the seeding read takes for a failure exactly when its count is neither null nor a finite number beside a positive limit of the expected window |
| LedgerGate.MissingCountIsAllowed | backend/src/billing/ledger-gate.ts:142-174 | an answer without a count and with a positive limit is allowed by the ledger under every policy, although the seeding read counts it as a failure |
| LedgerGate.SeededCounterAgreesWithGate | backend/src/billing/ledger-gate.ts:169-174 | after the local counter was seeded from the count the gate compares, it is at a whole limit exactly when it was before or the gate denies |
| LedgerGate.OutageKeepsDenial | backend/src/billing/ledger-gate.ts:95-174 | when the count the gate compared also seeded the local counter and the ledger goes out after any later reads and charges that write no other window of the address, a denial stays one under the bounded policy; without charges the outage denies exactly when the ledger did or a local count was at the limit |
| LedgerGate.DegradeAgreesWithOutage | backend/src/billing/ledger-gate.ts:62-74 | the rehydration cap denies exactly when the credit gate would deny an over-budget address during an outage |
| KvPaths.PrefixesAssociate | backend/src/portable-delegation.ts:200-210 | nested prefixes reach the same key as one combined prefix |
| KvPaths.ContainsIsSegmentPrefix | backend/src/portable-delegation.ts:218-222 | containment by string prefix is exactly containment by whole segments |
| KvPaths.ContainsIsPartialOrder | backend/src/portable-delegation.ts:218-222 | containment is reflexive, transitive and antisymmetric on normalised paths |
| KvPaths.CanonicalIsFixedPoint | backend/src/portable-delegation.ts:225-230 | a canonical path is a fixed point of dot-segment removal (section 5.2.4 of RFC 3986) |
| KvPaths.RouterStaysUnderResources | backend/src/portable-delegation.ts:164-194 | every key and every listing the router forwards lies under the activated resource whose access it goes to, segment by segment, and has no encoded slash; a listing does so with the path option it carries along joined to its prefix and without |
| KvPaths.PathCountsTwiceIff | backend/src/portable-delegation.ts:184-190 | joining the forwarded path option to the forwarded prefix gives what was asked for exactly when the path is empty |
| KvPaths.RouterIsComplete | backend/src/portable-delegation.ts:166-172 | a canonical key is forwarded exactly when it lies under some resource, to the first such one, and the forwarded key is the requested one: the scope's segments followed by the key's |
| KvPaths.RouteIff | backend/src/portable-delegation.ts:164-183 | a key is forwarded to an access exactly when the requested key is canonical and has no encoded slash and the access is that of the first resource over it; what is forwarded is the requested key |
| KvPaths.RouteListIff | backend/src/portable-delegation.ts:184-191 | the same for a listing: scope, prefix and path joined, or the first resource's path when all are empty |
| KvPaths.CanonicalIff | backend/src/portable-delegation.ts:225-230 | canonical, written out: no backslash and no empty, dot or double-dot segment but a last empty one |
| KvPaths.AllowedIff | backend/src/portable-delegation.ts:212-216 | the keys that may be forwarded are exactly those without a plain or encoded backslash or an encoded slash, without an empty segment before the end, and fixed by dot-segment removal |
| KvPaths.NormalizeCuts | backend/src/portable-delegation.ts:200-202 | normalising cuts exactly the slashes at both ends |
| KvPaths.EncodedIff | backend/src/portable-delegation.ts:212-216 | an encoded slash or backslash in either case is found wherever it stands |
| KvPaths.NestedScopesAgree | backend/src/portable-delegation.ts:193 | nested withPrefix scopes forward like one combined scope |
| GrantVerify.VerifyGrant | backend/src/delegation-verify.ts:69-136 | the loop over the attenuation and the checks around it give the first failing code or the accepted resources |
| GrantVerify.LifetimeIff | backend/src/delegation-verify.ts:132-134 | the lifetime checks pass exactly for an expiry more than a minute ahead, within the session and thirty days plus five minutes, and a not-before at most a minute ahead |
| GrantVerify.AbilitiesIff | backend/src/delegation-verify.ts:118-128 | the ability checks pass exactly for all listed actions and no others, each without conditions |
| GrantVerify.EntryIff | backend/src/delegation-verify.ts:112-129 | an entry passes exactly when its URI is a listed resource in the owner's space with exactly its actions |
| GrantVerify.AcceptsIff | backend/src/delegation-verify.ts:109-135 | a grant is accepted exactly when the earlier checks pass, its entries are in one-to-one correspondence with the policy's table and its lifetime is in the window |
| GrantVerify.MatchesIff | backend/src/delegation-verify.ts:38-58 | what a matching grant carries under each policy, with its URIs and actions written out |
| GrantVerify.OrderDoesNotMatter | backend/src/delegation-verify.ts:112-131 | the order of entries and of abilities inside them does not matter |
| GrantVerify.PoliciesAreTables | backend/src/delegation-verify.ts:38-58 | the two policy tables list distinct resources with distinct actions |
| GrantVerify.ExactGrantIsAccepted | backend/src/delegation-verify.ts:109-135 | a grant of exactly the policy's table is accepted exactly while its lifetime is in the window, and refused as expired within a minute of its expiry |
| GrantActivation.AcceptedResources | backend/src/delegation-verify.ts:129-135 | an accepted grant carries each of its policy's resources exactly once and an expiry in the window |
| GrantActivation.PoliciesDoNotMix | backend/src/delegation-verify.ts:54-58 | no grant is accepted under both policies |
| GrantActivation.AssertSupportedShape | backend/src/portable-delegation.ts:234-246 | the count map refuses exactly the empty, the too long and the shapes with two of a singleton service |
| GrantActivation.AcceptedIsActivatable | backend/src/portable-delegation.ts:82-83 | activation's shape check never refuses an accepted grant |
| GrantActivation.ExoShapeIff | backend/src/portable-delegation.ts:248-255 | an exo sync shape passes exactly with its two KV prefixes, in either order, each with exactly its three actions and none repeated |
| GrantActivation.Activate | backend/src/portable-delegation.ts:77-109 | activation succeeds exactly on an activatable shape, and then routes every KV resource to its own activation and SQL to the first one |
| GrantActivation.ForwardsOnlyGrantedKeys | backend/src/portable-delegation.ts:77-194 | from acceptance to forwarding: an accepted grant has a router; every key it forwards is the requested one, and every key and listing, with or without the path option sent beside the prefix, lies under a KV resource of the grant's policy and goes to that resource's activation |
| GrantActivation.GrantedKeysAreForwarded | backend/src/portable-delegation.ts:77-183 | every canonical key under a KV resource of the policy of an accepted grant is forwarded, as requested, to the activation of such a resource |
| GrantCaching.GrantCache.Begin | backend/src/delegation-verify.ts:138-153 | a parse is answered before its await exactly by a live entry, and then with an unexpired answer of a verification that began less than ten minutes before; an entry of another owner is removed and refused |
| GrantCaching.GrantCache.Finish | backend/src/delegation-verify.ts:154-156 | after its await a parse answers the verification of the time it began and stores it exactly when accepted |
| GrantCaching.GrantCache.ParseStoredGrant | backend/src/delegation-verify.ts:138-157 | a parse with nothing in between: an accepted answer is unexpired and is what verification of the same key and policy answered less than ten minutes ago, and not later than now while the clock goes forward; a refused one caches nothing |
| GrantCaching.GrantCache.Evict | backend/src/delegation-verify.ts:64-67 | an eviction removes the entry of its key and no other, so a parse that begins before another one stores an answer verifies anew |
| GrantCaching.NextKeeps | backend/src/delegation-verify.ts:64-157 | every beginning and end of a parse and every eviction keeps each entry what the parse that stored it had verified |
| GrantCaching.Reachable | backend/src/delegation-verify.ts:64-157 | the same after every interleaving of parses and evictions |
| GrantCaching.AnswersAreRecent | backend/src/delegation-verify.ts:138-157 | in every interleaving an accepted answer is unexpired and is what a verification of the same key that some parse began less than ten minutes before answered, not later than now while the clock goes forward |
| GrantCaching.StoredAnswerServes | backend/src/delegation-verify.ts:138-157 | an accepted verification serves every parse of its key and owner that begins within ten minutes of its beginning and before its expiry, and no later one |
| GrantCaching.ParseBegins | backend/src/delegation-verify.ts:138-154 | a parse begins a verification exactly when no live entry answers it |
| GrantCaching.ParseEndsOnce | backend/src/delegation-verify.ts:154-157 | a refused verification leaves the cache alone, and a parse ends only once |
| GrantCaching.EvictionLastsIff | backend/src/delegation-verify.ts:64-157 | the next parse of an evicted key verifies anew exactly unless a parse that began before the eviction ends after it with acceptance and what the last such parse stored is live |
| GrantCaching.EvictionIsSafeIff | backend/src/delegation-verify.ts:64-157 | over all continuations no parse is served from before the eviction exactly when no parse of the key that would be accepted is under way at the eviction |
| GrantCaching.LateParseOutlivesEviction | backend/src/delegation-verify.ts:64-157 | a concrete run in which a parse in flight stores its answer after the eviction and a later parse is accepted from the cache while a verification refuses |
| FirefliesBudget.NextKeeps | scripts/agent-sync/fireflies.ts:164-291 | starting, counting, persisting, calling, saving, finishing, killing and reclaiming keep the count on disk ahead of what was sent, unless a run is counted on a forgotten day |
| FirefliesBudget.Reachable | scripts/agent-sync/fireflies.ts:164-291 | the same after every sequence of runs killed at any step in which no forgotten day is counted on |
| FirefliesBudget.CapsSurviveKills | scripts/agent-sync/fireflies.ts:193-291 | at most 200 requests and 4 counted runs a day and 100 requests a run, whatever is killed, as long as no run is counted on a day the state file has forgotten |
| FirefliesBudget.ForwardForgetsNothing | scripts/agent-sync/fireflies.ts:154-155 | while the days of the starts do not decrease nothing is forgotten, so the caps hold |
| FirefliesBudget.StartIsSafeIff | scripts/agent-sync/fireflies.ts:154-159 | for an idle runner no continuation by runs of a day can exceed its caps exactly when the state file has that day or no run of it was counted |
| FirefliesBudget.FileAccountsForSent | scripts/agent-sync/fireflies.ts:277-291 | at any moment the file accounts for every request made on its day, and while days do not decrease no later day has any |
| FirefliesRuns.RunToTheEnd | scripts/agent-sync/fireflies.ts:151-393 | an undisturbed run sends as many of its requests as 100 a run and 200 a day leave, counts itself and each of them in the state file and gives the lock back |
| FirefliesRuns.CappedDay | scripts/agent-sync/fireflies.ts:277-281 | on a day with 4 runs or 200 requests nothing is counted or sent |
| FirefliesRuns.KilledRun | scripts/agent-sync/fireflies.ts:164-184 | a killed run keeps every other run out until its lock file is removed, and then leaves exactly what finishing would have left |
| FirefliesRuns.KilledBeforeTheCall | scripts/agent-sync/fireflies.ts:277-291 | killed between write and request, a run has counted one request more than it sent |
| FirefliesRuns.FailedWrites | scripts/agent-sync/fireflies.ts:193-209 | a request whose write fails is not sent and not in the file, but counted by the run and persisted with its next write |
| FirefliesRuns.OneRunAtATime | scripts/agent-sync/fireflies.ts:164-184 | without a live run only a start under a free lock and the removal of the lock file do anything, with one neither does; a run that was not counted can only be counted, leave or die, and a counted request is made before anything else |
| FirefliesBudget.ClockSetBack | scripts/agent-sync/fireflies.ts:154-159 | with the clock set back to an earlier day, a fifth run of that day is counted |
| FirefliesBudget.CountingFetch.Fetch | scripts/agent-sync/fireflies.ts:193-210 | past the budget the inner fetch is never called, and otherwise only after the attempt was persisted |
| FirefliesAudit.AddPending | scripts/agent-sync/fireflies.ts:421-429 | the list grows in order to at most the larger of 50 and its prior size, and overflow means exactly that a listed id is missing |
| FirefliesAudit.GapAudit | scripts/agent-sync/fireflies.ts:400-436 | an audit is complete, and its cursor moves, exactly when every listed id is in the stored pending list; when the record can be read and written every listed id is there unless the list has 50, and `requeued` counts exactly the ids that were added |
| FirefliesAudit.AuditStep | scripts/agent-sync/fireflies.ts:334-345 | the kept cursor is cleared exactly when the window's end was listed and every listed id is stored, and leaves its position only when every listed id is |
| FirefliesAudit.RemoveOwnDuplicates | scripts/agent-sync/fireflies.ts:387-397 | whatever arrives meanwhile, rows before and arrived are rows after and removed, so what is counted is what was deleted |
| FirefliesAudit.OnlyOwnRowsGo | scripts/agent-sync/fireflies.ts:387-397 | however other inserts interleave, only own rows are deleted and no source id loses its last row |
| FirefliesAudit.OneOwnRowUnlessForeign | scripts/agent-sync/fireflies.ts:387-397 | with other writers' inserts interleaving, of the own rows of a source id at most one is left: none if a foreign row was there before the pass, one if none is there afterwards |
| RateBuckets.Classify | backend/src/rate-limits.ts:264-275 | the loop over the table gives the bucket of the first matching row |
| RateBuckets.MountIff | backend/src/rate-limits.ts:230-232 | a mount contains its own path and exactly the paths that go on after it with a slash |
| RateBuckets.FirstIsLongest | backend/src/rate-limits.ts:214-232 | in any table with the most specific rows first, the first match is the longest matching mount |
| RateBuckets.TableIsMostSpecificFirst | backend/src/rate-limits.ts:215-228 | the code's table is such a table |
| RateBuckets.BucketOfLongestMount | backend/src/rate-limits.ts:264-275 | for every method and path the bucket is that of the longest matching mount, or, for private-cloud and autojoin requests other than GET and HEAD, its mutation bucket, and global exactly when none matches |
| RateBuckets.PaidChatIff | backend/src/rate-limits.ts:234-267 | a request counts as paid chat exactly when it is a POST to one of the two routes, with or without a slash at the end, after lower-casing its letters and dropping repeated slashes, both written out |
| RateBuckets.SpellingDoesNotMatter | backend/src/rate-limits.ts:236-275 | any chain of case changes and doubled or undoubled slashes keeps the bucket, except that only the exact health path is exempt |
| RateCounter.TemplateIsListed | backend/src/rate-limits.ts:310-315 | a template is found exactly when one contains the path, and it is the first one that does |
| RateCounter.LabelsAreFixed | backend/src/rate-limits.ts:283-316 | no request can make a label outside a fixed list |
| RateCounter.LabelSays | backend/src/rate-limits.ts:308-316 | the label names the method, or OTHER, and the template as it is for exactly its path, with a star below it, and "other" without one |
| RateCounter.Summarize | backend/src/rate-limits.ts:353-361 | the summary is the sum and the first n of the ranking |
| RateCounter.SummaryIsUnique | backend/src/rate-limits.ts:353-361 | there is one such summary, whatever the order of the map |
| RateCounter.SummaryRanks | backend/src/rate-limits.ts:353-361 | a summary lists, in order, as many entries of the map as were asked for or all there are, more requests first and then the smaller label, and leaves out none that ranks above a listed one |
| RateCounter.RouteCounter.Record | backend/src/rate-limits.ts:331-336 | a request adds one to its label in both counts and drops the cache |
| RateCounter.RouteCounter.Top | backend/src/rate-limits.ts:339-342 | the cached answer is always the one fresh summary |
| RateCounter.RouteCounter.TakeInterval | backend/src/rate-limits.ts:345-350 | drained plus live always equals the lifetime total |
| PaidChat.NextKeeps | backend/src/rate-limits.ts:487-549 | every step of any request and every end of a window keeps the windows exact and each request's charges as its stage says |
| PaidChat.PaidRequestsAreChargedOnce | backend/src/rate-limits.ts:537-549 | a request at a paid handler was charged to its own key exactly once, and to the aggregate once if it has a session |
| PaidChat.AggregateAdmits | backend/src/rate-limits.ts:487-549 | in every window of the aggregate, past or current, the requests let pass are as many as were charged to it, up to 600, and each has a session and passed its own key first |
| PaidChat.SessionAdmits | backend/src/rate-limits.ts:487-509 | in every window of a session its requests let pass are as many as were charged, up to 120 |
| PaidChat.HandledHavePassed | backend/src/rate-limits.ts:537-549 | a handled request is among those its own key let pass in some window, and with a session among those of the aggregate |
| PaidChat.ServedAlone | backend/src/rate-limits.ts:487-549 | a request served on its own ends after four steps where the hits of its own key and the aggregate say, at a cost of one hit to its own key and, once that passed and with a session, one to the aggregate |
| PaidChat.AnonymousAdmits | backend/src/rate-limits.ts:487-509 | in every window of the key without a session its requests let pass are as many as were charged, up to 600 |
| PaidChat.WindowsAdmitExactlyTheLimit | backend/src/rate-limits.ts:487-509 | in the current window the requests let pass are as many as the counter has hits, up to 120 for a session and 600 across sessions |
| PaidChat.DeniedAndAnonymousSpendNothing | backend/src/rate-limits.ts:392-408 | requests denied by their own key or without a session never spend the aggregate |
| PaidChat.AggregateIsSpentAfterOwnKey | backend/src/rate-limits.ts:502-547 | the aggregate rises only for a session request its own key let pass |
| EvalPlan.PlanCoversProduct | backend/scripts/meeting-eval.ts:511-529 | the nested loops' controller turns are exactly the combinations of models, scenarios, variants and repeats, each once if no model repeats |
| EvalPlan.BaselinesArePaired | backend/scripts/meeting-eval.ts:511-529 | in a plan exactly the general scenarios have baselines, each beside its controller turn, before it on even repeats and after it on odd ones |
| EvalPlan.CompleteIffInventoryCovers | backend/scripts/meeting-eval.ts:422-427 | a finished plan over all scenarios is a complete release matrix exactly with two repeats and an inventory covering the offered models once each |
| EvalRun.Evaluation.RunScenario | backend/scripts/meeting-eval.ts:243-251 | a turn's admitted requests stay within the maximum and none follows a 429 |
| EvalRun.Evaluation.PacedTurn | backend/scripts/meeting-eval.ts:495-510 | a turn is refused exactly when the budget is spent and otherwise starts after the idle minimum |
| EvalRun.Evaluation.Record | backend/scripts/meeting-eval.ts:477-489 | after recording, admitted requests equal the sum of recorded calls, and the matrix stops exactly on a rate limit or a denial |
| EvalRun.Evaluation.TakeCell | backend/scripts/meeting-eval.ts:511-529 | a general scenario's baseline runs before the controller on even repeats and after it on odd ones |
| EvalRun.Evaluation.RunMatrix | backend/scripts/meeting-eval.ts:435-532 | the recorded turns are always a prefix of the plan, all of it on completion; it stops early only with its budget spent or its last turn rate-limited, with that reason listed, and nothing follows; turn boundaries keep budget and pacing |
| EvalRun.CompletedIsReleaseMatrix | backend/scripts/meeting-eval.ts:422-532 | a completed matrix over all scenarios is a complete release matrix exactly with two repeats and a catalog listing each offered model once |
| EvalRun.ListedTwiceIsIncomplete | backend/scripts/meeting-eval.ts:422-474 | a catalog listing the offered model twice lets the whole plan run and the matrix is not complete |
| ModelSelection.ClassifyProvider | backend/src/modelSelection.ts:56-103 | a provider is healthy or unhealthy exactly when all its hours are well formed and its newest, fresh hour has one agreed uptime at least, or below, 0.99 |
| ModelSelection.ClassifyModelHealth | backend/src/modelSelection.ts:28-110 | healthy exactly when a usable response has a healthy provider, unhealthy exactly when all of at least one provider are |
| ModelSelection.OrderDoesNotMatter | backend/src/modelSelection.ts:56-110 | permuting providers, and buckets inside them, does not change the verdict |
| ModelSelection.VerdictIsUnique | backend/src/modelSelection.ts:106-109 | there is one verdict |
| ModelSelection.SelectChatModel | backend/src/modelSelection.ts:142-158 | the earliest healthy candidate, else the earliest unknown, and none exactly when all are unhealthy |

## Left out

- The selection of a response in `decision` and `matchingCompletion` (owner answers, completions, sitrep actions): a
  close and a forward get its result as a free answer of the environment, and so cover every selection.
- `registered`, `currentCard`, schema validation, SQL connection errors and every other failing await of the mirror are
  answers of the environment. Versions of the key-value store are fresh for every write, SQL statements are atomic, and
  hashing is injective.
- HomeMirrorResponses.SearchFindsFirst: the feed is ordered by sequence and only appended to, as the SDK promises; for
  any other pages `SavedResponse` says what the loop does.
- HomeMirrorClosing.ReceiptsAreTrue: an upsert that reports no change returns the record it was given, as
  `packages/core/src/feed/sitrep/upsert.ts:241-242` does; what a patch does to a record is otherwise arbitrary.
- HomeMirrorClosing.ClosesAlone: while a close or a forward runs alone its environment gives the same answers
  throughout, the time included.
- HomeMirrorRecovery.RerunAfterCrash: the re-run and the crashed run are undisturbed by other processes; with
  interference only the safety theorems hold.
- HomeMirrorWatch.QuietMeansDrained: pages come from one growing log with increasing sequences; forwarding itself is
  the separate model, so a pass offers responses, it does not deliver them.
- JSON text: frames are parsed by an arbitrary partial function, and metadata size is an arbitrary function. Text is
  UTF-8 bytes in the reader and UTF-16 units in the protocol; the two are not related by a proof.
- LedgerGate.LedgerVerdictIff: what a count that is not a number converts to is given with it; text conversion is not
  modelled.
- The cancel request's own response, the grace and deadline timers and `checkCapability`'s body are acts of the
  environment.
- `trimFpNoise` and `log10`: arithmetic is in exact reals, the decade is found by search, and a slack factor between 1
  and 1.2 stands for the epsilon added to the logarithm.
- Credits.CreditsCoverCost: the cover is up to the explicit epsilon slack, not exact, as in the code.
- `start` and `stop` of the flusher only set and clear the timer; interval flushes are acts of the environment. The
  record and report ids are fresh.
- Window starts (`billing/usage.ts`) are abstract keys of a counter map that holds one live window per address.
- Signature, CID, SIWE and proof checks of a grant: the model takes the code of the first one that fails. The envelope
  checks of `parseStoredGrant` and `makePkhSpaceId` are fixed functions of the cache key.
- GrantVerify.AcceptsIff: JSON object keys are distinct, as a parsed object guarantees.
- Errors of the node during activation, and the `beforeNodeWrite` hook.
- KvPaths.RouterStaysUnderResources: of the options that `list` passes on only prefix and path are modelled; how the
  node combines them is not part of the repository, so the listing is covered with the path joined and without.
- FirefliesBudget.CapsSurviveKills: an abandoned lock is reclaimed by the host only when its process is gone, and the
  state file is written by this program only.
- FirefliesAudit.GapAudit: the listing is what the client returned; that successive cursors cover the provider's window
  is the client's part.
- FirefliesAudit.OneOwnRowUnlessForeign: other writers delete nothing and insert no row under an id of the runner's.
- RateBuckets.SpellingDoesNotMatter: lower-casing is that of ASCII letters.
- RateCounter.Summarize: ties are ordered by code units where the code uses `localeCompare`.
- The limiters of the other buckets, header formats and the admin probe limiters; PaidChat models the paid chat pair.
- EvalRun.Evaluation.RunMatrix: pairing fields, model summaries, percentiles, semantic reviews and file writes are not
  modelled; run ids are tuples, so a colon inside an id cannot make two of them equal.
- ModelSelection.ClassifyProvider: date parsing is done before; the timeout of a health request is an absent response.
- `loadProfile`, `readKeyWithCli`, command lines, logs, Stripe, catalog fetching, manifests, the user interface and
  startup wiring.
