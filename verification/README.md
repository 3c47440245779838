# Verified model of Awayuki's stateful cores

Awayuki is a desktop client for several social networks. This project models, in Dafny 4.11, the
parts of it that decide what is emitted, retried, recovered, ordered and rendered, and proves what
they keep over every run, interleaving or input. `dafny verify dfyconfig.toml` checks everything.

| file | models |
|---|---|
| `Polling.dfy` | one Bluesky polling stream: revision window, reconciliation queue, checkpoints; the stateful class |
| `PollingInvariant.dfy` | what every step keeps, over runs with restarts and interrupted batches |
| `PollingRestart.dfy` | when a restart from a checkpoint can be seen in the real posts |
| `PollingWindow.dfy` | what pruning may forget, and how long a queued id waits |
| `PollingReplay.dfy` | what a restart does announce again; the notification poller |
| `PollingCases.dfy` | reachable states in which a restart can be seen |
| `PollingAnswers.dfy` | lookups answered under another id: what is lost, and what no answer can break |
| `AuthRecovery.dfy` | the single-flight recovery gate and its logout fence, all interleavings |
| `CredentialVault.dfy` | what one login, logout or token rotation writes; the stateful store |
| `CredentialFence.dfy` | all interleavings of them, and the login fence |
| `CredentialGap.dfy` | the gap in that fence: calls dropped in the middle |
| `ActiveAccount.dfy` | the active account and the owners of columns, all interleavings |
| `TtlCache.dfy` | the bounded cache with expiry, against the history of its calls |
| `Html.dfy`, `Facets.dfy` | escaping, linkification and rich-text facets, against erasure of the markup |
| `ThreadOrder.dfy` | the order of a conversation, for every reply graph |
| `Columns.dfy` | renumbering of the workspace columns |
| `Emitter.dfy` | the coalescing event emitter, all interleavings |
| `FrontendRecovery.dfy` | the checkpoint kept for a stalled window, all histories of calls |
| `RetryBudget.dfy` | the per-server retry registry, all sequences of reservations |
| `Hydration.dfy` | batched hydration of timeline views, against direct lookup |
| `Basics.dfy`, `Sorting.dfy`, `Text.dfy` | sequences, stable sort, white space |

Conventions. The order in which a hash container is iterated is a parameter (or a ghost result of
the method that iterates it) constrained only to list the container's keys; ties in an unstable sort
fall either way. Clock readings, fresh tokens, database answers, network answers and the moment a
receiver closes are parameters. Asynchronous code is a step relation whose steps are the atomic
sections between await points; dropping a future is a step. Counters are unbounded naturals.

Where code and expectation part:

- A page that lists one post twice with different revisions never becomes quiet: `RepeatedLook` gives
  the exact condition for any number of looks, `TwoRevisionsOfOnePost` such a page.
- A reconciliation answer under another id leaves the missed post tracked but never asked for again:
  `AnswerMustMatch` gives the exact condition, `WrongAnswerLosesPost` a reachable batch, and
  `NeverAskedAgain` says it is for good; `QueueSurvivesAnyAnswer` says what holds regardless.
- A checkpoint keeps no dates of last sighting, so once the window is full a restart may change which
  posts are evicted, and an evicted post is announced again. `RestartIsInvisible` gives the exact
  condition, `RestartEvictsDifferently` with `FullWindowIsReached` a reachable instance.
- A restart announces synthetic records and notifications again when they were tracked but absent
  from the latest page: `RestartReplaysIff` and `NotificationReplaysIff` give the exact condition,
  `RecordIsReplayed` and `NotificationIsReplayed` reachable instances.
- A payload that cannot be serialised or queued loses the commits that were skipped because of it:
  `DeliveredIff` gives the exact condition, `FailureLosesSkippedCommit` an instance.
- A login whose call is dropped between the database's commit and the advance of the generation can
  be overwritten by an older sink: `OnlyDroppedWritesAreOverwritten` says this is the only way,
  `DroppedLoginIsOverwritten` gives a run.
- A newline in a link target ends its opening tag early and turns the rest of the tag into text:
  `RenderingLosesNothingIff` gives the exact condition, `NewlineTargetShowsItsTag` an instance.
- The retry registry reads the clock before it takes its lock, so readings can reach the lock out of
  order and a later reading for another server can prune an entry that is still needed:
  `SpacingIff` gives the exact condition, `LateReadingBreaksSpacing` an instance.
- The compare-and-exchange of the recovery gate cannot fail (`SingleFlight`), so its error branch is
  never taken.
- A shared recovery result is not always the original error value: `SharingKeepsMeaning` says what
  survives.

## Model

| member | source | states |
|---|---|---|
| Polling.PollingRevisionState.FromCheckpoint | src/bluesky/streaming.rs:168-201 | restoring bounds, filters and deduplicates the saved rows and queue, and numbers the state as poll one |
| Polling.PollingRevisionState.Checkpoint | src/bluesky/streaming.rs:203-219 | the checkpoint holds each id seen in the latest poll or queued exactly once, in id order, with its fingerprint, and the queue as it is |
| Polling.PollingRevisionState.ObservePage | src/bluesky/streaming.rs:221-277 | the whole new state and the reported changes, for some iteration order and some legal choice of evicted ids |
| Polling.PollingRevisionState.ObserveReconciled | src/bluesky/streaming.rs:279-294 | a reconciled post is tracked as seen now and reported only if its fingerprint is new |
| Polling.PollingRevisionState.TakeReconciliationBatch | src/bluesky/streaming.rs:296-306 | the first four queued ids leave queue and set together |
| Polling.PollingRevisionState.MarkDeleted | src/bluesky/streaming.rs:312-316 | a deleted id leaves window, set and queue, everything else stays |
| Polling.PollingRevisionState.PruneRevisionWindow | src/bluesky/streaming.rs:324-338 | just enough ids are forgotten to fit 512, none seen later than a survivor |
| Polling.PollingRevisionState.ReconcileMissing | src/bluesky/streaming.rs:609-643 | messages sent, new state and unsettled ids of a batch, also when the receiver closes in the middle |
| PollingInvariant.ReachableInv | src/bluesky/streaming.rs:167-339 | in every reachable state outside a batch: queue duplicate-free and equal to the set, queued ids tracked, every tracked post seen in the latest poll or queued, at most 512 ids |
| PollingInvariant.StepInv | src/bluesky/streaming.rs:342-434 | polls, finished batches, restarts and batches cut short by a closed receiver each keep that invariant |
| PollingInvariant.RestoreInv | src/bluesky/streaming.rs:504-547 | restoring a checkpoint, also one saved after an interrupted batch and validated against the cache, re-establishes the invariant |
| PollingInvariant.SettleAllInv | src/bluesky/streaming.rs:615-642 | during a batch only the ids not settled yet may be neither seen nor queued |
| PollingInvariant.AnswerMustMatch | src/bluesky/streaming.rs:617-619 | a lookup of a missed post keeps the invariant if and only if it answers under the requested id |
| PollingAnswers.WrongAnswerLosesPost | src/bluesky/streaming.rs:615-624 | for any post that was seen, missed and looked up, an answer about another post leaves it tracked, not queued and outside the invariant |
| PollingAnswers.NeverAskedAgain | src/bluesky/streaming.rs:221-339 | such a post is never handed out for lookup again until a page shows it, whatever polls, batches and restarts follow |
| PollingAnswers.QueueSurvivesAnyAnswer | src/bluesky/streaming.rs:167-339 | whatever lookups answer, in every run the queue is duplicate-free, equals the set, holds only real ids, and no id is dated in the future |
| PollingRestart.RestartIsInvisible | src/bluesky/streaming.rs:168-338 | from any reachable state, restoring its own checkpoint yields, for any later pages and iteration orders, the same changed real posts in order and the same reconciliation sets, if both runs evict the same real posts; and they evict the same ones if and only if no page arriving at any time would be reported differently |
| PollingRestart.RestartIsInvisibleInWindow | src/bluesky/streaming.rs:168-277 | as long as the run that goes on evicts nothing, the restored one evicts nothing either and reports the same |
| PollingRestart.LookAlikeIff | src/bluesky/streaming.rs:252-270 | two states report the same real posts for every next page if and only if they track the same real posts with the same fingerprints |
| PollingRestart.RestartKeepsReconciling | src/bluesky/streaming.rs:168-338 | with reconciliation batches in between, runs that evict the same real posts and iterate them in the same order also ask for the same ids, send the same messages and keep the same queue |
| PollingRestart.RestartCanFollow | src/bluesky/streaming.rs:168-322 | while nothing is evicted, every continuation of a reachable state is matched by one of the restored state |
| PollingCases.RestartEvictsDifferently | src/bluesky/streaming.rs:174-186 | with a full window and one oldest post, the next new post evicts that one, but after a restart it may evict any other, which is then reported again unchanged |
| PollingCases.RestartForgetsAges | src/bluesky/streaming.rs:324-338 | the oldest post is the only legal victim before a restart, and any tracked post is one after it |
| PollingCases.FullWindowIsReached | src/bluesky/streaming.rs:221-277 | three polls reach such a state |
| PollingRestart.ChangedAgrees | src/bluesky/streaming.rs:252-270 | windows that agree on real posts report the same changed real posts for every page |
| PollingWindow.CurrentPageSurvives | src/bluesky/streaming.rs:252-272 | after a page of at most 512 distinct ids every page id is tracked with its last fingerprint, and no evicted id was seen later than a survivor |
| PollingWindow.SecondLook | src/bluesky/streaming.rs:252-270 | observing the same page again reports nothing if and only if the page never shows one post with two revisions |
| PollingWindow.RepeatedLook | src/bluesky/streaming.rs:252-270 | after any number of observations of one page, the next look is quiet if and only if the page never shows one post with two revisions |
| PollingWindow.IncoherentPageIsNeverQuiet | src/bluesky/streaming.rs:252-270 | every page of at most 512 ids with two revisions of one post is reported as changed at every repetition |
| PollingWindow.BoundedWait | src/bluesky/streaming.rs:296-322 | an id at queue position p is handed out by batch p/4 + 1, whatever pages, candidates, deletions and requeues intervene |
| PollingReplay.RestartReplaysIff | src/bluesky/streaming.rs:203-219 | the first page after a restart reports the same changes exactly when it shows no unchanged record that was tracked but neither seen last nor queued |
| PollingReplay.SameChangesIff | src/bluesky/streaming.rs:252-270 | a window that forgot records reports at least as much, and the same exactly when no forgotten record reappears unchanged |
| PollingReplay.NotificationReplaysIff | src/bluesky/streaming.rs:67-103 | the same exact condition for notifications |
| PollingCases.RecordIsReplayed | src/bluesky/streaming.rs:203-219 | every synthetic record that was seen and then missed once is announced again after a restart and not without it |
| PollingCases.NotificationIsReplayed | src/bluesky/streaming.rs:67-103 | the same for every notification |
| PollingReplay.ObserveNotificationsInv | src/bluesky/streaming.rs:105-147 | the notification window stays within 512 trimmed ids |
| PollingReplay.NotificationRevisionState.ObservePage | src/bluesky/streaming.rs:105-150 | the first page is a silent baseline, later pages announce exactly new or changed notifications |
| AuthRecovery.SharingKeepsMeaning | src/bluesky/client.rs:162-177 | a shared outcome preserves success, refusal and message, and equals the original except for provider errors |
| AuthRecovery.AuthRecoveryGate.Enter | src/bluesky/client.rs:206-218 | an outdated request gets the shared result, a current one may recover |
| AuthRecovery.AuthRecoveryGate.Leave | src/bluesky/client.rs:220-236 | a recovery publishes the next generation with its outcome |
| AuthRecovery.AuthRecoveryGate.InvalidateForLogout | src/bluesky/client.rs:239-248 | logout advances the generation and clears the shared outcome |
| AuthRecovery.LogoutFence | src/bluesky/client.rs:197-248 | in every interleaving, a request that had observed a generation when logout advanced it never runs its closure afterwards |
| AuthRecovery.LogoutFindsNothingRunning | src/bluesky/client.rs:239-248 | when logout completes no closure is running |
| AuthRecovery.LaterRecoveriesAreNew | src/bluesky/client.rs:203-220 | every closure that runs later observed the generation logout had set or a later one |
| AuthRecovery.SingleFlight | src/bluesky/client.rs:206-236 | one completed recovery per generation, a record that is absent or current whenever the lock is free, one closure at a time, and a compare-and-exchange that finds what it expects |
| AuthRecovery.CompletionPublishes | src/bluesky/client.rs:220-236 | a finishing recovery always advances the generation by one and returns its own result |
| AuthRecovery.WaiterSharesLatest | src/bluesky/client.rs:208-217 | an outdated request returns exactly the latest recorded outcome, or Unauthorized if the latest advance was a logout |
| CredentialVault.CredentialStore.BlueskySink | src/auth/credential_store.rs:96-106 | a sink shares its account's counter and remembers its value at creation |
| CredentialVault.CredentialStore.FallbackFor | src/db/queries/settings.rs:150-155 | the account that takes over is an active one if there is any, then the first by name |
| CredentialVault.CredentialStore.PersistLoginAccount | src/auth/credential_store.rs:108-120 | a saved login writes the row and advances only its account's generation; a failed one changes nothing |
| CredentialVault.CredentialStore.UpdateForAccountGeneration | src/auth/credential_store.rs:139-159 | a stale sink is refused and nothing changes; a fresh one updates its row, keeping a password it does not supply, unless the database fails or has no row |
| CredentialVault.CredentialStore.RemoveAccountAndReassign | src/auth/credential_store.rs:161-170 | a logout removes the row, activates the fallback account and hands it the columns, and advances only its own generation; without a row or when the database fails nothing happens |
| CredentialVault.FallbackIsUnique | src/db/queries/settings.rs:138-185 | the fallback is determined, and an active account other than the removed one stays active |
| CredentialFence.UninterruptedIsMethod | src/auth/credential_store.rs:108-170 | the steps of an operation that runs without interruption change the store exactly as its method does |
| CredentialFence.LoginFence | src/auth/credential_store.rs:96-184 | in every interleaving, once a login or logout advanced an account, sinks that read its counter before only ever end as stale and never change a row |
| CredentialFence.StaleIff | src/auth/credential_store.rs:139-159 | a sink is stale exactly when its own account has advanced since it was created |
| CredentialGap.OnlyDroppedWritesAreOverwritten | src/auth/credential_store.rs:108-170 | a sink that read its counter before a login or logout committed can itself commit afterwards only if that call was dropped between its commit and the advance |
| CredentialGap.DroppedLoginIsOverwritten | src/auth/credential_store.rs:114-118 | a run in which this happens |
| ActiveAccount.AccountsStayConsistent | src/db/queries/settings.rs:61-185 | in every interleaving of the store's operations exactly one account is active while there is any, and no column is bound to a removed account |
| CredentialFence.StepInv | src/auth/credential_store.rs:79-184 | lock exclusivity, generations counting the advances, and freshness between a rotation's check and its write |
| TtlCache.BoundedTtlCache.GetMany | src/bluesky/client.rs:60-71 | returns exactly the live entries asked for, none older than the TTL, and drops the expired ones |
| TtlCache.BoundedTtlCache.Insert | src/bluesky/client.rs:73-92 | keeps the entries equal to what the history says is live, evicting only a least recently accessed key from a full cache |
| TtlCache.BoundedTtlCache.Remove | src/bluesky/client.rs:94-96 | keeps the entries equal to what the history says is live |
| TtlCache.LiveIffSurvives | src/bluesky/client.rs:51-97 | an entry is live exactly when some insert of its key was not replaced, removed, evicted or expired since, and holds that insert's value |
| TtlCache.SizeBounded | src/bluesky/client.rs:73-92 | the cache never holds more than its capacity, over any history |
| TtlCache.LeavesOnlyWhen | src/bluesky/client.rs:60-96 | an entry leaves only by removal, expiry at a read, or as least recently accessed at a full insert of a new key |
| Html.HtmlEscapeLoop | src/bluesky/convert.rs:594-607 | the loop computes the escaping that unescaping inverts |
| Html.UnescapeEscaped | src/bluesky/convert.rs:594-607 | unescaping gives back every escaped text |
| Html.LinkifyLoop | src/bluesky/convert.rs:609-627 | the loop computes the linkification that erasing inverts |
| Html.EraseLinkified | src/bluesky/convert.rs:609-632 | erasing the tags of linkified text gives the text back, newlines included |
| Html.EraseAnchor | src/bluesky/convert.rs:534-570 | erasing an anchor leaves its body, preceded by whatever a newline in its target leaks |
| Facets.RenderingLosesNothingIff | src/bluesky/convert.rs:491-588 | for every text and facet list, reading the markup gives the text back if and only if no rendered link has a newline in its target |
| Facets.RenderingLosesNothing | src/bluesky/convert.rs:491-588 | newline-free link uris and account ids suffice, because hashtags are percent-encoded |
| Facets.PlainTextLosesNothing | src/bluesky/convert.rs:474-482 | text without facets always reads back as itself |
| Facets.NewlineTargetShowsItsTag | src/bluesky/convert.rs:539-547 | a link uri of one newline makes the markup read differently |
| Facets.ReadWalk | src/bluesky/convert.rs:509-585 | what a reader sees of the walk: the text with each leak inserted before its segment |
| Facets.AcceptedAreDisjoint | src/bluesky/convert.rs:512-522 | rendered facets are non-empty, character-aligned, disjoint and increasing |
| Facets.FallbacksAreNeverTaken | src/bluesky/convert.rs:524-583 | every slice taken between facets exists |
| Facets.DisjointFacetsAllRender | src/bluesky/convert.rs:504-522 | well-formed facets that do not overlap are all rendered, in any listing order |
| Facets.RenderText | src/bluesky/convert.rs:491-588 | the loop computes the rendering the properties are about |
| ThreadOrder.OrderThreadStatuses | src/application/desktop.rs:2706-2770 | the result lists the statuses in the order the properties are about, for the reply graph of the status map |
| ThreadOrder.ThreadWalk.Append | src/application/desktop.rs:2772-2791 | the recursive walk visits and lists exactly what its specification says, and terminates on cycles |
| ThreadOrder.OrderIsPermutation | src/application/desktop.rs:2733-2770 | the order lists every status of the map exactly once, for every reply graph |
| ThreadOrder.ParentsPrecedeReplies | src/application/desktop.rs:2733-2791 | a present root is first and every other status it reaches follows the status it replies to |
| ThreadOrder.ThreadPrecedesTheRest | src/application/desktop.rs:2733-2770 | every status the root reaches precedes every status it does not |
| ThreadOrder.RepliesInDisplayOrder | src/application/desktop.rs:2719-2731 | replies to one reached status appear by creation time, then id |
| ThreadOrder.OrderIsDetermined | src/application/desktop.rs:2706-2770 | status map and root alone determine the order, not hash iteration |
| Columns.NormalizedColumnRequest | src/application/desktop.rs:1665-1690 | the loop over the two maps computes the renumbering of the sorted columns |
| Columns.NormalizedIsCanonical | src/application/desktop.rs:1665-1690 | panes become 0..k-1 in pane order, positions 0..m-1 per pane in (position, name) order, other fields and the multiset of ids are kept |
| Columns.NormalizedTwice | src/application/desktop.rs:1665-1690 | normalising twice equals normalising once |
| Columns.FixedPointIffCanonical | src/application/desktop.rs:1665-1690 | exactly the canonical column lists are left unchanged |
| Emitter.OneEventPerFlag | src/application/desktop.rs:252-345 | in every interleaving, failures included, exactly one detached event is uncleared while the flag is set and none while it is clear |
| Emitter.DeliveredIff | src/application/desktop.rs:252-345 | a call, skipped or not, is followed by a delivery before any later quiet state if and only if one was about to happen or fewer events failed since than were under way or started since |
| Emitter.NoLostCommit | src/application/desktop.rs:319-345 | every call with no serialising or queueing failure after it is followed by a delivery before any later quiet state, whatever failed before |
| Emitter.FailureLosesSkippedCommit | src/application/desktop.rs:323-330 | a run in which a failing payload loses the commit of a skipped call |
| Emitter.QuietIsReached | src/application/desktop.rs:252-272 | from every reachable state internal steps alone reach a quiet state in which every call has been followed by a delivery or, before, by a failure |
| Emitter.SomethingCanMove | src/application/desktop.rs:252-345 | a full queue never deadlocks callers, senders and loop |
| FrontendRecovery.FrontendRecoveryState.SaveCheckpoint | src/application/frontend_recovery.rs:52-79 | the outcome and new state of a checkpoint, rejected writes included |
| FrontendRecovery.FrontendRecoveryState.RestoreCheckpoint | src/application/frontend_recovery.rs:81-98 | the outcome and new state of a restore |
| FrontendRecovery.FrontendRecoveryState.TryBeginRecovery | src/application/frontend_recovery.rs:115-126 | the outcome and new state of a recovery attempt |
| FrontendRecovery.FrontendRecoveryState.TryBeginRecreation | src/application/frontend_recovery.rs:129-141 | the outcome and new state of a recreation attempt |
| FrontendRecovery.PermissionsExclude | src/application/frontend_recovery.rs:52-141 | a recreation permission implies blocked and ownerless, unblocked implies owned, in every history |
| FrontendRecovery.RecoveryNeedsFreshCheckpoint | src/application/frontend_recovery.rs:115-126 | between two recoveries there is a restore and then an accepted unblocking checkpoint by the document it created |
| FrontendRecovery.RecreationsUseDistinctRecoveries | src/application/frontend_recovery.rs:129-141 | each recreation consumes its own earlier recovery, with no restore in between |
| FrontendRecovery.RestoreReturnsLastAccepted | src/application/frontend_recovery.rs:81-98 | a restore returns the last accepted checkpoint, null meaning none |
| FrontendRecovery.ReplacedDocumentIsPowerless | src/application/frontend_recovery.rs:62-67 | with fresh tokens a replaced or disowned document can change nothing |
| FrontendRecovery.WriteOutcomes | src/application/frontend_recovery.rs:52-79 | stale writes change no field, oversized writes keep the old draft and leave recovery blocked |
| FrontendRecovery.RecoveryLosesNoDraft | src/application/frontend_recovery.rs:68-77 | when recovery is granted the stored draft is the one the current document wrote last |
| RetryBudget.ServerBudgets.Reserve | src/api/retry.rs:74-97 | the registry is what the history of reservations makes it, each new one lawful, and the wait leads to the instant the history gives |
| RetryBudget.ServerBudgets.Idempotent | src/api/retry.rs:19-45 | a request is tried until it succeeds, fails for good or has failed three times, its last answer is returned, and before every retry it waits exactly as one reservation with the retry delay says |
| RetryBudget.DelayBounds | src/api/retry.rs:47-72 | a delay exists exactly for retryable errors, honours Retry-After up to a minute and adds at most 250 ms |
| RetryBudget.SpacingSurvivesPruning | src/api/retry.rs:74-97 | reservations for one server are 250 ms apart unless its entry was evicted, if no reading in between is later than the second's |
| RetryBudget.SpacingIsExact | src/api/retry.rs:89-95 | the second of two successive reservations is given exactly the later of the instant asked for and 250 ms after the first |
| RetryBudget.SpacingIff | src/api/retry.rs:74-97 | the spacing of two successive reservations holds exactly when the entry was not evicted and no reading in between had reached the end of the spacing, or the instant asked for is late enough |
| RetryBudget.RegisteredIff | src/api/retry.rs:79-87 | an entry is registered exactly as long as it is neither evicted for capacity nor outlived by a reading |
| RetryBudget.LateReadingBreaksSpacing | src/api/retry.rs:75-79 | readings that reach the lock out of order can put two reservations 10 ms apart |
| RetryBudget.RegistryBounded | src/api/retry.rs:79-87 | the registry never exceeds 256 servers |
| RetryBudget.WaitsAtLeastDelay | src/api/retry.rs:88-96 | every wait is at least the requested delay |
| Hydration.Load | src/application/timeline_hydration.rs:186-269 | the rounds fetch exactly the primary rows, their boosts and quotes, the quotes of the boosts, and all their authors |
| Hydration.BatchedEqualsDirect | src/application/timeline_hydration.rs:186-349 | each view built from the prefetched rows equals the view built by looking up every row |
| Hydration.TargetsKnown | src/application/timeline_hydration.rs:223-243 | the second round names the same quotes as the whole database would |
| Hydration.KeyCollector.PushUnique | src/application/timeline_hydration.rs:383-393 | each key is asked for once, and none that is already known |
| Hydration.RefsToViews | src/application/timeline_hydration.rs:100-132 | every reference becomes the direct view of its status with its source account and that account's viewer state, in order; the first uncached one fails the load |
| Hydration.ApplyViewerStates | src/application/timeline_hydration.rs:142-179 | one batched query gives every view the state its source account has on the status shown, and leaves the others as their rows say |

## Left out

- Network, SQL text, WebView and channel internals: their answers are parameters of the steps.
- JSON and SHA-256: a post carries its fingerprint as a field, a checkpoint value its encoded size.
- The polling loop's timing and the Resync event after an error.
- Status encoding failures in the polling loop: every changed post counts as reported.
- PollingRestart.RestartKeepsReconciling: assumes lookups answer under the requested id and that both runs iterate the real ids in the same order, because the queue's order follows the map's.
- PollingInvariant.ReachableInv: assumes lookups answer under the requested id, which AnswerMustMatch shows to be exact; QueueSurvivesAnyAnswer holds without it.
- Wrap-around of the 64-bit poll and generation counters.
- stable_hash: its value is a parameter of RetryDelay, because only its remainder is used and every remainder is covered.
- RetryBudget.ServerBudgets.Idempotent: does not model a caller that drops the future between attempts, or reservations by other callers during a sleep.
- AuthRecovery: the token rotation inside the closure is one opaque action; the step relation covers when it may run.
- CredentialFence: profile fields of account rows, and the counters as shared cells in the interleavings, where an account's number stands for its cell (the class keeps the cells).
- ActiveAccount.AccountsStayConsistent: account switching and saving columns, which write the same tables outside the store.
- Emitter.NoLostCommit: a delivery that the window system refuses counts as a delivery, as in the source, which only logs it.
- Hydration: latest source accounts and notification views, which copy fields of a looked-up row.
- Startup gate, session manager, diagnostics ring buffer, window persistence, plugin limits, ports and facades.
