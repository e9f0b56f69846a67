# A verified model of the agent hub's queue, billing, catalogue, limiter, ledgers and organizations

This project models, in Dafny, the parts of the hub whose correctness depends on more than one
function, and proves what they promise over every input, every run and every interleaving.

* **Queue, outbox, billing.** `QueueTable` is the job table as a value, with each queue operation as a
  function on it; `Queue.DurableQueue` is the class that updates its rows in place, tied to those
  functions. `QueueRuns` proves what every run keeps,
  `QueueLaws` what each operation does to the columns of a row and what a lease protects, `Overtaking`
  how long a job can wait. `Outbox` is the dispatcher that feeds the queue.
  `BillingState`, `Billing`, `BillingRuns`, `BillingTheorems` and `BillingProgress` are the subscription
  lifecycle, which schedules its own reconcile jobs through the queue and processes them with the worker;
  `BillingLaws` says which event, transition and deadline leads to which status; `BillingExamples` holds concrete runs. The clock is explicit: every operation takes the clock readings
  the code takes, in the order it takes them.
* **Versions and catalogue.** `Semver` holds `semver_key` and `sort_key` as functions and as the
  string-building loops; `SortKeyOrder` proves the order embedding and exactly how far it reaches;
  `SemverPrecedence` relates the key to section 11 of Semantic Versioning 2.0.0; `Latest` compares the
  SQL ranking with the in-memory loop; `CatalogQuery` and `CatalogPages` prove keyset pagination, and
  `CatalogLatest` that the pages hold the newest shown version of every agent.
* **Limiter.** `RateLimit`: the pruned per-key deque, over real time, with the truncating retry hint.
* **Ledgers.** `Downloads` and `DownloadRuns`: the download buffer with recordings landing at any await
  point of a flush. `SessionFiles`: the file cursor. `UsageState`, `CodexLedger`, `Collections`,
  `Ingestion` and `UsageStores`: cumulative counters turned into deltas, for any collections, files and
  re-scans. `RecordLedger`: records with their own id.
* **Organizations.** `Membership` and `Organizations` hold the operations; `Ownership` and `Seats` prove
  who may do what, and where every seat comes from, over whole runs.
* **Retention and statistics.** `Retention` prunes runs; `UsageStats` aggregates them.

`Common`, `Strings` and `Lex` hold shared types, string splitting and lexicographic order. Where the code
updates state in place there is a class whose methods are equated with functions on values; the
properties are lemmas about those functions, over runs given as sequences of steps.

Where a promise turns out not to hold as stated, the model keeps the code as it is, gives a concrete
input, and proves exactly when it holds:

* The `sort_key` docstring (registry/app/registry/semver.py:39-45) promises the order of `semver_key`
  without restriction. `SortKeyOrder.EmbedsIff` gives the exact alphabets and number range;
  `CoreWitness`, `PreWitness` and `NumberWitness` are versions outside it.
* Pages filtered in Python can end early (`CatalogPages.FilteredPagesCanStopEarly`);
  `CatalogPages.FilteredPaginationExactIff` says exactly when.
* Deleting a service account checks no ownership (`Ownership.ServiceAccountCanOrphan`);
  `Ownership.StepKeepsOwnedIff` is the exact condition.
* Organization usage recorded during a flush is lost (`DownloadRuns.OrgUsageCanFallShort`);
  `DownloadRuns.OrgUsageShortfall` says how much.
* A collection cut short by its deadline moves the cursor past lines it did not handle
  (`SessionFiles.CutLineIsLost`); `SessionFiles.IncrementalEqualsOneShot` is an equivalence with every
  collection having time for the lines new to it.
* A subscription can be forgotten when it is moved to past_due at the clock value at which the previous
  operation ended (`BillingExamples.SameTickForgets`); `BillingTheorems.TransitionLeavesWorkIff` is the
  exact condition of one transition. No other step needs the clock to move.
* The job of a past_due subscription can be due after its deadline (`BillingExamples.LateByOneOperation`).
  `BillingTheorems.ReconcileOnTimeIff` and `ExpiryOnTimeIff` are the exact conditions of one reconcile,
  and `OnTimeBeforeDeadline` shows that it is on time in every state before the deadline; after it, it is
  due already, by `NoTimedSubscriptionForgotten`.
* `complete` checks no status (`QueueRuns.CompletingDeadJobCanBreakInv`); `QueueRuns.CompleteKeepsInvIff`
  is the exact condition.
* A counter that falls and comes back to recorded values unbalances the ledger
  (`CodexLedger.FallingCounterUnbalances`); `CodexLedger.OneLineBalancesIff`, after any part of a scan,
  and `CollectionBalancesIff`, for whole scans, are the exact conditions.
* A new owner's seat need not come from a current owner: an invitation outlives its issuer's seat
  (`Ownership.InvitationOutlivesSeat`). `Ownership.NewSeatIsGranted` says that some owner granted it, and
  `Ownership.IssuerOwnsIff` when the issuer still is one.

## Model

| member | source | states |
|---|---|---|
| `Queue.DurableQueue.Enqueue` | registry/app/outbox/queue.py:34-56 | A job is inserted, queued, unless an active one holds its key; afterwards the key is held, and a refusal changes nothing. |
| `Queue.DurableQueue.Claim` | registry/app/outbox/queue.py:58-87 | The due, unleased, queued job of the type with the least id gets the lease, its attempt counted. |
| `Queue.DurableQueue.Complete` | registry/app/outbox/queue.py:89-94 | The row is succeeded and free of its lease, whatever it was before. |
| `Queue.DurableQueue.Fail` | registry/app/outbox/queue.py:96-119 | Dead once the attempts are used up, else queued again after the exponential backoff. |
| `Queue.DurableQueue.ReapStaleLeases` | registry/app/outbox/queue.py:121-129 | Just the running jobs with an expired lease are queued again; their number is returned. |
| `Queue.DurableQueue.ReapOldJobs` | registry/app/outbox/queue.py:131-137 | Just the finished jobs past retention are deleted; their number is returned. |
| `QueueTable.Candidate` | registry/app/outbox/queue.py:59-73 | Some claimable row with no claimable row of smaller id, or none exactly when nothing is claimable. |
| `QueueRuns.StepKeepsInv` | registry/app/outbox/queue.py:34-137 | Every step keeps: running iff leased, at most one non-dead job per type and key, dead only with attempts used up. |
| `QueueRuns.RunKeepsInv` | registry/app/outbox/queue.py:22-137 | So does every run. |
| `QueueRuns.CompleteKeepsInvIff` | registry/app/outbox/queue.py:89-94 | Completing any row at all keeps the invariant iff it does not revive a dead job whose key is taken again. |
| `QueueRuns.CompletingDeadJobCanBreakInv` | registry/app/outbox/queue.py:89-94 | A concrete run: a job died, its key was taken again, and completing it leaves two active jobs with one key. |
| `QueueRuns.DeadForever` | registry/app/outbox/queue.py:96-137 | Over any run a dead job never becomes active again. |
| `QueueRuns.AttemptsBound` | registry/app/outbox/queue.py:75-129 | Attempts equal the claims made; with r reaps, a queued job has fewer than max + r, any other at most that. |
| `QueueRuns.DeadAfterExactlyMaxClaims` | registry/app/outbox/queue.py:96-119 | Never reaped nor acknowledged, a job not being worked on is dead iff it was claimed exactly max_attempts times. |
| `QueueLaws.EnqueueInsertsIff` | registry/app/outbox/queue.py:34-56 | Column by column: a job is inserted iff no queued, running or succeeded row of its type holds its key, due at run_at or now, with all attempts left. |
| `QueueLaws.ClaimTakesFirstDue` | registry/app/outbox/queue.py:58-87 | A row is leased for lease_seconds, its attempt counted, iff it is queued, of the type, due and unleased and no row of smaller id is; every other row stays. |
| `QueueLaws.RetryDelay` | registry/app/outbox/queue.py:96-119 | After the k-th attempt the job waits the backoff base doubled k - 1 times, at most 60 seconds; after the last it is dead. |
| `QueueLaws.ReapRequeuesIff` | registry/app/outbox/queue.py:121-129 | A row is requeued, keeping attempts and time, iff it runs and leased_until is before now; every other row stays. |
| `QueueLaws.ReapOldDeletesIff` | registry/app/outbox/queue.py:131-137 | A row is deleted iff it succeeded or died and was last changed before now minus the retention. |
| `QueueLaws.LeaseProtects` | registry/app/outbox/queue.py:58-129 | Over any run, until the lease ends and unless its worker settles it, a claimed row is changed by nothing. |
| `QueueLaws.CrashedJobReturns` | registry/app/outbox/queue.py:121-129 | If the worker is gone, the first reap after claim time plus lease_seconds makes the job claimable again, its attempt spent. |
| `Overtaking.LeftStep` | registry/app/outbox/queue.py:75-129 | A step takes one claim from a row by claiming it, and gives it one only by reaping its lease. |
| `Overtaking.BoundedOvertaking` | registry/app/outbox/queue.py:58-129 | In any run, more claims than the lower-id jobs of the type have left, plus the reaps of their leases, must reach a waiting due job. |
| `Overtaking.ReapFreeOvertaking` | registry/app/outbox/queue.py:58-119 | Without lease reaping, more claims than the sum of max_attempts - attempts over those jobs do. |
| `Outbox.Dispatcher.AddEvent` | registry/app/outbox/repositories.py:11-15 | The event is appended, unpublished, under the next id; ids stay ascending. |
| `Outbox.Dispatcher.DispatchOnce` | registry/app/outbox/dispatcher.py:24-44 | The oldest 50 unpublished events are delivered in order and marked; their number is returned. |
| `Outbox.RoundsDrain` | registry/app/outbox/dispatcher.py:24-44 | k rounds leave max(0, n - 50k) of n unpublished events, so ceil(n / 50) rounds publish all, and fewer do not. |
| `Outbox.DeliveryEnqueues` | registry/app/outbox/dispatcher.py:27-40 | Column by column: a scan.requested event makes a scan.run job for its version with its payload, unless one is active; any other event enqueues nothing. |
| `Outbox.RequestedVersionScanned` | registry/app/outbox/dispatcher.py:33-41 | From the moment a scan.requested event is marked published until the commit, an active scan.run job exists for the version it names. |
| `Outbox.PublishedInIdOrder` | registry/app/outbox/repositories.py:17-27 | Ids ascend, as adding and dispatching keep it, and whatever a run of rounds published has a smaller id than anything it did not. |
| `Outbox.PublishedInRowOrder` | registry/app/outbox/repositories.py:17-27 | Rounds publish a prefix of the unpublished rows, and nothing else in an event changes. |
| `Outbox.DispatchKeepsQueueInv` | registry/app/outbox/dispatcher.py:33-40 | Delivery keeps the queue invariant, so a version never has two active scan jobs. |
| `Outbox.ScanJobsExist` | registry/app/outbox/dispatcher.py:33-41 | From the moment a scan request is marked published until the commit, its version has an active scan job. |
| `Billing.BillingService.ScheduleNextPending` | registry/app/billing/application.py:193-212 | A reconcile job is enqueued for the deadline that the row, with the `updated_at` it has at that moment, gives. |
| `Billing.BillingService.EnqueueReconcile` | registry/app/billing/application.py:174-190 | A reconcile job for the organization and the time, unless one with that key is active. |
| `Billing.BillingService.EnsureSubscription` | registry/app/billing/application.py:113-136 | The organization has a row afterwards: its old one, or a new trial with its first job scheduled. |
| `Billing.BillingService.TransitionStatus` | registry/app/billing/application.py:215-265 | A listed transition sets the status, its dates and its job; an unlisted one reports its error and changes nothing. |
| `Billing.BillingService.ProcessWebhook` | registry/app/billing/application.py:292-349 | Processed iff the event was new, known and its transition allowed; otherwise everything stays as it was. |
| `Billing.BillingService.ChangePlan` | registry/app/billing/application.py:352-377 | A catalogue plan is set with its snapshot; an unknown or unusable one is refused. |
| `Billing.BillingService.ReconcileSubscription` | registry/app/billing/application.py:380-411 | Applies the transition whose time has come and schedules the next look. |
| `Billing.BillingService.Handle` | registry/app/workers/billing.py:20-32 | Reconciles the listed organizations in order, stopping at an exception. |
| `Billing.BillingService.RunOnce` | registry/app/outbox/worker.py:31-50 | Claim, handle and settle in one step: a failing handler fails the job, a finished one completes it. |
| `BillingRuns.EnqueueReconcileCoversIff` | registry/app/billing/application.py:174-190 | Scheduling a time leaves a queued job for it iff its key is not held by a job already running or succeeded. |
| `BillingRuns.EnqueueReconcileCovers` | registry/app/billing/application.py:174-190 | A time later than every claimed job's cannot collide with a succeeded one. |
| `BillingRuns.TransitionCovers` | registry/app/billing/application.py:215-265 | A transition leaves its organization with a job for its deadline, in spite of the stale `updated_at`, and the others covered. |
| `BillingRuns.ReconcileNeverRefused` | registry/app/billing/application.py:380-411 | Reconcile never requests a transition outside ALLOWED_TRANSITIONS. |
| `BillingRuns.ReconcileCovers` | registry/app/billing/application.py:380-411 | Whatever job led to it, a reconcile leaves its organization covered again. |
| `BillingRuns.ClaimLeavesDeadlines` | registry/app/outbox/queue.py:58-87 | Claiming takes away only jobs whose time has come; every later deadline keeps its job. |
| `BillingRuns.WorkIsOneReconcile` | registry/app/workers/billing.py:20-32 | The worker's job names one organization and its handler succeeds, so run_once is claim, one reconcile, complete. |
| `BillingRuns.StepKeepsInv` | registry/app/billing/application.py:113-411 | Every billing operation, worker round and foreign queue step keeps the billing invariant. |
| `BillingRuns.RunKeepsInv` | registry/app/billing/application.py:113-411 | So does every run; only a forced change to past_due must begin strictly after the previous step ended. |
| `BillingTheorems.NoTimedSubscriptionForgotten` | registry/app/billing/application.py:174-265 | In every reachable state a trial, grace or past_due organization has a queued reconcile job due by its deadline, or, for past_due only, due already. |
| `BillingTheorems.OnTimeBeforeDeadline` | registry/app/billing/application.py:174-265 | In every reachable state before its deadline, a timed subscription has a job due by the deadline, past_due included. |
| `BillingTheorems.ReconcileOnTimeIff` | registry/app/billing/application.py:380-411 | A reconcile that leaves a row past_due leaves a job due by its deadline iff there was one or the clock, read for scheduling, had not passed the deadline. |
| `BillingTheorems.ExpiryOnTimeIff` | registry/app/billing/application.py:380-411 | A reconcile that ends a trial or grace period does so iff there was one, its first job's key was not spent, or the clock had not passed the new deadline. |
| `BillingTheorems.OverdueSubscriptionHasWork` | registry/app/workers/billing.py:10-32 | Once a deadline has passed, the worker's claim finds a job. |
| `BillingTheorems.TransitionLeavesWorkIff` | registry/app/billing/application.py:215-265 | At any clock, a transition into a timed status leaves a job due in time iff there was one or the new job's key was not spent. |
| `BillingProgress.RoundAdvances` | registry/app/outbox/worker.py:31-50 | A worker round that does not claim a waiting due job uses up one of the reconcile jobs queued before it and leaves it waiting. |
| `BillingProgress.OthersDoNotOvertake` | registry/app/billing/application.py:113-411 | Every other step leaves the waiting job and puts no reconcile job before it. |
| `BillingProgress.OverdueIsReconciled` | registry/app/workers/billing.py:10-32 | Once its deadline has passed, an organization has a job which a worker round claims, reconciling this organization, at the latest after as many rounds as reconcile jobs were queued before it. |
| `BillingTheorems.LifecycleCoherent` | registry/app/billing/application.py:113-144 | Reachable rows: the snapshot has the row's plan and status, canceled_at iff canceled, grace has a grace deadline and active none. |
| `BillingTheorems.ReconcileJobsNeverFail` | registry/app/outbox/worker.py:31-50 | Reconcile jobs are queued or succeeded, never retried or dead, and succeeded only when due. |
| `BillingExamples.SameTickForgets` | registry/app/billing/application.py:174-212 | A concrete run: with two operations at one clock value, a past_due organization has no job by its deadline. |
| `BillingExamples.LateByOneOperation` | registry/app/billing/application.py:193-212 | A concrete run: a past_due deadline passes between the two readings of a reconcile, and no job is due by it, only one due now. |
| `BillingTheorems.ReconcileAlone` | registry/app/billing/application.py:380-411 | Reconcile steps alone: at most two changes, down to suspended, and that no earlier than the deadline plus the past-due period. |
| `BillingTheorems.ProcessedAtMostOnce` | registry/app/billing/application.py:292-349 | In any delivery sequence an event is processed at most once, and is on record iff it was. |
| `BillingTheorems.ReplayIsNoOp` | registry/app/billing/application.py:300-312 | Replaying a processed event changes nothing. |
| `BillingLaws.WebhookSetsStatus` | registry/app/billing/application.py:46-65 | By the literal event names: which new events are processed on which status, and the status each leaves; all others leave no trace. |
| `BillingLaws.TransitionAcceptedIff` | registry/app/billing/application.py:58-65 | A transition is accepted iff it is to active or canceled, to grace after trial or active, to past_due after trial or grace, to suspended after past_due, or to the same status. |
| `BillingLaws.PaymentRevives` | registry/app/billing/application.py:292-349 | From every reachable state a new payment or reactivation event leaves the subscription active, without grace deadline or cancellation date, on its plan. |
| `BillingLaws.FirstUse` | registry/app/billing/application.py:113-136 | A missing row becomes a trial of the free plan ending one trial period after the clock reading; other rows stay. |
| `BillingLaws.TransitionSetsDates` | registry/app/billing/application.py:236-248 | Grace ends a grace period after the reading, cancellation is dated at it, activation clears both; plan and trial end stay. |
| `BillingLaws.PlanChanges` | registry/app/billing/application.py:352-377 | A plan is accepted iff it is in the catalogue and launchable; then plan and snapshot change, and no status, date or job. |
| `BillingLaws.ReconcileMovesIff` | registry/app/billing/application.py:380-411 | A row moves iff its deadline has come: trial and grace to past_due, past_due to suspended; otherwise it stays as it is. |
| `BillingLaws.ScheduledForDeadline` | registry/app/billing/application.py:193-212 | The scheduled time is the status's deadline: for trial and grace while it lies ahead, for past_due not before now. |
| `BillingLaws.ReconcileJob` | registry/app/billing/application.py:174-190 | The enqueued job is a billing.reconcile job for that organization and time, with five attempts. |
| `BillingLaws.SweepReconcilesAll` | registry/app/workers/billing.py:20-32 | A job that names no organization reconciles every subscription exactly once, moving just those whose deadline has come, and makes none. |
| `BillingLaws.NamedVisit` | registry/app/workers/billing.py:20-32 | A job that names an organization reconciles that one alone. |
| `BillingLaws.DefaultWaits` | registry/app/outbox/queue.py:29-32 | With the default settings: a lease of 60 seconds, five attempts, and waits of 1, 2, 4 and 8 seconds between them. |
| `Semver.PartsOf` | registry/app/registry/semver.py:11-29 | The loops of `_parts` and `_pre_parts` yield the classified pieces between the dots. |
| `Semver.PreSortKeyOf` | registry/app/registry/semver.py:59-66 | The loop of `_pre_sort_key` yields the dotted text of the encoded identifiers. |
| `Semver.SortKeyOf` | registry/app/registry/semver.py:39-56 | The loop of `sort_key` yields the string the order proofs are about. |
| `Semver.PartIsNumberIff` | registry/app/registry/semver.py:11-29 | A part is a number iff it is made of the characters 0 to 9 alone, and then the number they write; any other part stays its text. |
| `SortKeyOrder.PaddedOrder` | registry/app/registry/semver.py:46-50 | Below 10^12 padded numbers have one width and compare as the numbers do. |
| `SortKeyOrder.CoreOrder` | registry/app/registry/semver.py:46-53 | Core texts compare as the part lists, although nothing separates the parts. |
| `SortKeyOrder.PreOrder` | registry/app/registry/semver.py:59-66 | Prerelease texts compare as the identifier lists. |
| `SortKeyOrder.SortKeyEmbeds` | registry/app/registry/semver.py:32-66 | Code-point order of two sort keys equals tuple order of the two semver keys: less, equal and greater. |
| `SortKeyOrder.PlainIsRegular` | registry/app/registry/semver.py:39-45 | Digit cores, alphanumeric identifiers and numbers below 10^12 are in the domain of the embedding. |
| `SortKeyOrder.CoreWitness` | registry/app/registry/semver.py:46-53 | Any admitted core character that is no digit, with any at or below 's', gives two versions that order differently. |
| `SortKeyOrder.PreWitness` | registry/app/registry/semver.py:59-66 | Any admitted prerelease character at or below '.' gives two versions that order differently. |
| `SortKeyOrder.NumberWitness` | registry/app/registry/semver.py:46-50 | Admitting 10^12 gives two versions that order differently. |
| `SortKeyOrder.EmbedsIff` | registry/app/registry/semver.py:39-56 | For any alphabets and number range: the embedding holds iff core characters all lie above 's' or are all digits, prerelease ones lie above '.', and numbers stay below 10^12. |
| `SemverPrecedence.KeyOrderIsPrecedence` | registry/app/registry/semver.py:11-36 | On well-formed versions without build metadata `semver_key` order is the precedence of section 11 of SemVer 2.0.0. |
| `SemverPrecedence.SortKeyOrderIsPrecedence` | registry/app/registry/semver.py:32-66 | So is the order of the stored column, on versions in its domain. |
| `Latest.LatestVersions` | registry/app/registry/repositories.py:145-152 | For every agent, the first row that no other row of the agent is newer than. |
| `Latest.LoopKeepsNewest` | registry/app/registry/repositories.py:145-152 | No row of the agent has a higher version than the kept one, nor the same version and a later publication. |
| `Latest.RanksFirstIffNewest` | registry/app/registry/repositories.py:154-169 | A row is numbered 1 iff it is not yanked, rejected or revoked and no other such row of its agent is newer by semver key, publication and id. |
| `Latest.SqlLatestRefinesLoop` | registry/app/registry/repositories.py:154-169 | The row ranked first in SQL and the loop's row have the same semver key and publication time. |
| `CatalogQuery.QueryIsExact` | registry/app/registry/catalog.py:119-130 | The statement yields just the selected rows that rank first for their agent, strictly in page order. |
| `CatalogQuery.ResumeIsSuffix` | registry/app/registry/catalog.py:104-116 | Resuming at the cursor of a row yields exactly the rows after it. |
| `CatalogPages.LoadCatalogPage` | registry/app/registry/catalog.py:139-226 | A garbled cursor is refused; any other gives the page cut from the query's over-fetched window. |
| `CatalogPages.FillPage` | registry/app/registry/catalog.py:187-226 | The filtering loop fills the page, and its cursor is set iff the window was full or has rows left. |
| `CatalogPages.PageShape` | registry/app/registry/catalog.py:187-226 | A page with a successor resumes right after its last item; one without leaves a match unseen only after a full window without any match. |
| `CatalogPages.FollowCollects` | registry/app/registry/catalog.py:139-226 | Following the cursors ends and collects a prefix of the matching rows; all of them iff no match lies beyond a window of the previous. |
| `CatalogPages.UnfilteredPaginationExact` | registry/app/registry/catalog.py:139-226 | Without Python-side conditions the pages are exactly the public rows ranked first, each once, in order. |
| `CatalogPages.FilteredPaginationExactIff` | registry/app/registry/catalog.py:84-101 | With them the pages are sound, descending and free of duplicates, and complete iff no match lies more than limit * 20 rows behind the previous one. |
| `CatalogPages.FilteredPagesCanStopEarly` | registry/app/registry/catalog.py:187-226 | Concrete rows: the match behind twenty others is never served at limit 1. |
| `CatalogLatest.CatalogServesNewest` | registry/app/registry/catalog.py:119-226 | The unfiltered pages hold exactly, for every agent, the newest version that is not yanked, rejected or revoked, if public and selected: each once, highest version first. |
| `CatalogLatest.FilteredServesNewest` | registry/app/registry/catalog.py:84-101 | Filtered pages hold only such versions that pass the permission, runtime and publisher conditions, stated column by column, highest first. |
| `CatalogLatest.MatchesIffPasses` | registry/app/registry/catalog.py:84-101 | The Python-side filter is those conditions. |
| `CatalogLatest.OnePerAgent` | registry/app/registry/catalog.py:119-130 | An agent has at most one newest version. |
| `CatalogLatest.PageSize` | registry/app/registry/catalog.py:154-216 | A page holds at most the requested number, at least 1 and at most 100; fewer only if it holds every match among the next twenty times as many rows. |
| `RateLimit.MemoryRateLimitBackend.PruneKey` | registry/app/ratelimit.py:80-84 | The leading events at or before the cutoff go; no other key changes. |
| `RateLimit.MemoryRateLimitBackend.EventsInWindow` | registry/app/ratelimit.py:86-88 | Counts what is left after pruning. |
| `RateLimit.MemoryRateLimitBackend.Record` | registry/app/ratelimit.py:90-91 | Appends the reading to the key's events. |
| `RateLimit.MemoryRateLimitBackend.RetryAfter` | registry/app/ratelimit.py:93-99 | The truncated wait plus one, at least one second, or zero without events. |
| `RateLimit.SlidingWindowRateLimiter.CheckKey` | registry/app/ratelimit.py:143-149 | Admits and records below the limit, else refuses with the hint. |
| `RateLimit.AdmittedIff` | registry/app/ratelimit.py:143-149 | After any calls, one more is admitted iff fewer than `limit` were admitted in the window ending at it; a refusal asks for at least a second. |
| `RateLimit.SlidingWindowBound` | registry/app/ratelimit.py:80-91 | For any non-decreasing clock, every half-open interval of window length, open on either side, holds at most `limit` admitted calls. |
| `RateLimit.RetryHintSuffices` | registry/app/ratelimit.py:93-99 | After a refusal with hint r and nothing admitted since, a call at least r seconds later is admitted. |
| `RateLimit.RetryHintTightIff` | registry/app/ratelimit.py:93-99 | With nothing admitted since, a call more than a second before the hinted time is refused iff none of the counted events expired before the hint was taken. |
| `Downloads.Tables.Commit` | registry/app/registry/downloads.py:46-66 | Adds the snapshot to the existing version rows and to the organization rows, creating those. |
| `Downloads.Tables.UpsertOrgUsage` | registry/app/registry/downloads.py:107-135 | Adds the amount to the organization's row of the period, or inserts it. |
| `Downloads.DownloadCountBuffer.Record` | registry/app/registry/downloads.py:31-38 | One more download of the version, and its bytes for the organization and period if there is one. |
| `Downloads.DownloadCountBuffer.PendingOrgBytes` | registry/app/registry/downloads.py:43-44 | The bytes buffered for the organization and period. |
| `Downloads.DownloadCountBuffer.Finish` | registry/app/registry/downloads.py:62-66 | Subtracts the flushed counts and drops the flushed organization keys whole. |
| `Downloads.DownloadCountBuffer.RemoveAfterSuccess` | registry/app/registry/downloads.py:68-76 | What was flushed goes, what came since stays, empty entries are deleted. |
| `DownloadRuns.RunKeepsCounts` | registry/app/registry/downloads.py:31-76 | At every await point committed + buffered - in flight = initial + recorded, for every version. |
| `DownloadRuns.DownloadCountsConserved` | registry/app/registry/downloads.py:46-76 | Outside the commit-to-removal gap committed + buffered = initial + recorded, however flushes interleave with recordings and end. |
| `DownloadRuns.OrgUsageShortfall` | registry/app/registry/downloads.py:46-66 | The organization's shortfall, in bytes and in downloads, is exactly what was recorded for a flushed key between snapshot and pop. |
| `DownloadRuns.OrgUsageCanFallShort` | registry/app/registry/downloads.py:62-66 | A concrete flush: two downloads recorded, one on the books. |
| `SessionFiles.ReadCatchesUp` | runtime/src/usage/codex.ts:186-239 | One collection takes a reader that had caught up with one moment of the file to the moment of its read. |
| `SessionFiles.CollectAllCatchesUp` | runtime/src/usage/claude.ts:109-168 | After any visits the reader has caught up with a moment of the last one. |
| `SessionFiles.NothingDroppedIff` | runtime/src/usage/codex.ts:199-204 | No line is dropped iff every visit has nothing to read or time for every complete line new to it. |
| `SessionFiles.IncrementalEqualsOneShot` | runtime/src/usage/codex.ts:172-239 | Over any interleaving with appends the lines handled are exactly the complete lines of the file iff every visit had time for those new to it, and the cursor is 0 or just past a newline. |
| `SessionFiles.CutLineIsLost` | runtime/src/usage/codex.ts:199-239 | A concrete file: a line cut off by the deadline is not handled by the next collection either. |
| `SessionFiles.WhereAScanStarts` | runtime/src/usage/codex.ts:186-195 | For any file: what the cursor covers is skipped if still there; a truncated file is read from the start, a replaced one never from the middle of a line. |
| `SessionFiles.WhenAScanSkips` | runtime/src/usage/codex.ts:173-184 | A file is skipped iff size and modification time are unchanged; otherwise the cursor takes both and the offset just past the last newline. |
| `UsageStores.UsageStore.RecordExternal` | runtime/src/usage.ts:329-354 | Inserts a row with a new (source, key) and ignores any other; says which. |
| `UsageStores.UsageStore.RecordAll` | runtime/src/usage/collect.ts:60-65 | Records the observations one after the other. |
| `UsageStores.CodexAdapter.TotalsToObservation` | runtime/src/usage/codex.ts:243-265 | The difference to the stored total if a component grew, which then becomes the stored total; else nothing. |
| `UsageStores.CodexAdapter.ParseSessionFile` | runtime/src/usage/codex.ts:160-241 | The new complete lines before the deadline yield the pending observations and stored totals; the cursor moves past all of them. |
| `UsageStores.CodexAdapter.CollectCodex` | runtime/src/usage/codex.ts:121-133 | All files are parsed against the cursors as they are by then, and everything is recorded afterwards: the ledger and the cursors it leaves. |
| `CodexLedger.LedgerTelescopes` | runtime/src/usage/codex.ts:243-265 | However the totals of one counter are split into collections, re-read or re-ordered, the recorded deltas add up to the greatest of them, which is the stored one. |
| `CodexLedger.DeltasSumToLastTotal` | runtime/src/usage.ts:453-468 | For totals that never decrease they add up to the last. |
| `CodexLedger.RescanAddsNothing` | runtime/src/usage/codex.ts:190-237 | Going through old lines again leaves rows and stored totals as they are: totals processed before, records on file under their id, and any lines with neither. |
| `CodexLedger.CollectSnoc` | runtime/src/usage/codex.ts:199-237 | A collection of one line more is the shorter collection followed by that line alone. |
| `CodexLedger.OneLineBalancesIff` | runtime/src/usage/codex.ts:216-265 | For counters that go up and down: after any part of any collection, one line more keeps the rows of a model adding up to its stored total iff it does not advance to values already on record. |
| `CodexLedger.CollectionBalancesIff` | runtime/src/usage/codex.ts:199-265 | A balanced ledger stays balanced throughout a collection iff no total in it returns. |
| `CodexLedger.FallingCounterUnbalances` | runtime/src/usage/codex.ts:243-265 | One concrete scan, totals 10 and 0, 5 and 1, 10 and 0: the rows add up to 5 and 1. |
| `RecordLedger.EachRecordOnce` | runtime/src/usage/codex.ts:267-284 | However lines are split, mixed or scanned again: each record id of a source has exactly one row, with the tokens in, tokens out and model of the first record of that id. |
| `RecordLedger.RecordsAddUp` | runtime/src/usage/codex.ts:267-284 | So per source and model the id-keyed rows add up to the tokens in and out of the distinct records. |
| `RecordLedger.StampedRecord` | runtime/src/usage/codex.ts:267-284 | A record without id is recorded with its numbers under its timestamp and line number, unless that key exists. |
| `RecordLedger.NothingToRecord` | runtime/src/usage/codex.ts:205-236 | Blank and malformed lines, and those with neither total nor countable record, change nothing. |
| `RecordLedger.DeltasNameTheirModel` | runtime/src/usage/codex.ts:255-264 | The row of a cumulative total is booked on the total's model. |
| `Collections.FilesOneByOne` | runtime/src/usage/collect.ts:58-65 | Parsing all files before recording anything equals collecting one file after the other. |
| `Collections.CollectionExtendsRun` | runtime/src/usage/codex.ts:103-133 | A collection over several files extends the run of the ledger by those files. |
| `Collections.RunIsFlat` | runtime/src/usage/codex.ts:103-133 | A run of collections leaves the cursors and the ledger of one pass over all their files. |
| `Ingestion.ScansFollowVisits` | runtime/src/usage/codex.ts:173-239 | Whatever other files are scanned in between, the stored cursor of a file is the reader's and the ledger is fed just what the reader goes through. |
| `Ingestion.IngestionTelescopes` | runtime/src/usage/codex.ts:160-265 | From an empty store, however appends and collections over any files interleave, and with time for every new line, the usage recorded for a model of a file is the last total the file showed at a moment of the latest visit. |
| `Ingestion.RescansAddNothing` | runtime/src/usage/codex.ts:190-237 | Handing over lines of files again, whole or in part, any number of times, adds no row and moves no stored total, unless a record has neither total nor id. |
| `Ingestion.ScanFromStartAddsNothing` | runtime/src/usage/codex.ts:190-239 | After any run that handled a file up to a moment, scanning it from offset 0 again, because its cursor is gone or no longer fits, leaves the ledger as it is. |
| `Organizations.OrganizationService.CreateOrganization` | registry/app/organizations/application.py:77-104 | A new slug gets an active organization owned by its creator; a malformed or taken one is refused. |
| `Organizations.OrganizationService.AddMember` | registry/app/organizations/application.py:175-207 | The target gets the role if the actor may grant it, in the source's order of refusals. |
| `Organizations.OrganizationService.ChangeMemberRole` | registry/app/organizations/application.py:210-245 | A transfer makes the target owner and the actor administrator; owners cannot be re-roled otherwise. |
| `Organizations.OrganizationService.RemoveMember` | registry/app/organizations/application.py:248-279 | A non-owner goes, by an owner, an administrator or themselves. |
| `Organizations.OrganizationService.RemoveUserMemberships` | registry/app/organizations/application.py:282-312 | All seats or none: refused, with nothing changed, iff the user is the only owner of some organization. |
| `Organizations.OrganizationService.LeaveOrganization` | registry/app/organizations/application.py:315-336 | The member goes unless they are the only owner. |
| `Organizations.OrganizationService.InviteMember` | registry/app/organizations/application.py:348-404 | An invitation naming its issuer and role, if the issuer may grant it. |
| `Organizations.OrganizationService.AcceptInvitation` | registry/app/organizations/application.py:407-439 | A live, unused token of an active organization seats its bearer and is used up. |
| `Organizations.OrganizationService.CreateServiceAccount` | registry/app/organizations/application.py:575-618 | A member with a non-owner role under a new name, recorded as a service account. |
| `Organizations.OrganizationService.DeleteServiceAccount` | registry/app/organizations/application.py:646-681 | The account and its seat go, whatever the role of the seat. |
| `Organizations.OwnersAndSole` | registry/app/organizations/application.py:292-297 | Counting at most one owner means the user is the only one. |
| `Ownership.StepKeepsOwnedIff` | registry/app/organizations/application.py:175-439 | A step leaves every organization with an owner iff it does not delete a service account that is its only owner. |
| `Ownership.AlwaysOwned` | registry/app/organizations/application.py:77-439 | Over all other runs every organization always has an owner. |
| `Ownership.ServiceAccountCanOrphan` | registry/app/organizations/application.py:646-681 | A concrete run of four steps that leaves an organization without owner. |
| `Ownership.LostOnlyBy` | registry/app/organizations/application.py:210-329 | An owner's seat goes only by their own transfer, leaving or account deletion, or as a deleted service account. |
| `Ownership.GainedOnlyBy` | registry/app/organizations/application.py:77-439 | A step gives an owner's seat only by founding, by a current owner's direct act, or by accepting an invitation for one. |
| `Ownership.NewSeatIsGranted` | registry/app/organizations/application.py:175-439 | In any run every new owner's seat, first or regained, arises at that step by founding, by a current owner's act, or by an invitation a then owner issued. |
| `Ownership.OwnerSeatOrigin` | registry/app/organizations/application.py:175-439 | Every owner's seat in a reachable state goes back to such a step and has been held without a break since. |
| `Ownership.InvitationOrigin` | registry/app/organizations/application.py:348-404 | Every invitation to an owner's seat was issued by someone owning the organization at that moment. |
| `Ownership.IssuerOwnsIff` | registry/app/organizations/application.py:348-439 | At any later moment the issuer of such an invitation owns the organization iff they have not lost the seat for good since. |
| `Ownership.InvitationOutlivesSeat` | registry/app/organizations/application.py:407-439 | A concrete run: a user becomes owner by the invitation of one who no longer is. |
| `Ownership.ActorOutranks` | registry/app/organizations/application.py:47-61 | Adding and re-roling give nobody a higher rank than the actor's; removal is for the member and for administrators up. |
| `Ownership.TransferMovesSeat` | registry/app/organizations/application.py:228-232 | A transfer replaces the actor by the target among the owners, and nobody else. |
| `Ownership.AcceptedOnce` | registry/app/organizations/application.py:407-429 | A token accepted once is refused ever after. |
| `Seats.FoundedIff` | registry/app/organizations/application.py:77-104 | An organization is founded iff its slug is free and has 3 to 64 lower-case letters, digits and inner hyphens, and it is named. |
| `Seats.AddedIff` | registry/app/organizations/application.py:175-207 | A member is added iff the actor is an owner, an administrator granting less than ownership, or a maintainer granting neither of the two, the target has no seat, and the quota allows. |
| `Seats.InvitedIff` | registry/app/organizations/application.py:348-404 | The same people may invite; the invitation keeps issuer, role and expiry. |
| `Seats.AcceptedIff` | registry/app/organizations/application.py:407-439 | An unused token is accepted iff it has not expired, the organization is active, the bearer has no seat and the quota allows; it gives the role it names. |
| `Seats.RoleChangedIff` | registry/app/organizations/application.py:210-245 | A role is changed iff the target is a member but no owner and the actor an owner, or an administrator not granting ownership; a transfer makes the actor administrator. |
| `Seats.RemovedIff` | registry/app/organizations/application.py:248-279 | A member is removed iff it is no owner, by itself, an owner or an administrator. |
| `Seats.ServiceAccountsNeedRole` | registry/app/organizations/application.py:575-681 | Service accounts are made and deleted by owners, administrators and maintainers only, and never start as owners. |
| `Seats.SeatLostOnlyBy` | registry/app/organizations/application.py:248-336 | The ways a seat of any role is lost, and who may cause each. |
| `Seats.EveryInvitationIssued` | registry/app/organizations/application.py:348-404 | Every invitation of a reachable state was issued, with its role and expiry, by someone who could grant that role then. |
| `Seats.SeatOrigin` | registry/app/organizations/application.py:77-618 | Every seat of every role goes back to a step entitled to give it, an accepted invitation also to its issue by an entitled member and within its time, and has been held since. |
| `Seats.SlugsWellFormed` | registry/app/organizations/application.py:20-20 | Every organization of a reachable state has a well-formed slug. |
| `Retention.UsageTables.PruneCandidates` | runtime/src/usage.ts:470-484 | The ended runs too old, and those listed beyond the `keep` newest. |
| `Retention.UsageTables.RemoveRuns` | runtime/src/usage.ts:503-525 | The existing runs named go with all their usage and resource rows; their number is returned. |
| `Retention.UsageTables.PruneNow` | runtime/src/usage.ts:486-490 | Removes the candidates; returns by how many the runs shrank. |
| `Retention.PruneKeepsNewest` | runtime/src/usage.ts:470-490 | Runs starting, running or stopping stay, and every other run that stays is at least as new as any that goes. |
| `Retention.PruneKeepsAsManyAsAllowed` | runtime/src/usage.ts:470-490 | Of the ended runs not too old, exactly as many stay as `keep` allows. |
| `Retention.PruneLeavesNoOrphans` | runtime/src/usage.ts:503-525 | No usage or resource row of a removed run is left and every other row stays as often as it was there. |
| `Retention.PruneIdempotent` | runtime/src/usage.ts:470-490 | A second pruning at the same moment changes nothing, however ties are listed. |
| `Retention.PruneByAge` | runtime/src/usage.ts:470-476 | By age alone, exactly the runs go that are not starting, running or stopping and older than the days given. |
| `Retention.PruneByNumber` | runtime/src/usage.ts:477-482 | By number alone, all runs in flight and the `keep` newest others stay. |
| `Retention.NoOptionNoPruning` | runtime/src/usage.ts:470-490 | Negative or absent options remove nothing. |
| `Retention.ListingExists` | runtime/src/usage.ts:478-481 | The ended runs of any table, ties included, can be listed newest first. |
| `UsageStats.TallyRuns` | runtime/src/observability.ts:155-169 | The sandbox and per-agent loops build the tables the lemmas below describe. |
| `UsageStats.TallyUsage` | runtime/src/observability.ts:121-153 | The token loop builds the totals, the model table and the runs of each model, over rows in range. |
| `UsageStats.ComputeUsageStats` | runtime/src/observability.ts:80-203 | running + stopped + failed = allTime = sum of sandbox counts = sum of per-agent runs; running = sum of per-agent running; model tokens sum to the totals. |
| `UsageStats.AgentsAddUp` | runtime/src/observability.ts:158-169 | The agents' counts add up to all runs, their running counts to the active ones. |
| `UsageStats.AgentEntry` | runtime/src/observability.ts:158-169 | An agent has an entry iff it has a run; it counts its runs and active ones and holds the latest start. |
| `UsageStats.ModelsAddUp` | runtime/src/observability.ts:121-153 | The models' input and output tokens add up to the totals. |
| `UsageStats.ModelEntry` | runtime/src/observability.ts:121-153 | A model has an entry iff it has usage in range; it holds its sums and the set of its runs. |
| `UsageStats.SandboxesAddUp` | runtime/src/observability.ts:155-156 | Each sandbox counts its runs, and the counts add up to all runs. |
| `UsageStats.StatesCounted` | runtime/src/observability.ts:54-109 | Running are the runs starting, running or stopping; failed those in state failed. |
| `UsageStats.InScopeExactly` | runtime/src/observability.ts:121-126 | A usage row counts iff its run is listed. |
| `UsageStats.OfModelExactly` | runtime/src/observability.ts:141-146 | A model's rows are those whose provider and name, joined by a colon, are its key. |
| `UsageStats.OfAgentExactly` | runtime/src/observability.ts:158-169 | An agent's runs are those listed for it. |

## Left out

- The SQL engine: tables are maps and sequences, ids increase, text collates by code point, and an error before the commit rolls back.
- Race branches of atomic operations: a claim whose update hits no row because another worker was faster, and a webhook insert that meets a concurrent duplicate. Each operation is one step.
- Billing operations end before a trial or grace period that begins in them could run out, and steps do not overlap. A change to past_due by an operator or a provider begins strictly after the previous step; `SameTickForgets` shows why.
- BillingTheorems.NoTimedSubscriptionForgotten: for past_due the job may be due after the deadline, though never after the present moment, because reconcile reads the clock twice; `LateByOneOperation` is such a run.
- Infrastructure errors in the billing worker; the handler's only exceptions are those the lifecycle raises.
- Column widths, naive and aware datetimes: times are integers in microseconds, and half the backoff base is a whole number of them.
- Dedupe keys, event keys and limiter keys are structured values instead of formatted strings. A usage record whose own id reads like a cumulative key is excluded.
- The digit test of the version parser on digits outside ASCII.
- Versions with build metadata, for which SemVer precedence is not claimed; the embedding itself covers them wherever their characters are in its domain.
- `VersionRepository.latest` and `list_for`: a maximum and a sort by the same key.
- Cursor encoding: a cursor is a pair of sort key and id, or garbled.
- Catalogue rows carry what the query and the filter read; manifest fields shown to clients are left out.
- Floating-point rounding in the limiter: readings are real numbers. The Redis backend and the entitlements limiter are left out.
- Overlapping or cancelled flushes, and the count a flush returns; versions whose row does not exist when counts are committed.
- Quota computation: whether a quota allows an operation is a parameter.
- User lookup, audit records, teams, service-account tokens and invitation e-mail: operations take the looked-up user.
- Organization status is set from outside these operations; the model lets it change at any moment.
- JSON parsing of session lines is a function from text to what was found; limits and skipped-line counts are left out.
- The size of a session file counts bytes while offsets count UTF-16 units; the model uses only that the text is no longer than the size.
- A process that dies between storing a total and recording its delta is not modelled.
- Ingestion.RescansAddNothing: excludes, like ScanFromStartAddsNothing, records without total and id, because their key is made of a timestamp and the line number within the scan, which a re-scan changes.
- The Claude adapter's mapping of events; its cursor logic is the shared one.
- Retention settings read from strings; fractional options.
- In the statistics: durations, health, costs, today's runs, last runs, sorting of the lists, and the cache in front of them.
- UTF-8 decoding, file system errors, HTTP routes, signatures, CSV export and `enforce_write_allowed`.
