# A verified model of the master's control plane

The master runs regressions on a lab of nodes. This project models its control
plane and the small protocols beside it, and proves what they promise:

- **Quota rules and the ledger** (`Quota.dfy`, `Ledger.dfy`, `LedgerClass.dfy`,
  `LedgerFacts.dfy`): which rule governs a user in a scope, how in-flight runs
  are counted over overlapping scopes, and how a node is chosen.
- **Admission** (`Admission.dfy`): the greedy loop of one tick as a sequence of
  attempts; limits, priority, completeness and fair share.
- **The limits in the store’s own terms** (`Limits.dfy`): which runs hold a slot,
  in which scopes, and how many are allowed; the ledger’s counts, its refusals
  and the main theorems are shown to say exactly this.
- **The life of runs** (`Lifecycle.dfy`, `Attempts.dfy`, `Progress.dfy`,
  `Retries.dfy`, `Safety.dfy`, `LateStarts.dfy`, `Verdicts.dfy`): every change to the store as
  an event; what every history of events keeps.
- **The scheduler and the store as objects** (`Scheduler.dfy`, `Store.dfy`,
  `RecordFiles.dfy`, `Rollup.dfy`): the loops and updates of the program, each
  shown to take only such events.
- **The catalog** (`Catalog.dfy`, `Canonical.dfy`, `Validation.dfy`,
  `Settings.dfy`, `Normalize.dfy`, `CatalogEdits.dfy`, `EditSafety.dfy`, `PoolRemoval.dfy`,
  `CatalogControl.dfy`): canonical form, validation, edits, and the one write path.
- **The catalog in PostgreSQL** (`Tables.dfy`, `Schema.dfy`, `Saving.dfy`,
  `Replacing.dfy`, `Loading.dfy`, `Reloading.dfy`): tables with their
  constraints, the save transaction, and loading back.
- **Codecs** (`RuleKeys.dfy`, `Arrays.dfy`, `Statements.dfy`, `Yaml.dfy`,
  `YamlScans.dfy`, `YamlTokens.dfy`, `YamlTrees.dfy`, `YamlDocuments.dfy`).
- **The build cache** (`BuildCache.dfy`): many processes over one lock file.

`dafny verify dfyconfig.toml` checks everything.

## How to read it

A class method is proved against a specification function of the old state; the
lemmas about that function are the results. The scheduler's methods return, as
ghosts, the events that explain what they did (`Explains`); theorems about all
histories of events (`HistoryIsSafe`, `HistoryKeepsChains`, `ChangesAreBounded`,
`HistoryKeepsClean`) then hold of every sequence of calls. Each call and each tick is atomic.

`Disciplined` histories are those in which runners report only on runs in
flight and name the node a run was pinned to, and runs are placed where the
ledger of the moment allows. A verdict from a runner is one that `classify`
produces. Node ids are unique in an inventory.

Where the code departs from what its documentation or a standard promises, the
code is modelled, the input is given, and the exact condition under which it
does as promised is proved:

- a report that comes after a restart can over-fill a node (`ALabIsOverfilled`,
  `RestartOverfills`; `LateStartIsSafe`);
- a run can pass over failures on record, or be given failures after it passed
  (`PollPassesFailures`, `LateReportSpoils`; `EventKeepsClean`, `Reconcile`, `Ingest`);
- a regression submitted under the id "catalog" shares its file with the
  catalog (`CatalogSavedOverRecord`, `RecordSavedOverCatalog`;
  `FaithfulUnlessNamedCatalog`, `ReopeningForgets`);
- a dropped rule can survive a save (`ARuleLingers`; `RulesExact`, `SavedLoadsBack`);
- two rules can share a key (`KeysCollide`; `KeyRoundTrip`);
- block comments nest in the PostgreSQL 16 documentation, section 4.1.5, and
  not here (`CommentsDoNotNest`; `CommentEndsAsTheServers`);
- the key of "- key:" is lost when a block follows below it
  (`TreeTakesThePlaceOfItsKey`; `InlineKeyKept`);
- two processes can both take over the lock of a crashed one
  (`TakeoverBreaksExclusion`; `StealingIsSafe`).

Definitions that a method and its contract share are each tied to a second
statement in plain terms by a lemma, most often one whose name ends in `Means`.

`hide` statements at the head of a proof only keep definitions out of it.

## Model

| member | source | states |
|---|---|---|
| Quotas.FindUserCap | internal/config/quota.go:196-222 | the loop returns the per-user rule that the specification function UserCap picks, for any list of rules |
| Quotas.FindTogetherRules | internal/config/quota.go:227-237 | the loop returns every aggregate rule that counts the user in the scope |
| Quotas.TogetherIn | internal/config/quota.go:227-237 | a rule is listed if and only if it is an aggregate rule that concerns the user in the scope |
| Quotas.TogetherMeans | internal/config/quota.go:227-237 | the aggregate rules of a user in a scope are those for the scope and for everyone or for a group the user is in |
| Quotas.UserCapIsMostSpecific | internal/config/quota.go:193-222 | the rule chosen concerns the user, is outranked by none that does (own over group over everyone), is the most permissive of the group rules; and there is none exactly when no per-user rule concerns the user |
| Quotas.CapMeans | internal/config/quota.go:193-222 | in the rules themselves: a user’s own rule for the scope, else the most permissive of those for their groups, else the rule for everyone |
| Quotas.UserCapLimitIsUnique | internal/config/quota.go:193-222 | with one rule per subject and scope, every rule that could govern allows the same number of slots as the one returned |
| Catalogs.MembersAreTheUsersInTheGroup | internal/config/catalog.go:212-223 | listing a group’s members and looking up a user’s groups agree, and no member is listed twice |
| Catalogs.FindPool | internal/config/catalog.go:303-310 | a pool is found if and only if one has the name, and then it is one of the list with that name |
| Catalogs.FirstListingCounts | internal/config/catalog.go:226-233 | a node is in the pool of its first listing, and in none when it is not listed |
| LedgerObject.Ledger.constructor | internal/sched/ledger.go:49-71 | the ledger built from a snapshot is the idle ledger of the inventory charged with the in-flight runs in order, and lists each assigned node once under its pool |
| LedgerObject.Ledger.Charge | internal/sched/ledger.go:73-79 | charging changes the node’s use, the user’s slots and the flights as Charge says, and keeps the ledger well formed |
| LedgerObject.Ledger.FindPools | internal/sched/ledger.go:85-104 | the loop finds exactly the submitted pool, the concrete pool of the node, and the virtual pools spanning that |
| LedgerObject.Ledger.CountSeen | internal/sched/ledger.go:109-135 | the number of in-flight runs the rule sees, per user or together; what it sees is said in the store’s runs by RuleCounts |
| LedgerObject.Ledger.ListScopes | internal/sched/ledger.go:141-164 | the scopes consulted are everywhere, the submitted pool, every pool the run would count in, and the node |
| LedgerObject.Ledger.BlockIn | internal/sched/ledger.go:141-164 | in one scope, a rule is returned if and only if one that applies has no slot left |
| LedgerObject.Ledger.Block | internal/sched/ledger.go:141-164 | a rule is returned if and only if some rule that applies in some scope of the run is exhausted, and it is such a rule |
| LedgerObject.Ledger.PoolNodes | internal/sched/ledger.go:168-175 | the nodes of the pool or of its members, each assigned, in name order, and carrying the pool’s whole capacity |
| LedgerObject.Ledger.FindCapacity | internal/sched/ledger.go:178-186 | ready slots and slots taken are the sums over the nodes of the pools drawn on; CapacityAdds says what each node adds |
| LedgerObject.CapacityAdds | internal/sched/ledger.go:178-186 | each node that is ready adds its slots, and of those the ones taken; any other adds nothing |
| LedgerObject.VirtualCapacityIsTheSumOfItsMembers | internal/sched/ledger.go:178-186 | a virtual pool’s capacity is the sum of its members’ |
| LedgerObject.Ledger.Try | internal/sched/ledger.go:193-209 | a node is accepted exactly when it is a candidate, and a rule is named exactly when the node fits but for the rules |
| LedgerObject.Ledger.PickAmong | internal/sched/ledger.go:193-209 | over name-ordered nodes the loop returns one that no candidate beats, and a rule exactly when some fitting node was refused |
| LedgerObject.Ledger.Pick | internal/sched/ledger.go:193-209 | the node returned is ready, assigned to a pool drawn on, has a slot left and every label the pool and the suite want, and no node that could be taken has a larger share of its slots free, ties to the least name; a node with all this that no rule blocks makes it return one; a refusal is named exactly when some fitting node was refused by a rule |
| LedgerObject.FitsMeans | internal/sched/ledger.go:193-220 | a node fits exactly when it is ready, assigned to the pool or to one it spans, has fewer runs than slots, and has every label wanted with the value wanted, a missing label reading as empty |
| LedgerObject.LoadMeans | internal/sched/ledger.go:193-209 | the shares of free slots are compared as fractions |
| LedgerObject.LoadIsTransitive | internal/sched/ledger.go:193-209 | comparing free over total slots by cross-multiplication is transitive over positive totals |
| LedgerFacts.ChargedLedger | internal/sched/ledger.go:73-79 | in a ledger charged with any claims, each node’s use and each user’s slots count the claims on them, whatever was there before |
| LedgerFacts.ChargedCount | internal/sched/ledger.go:109-135 | what a rule sees in a charged ledger is what it saw before plus the claims it counts |
| LedgerFacts.ChargeOrderIsImmaterial | internal/sched/ledger.go:49-79 | permuting the claims gives the same ledger up to the order of the flights |
| LedgerFacts.GroupCountIsTheSumOfItsMembers | internal/sched/views.go:137-215 | an aggregate group rule’s count is the sum of the members’ per-user counts in that scope |
| Ledgers.IdleIsValid | internal/sched/ledger.go:49-71 | before any run is charged, each node of the inventory is listed exactly once, under the pool it is assigned to |
| Ledgers.IdleLists | internal/sched/ledger.go:49-71 | the idle ledger has exactly the nodes of the inventory, unused |
| Schedulers.QueueOf | internal/sched/admit.go:30-41 | the queue holds exactly the queued runs of the snapshot, by priority and then age |
| Schedulers.IsEligible | internal/sched/admit.go:43-50 | a run is eligible exactly when its pool exists, no rule blocks it before placement, and some node is a candidate |
| Schedulers.NextAmong | internal/sched/admit.go:51-64 | the scan with its early break returns an open entry preferred to every open entry, or none when none is open |
| Schedulers.PickNext | internal/sched/admit.go:51-67 | -1 exactly when no entry can start; otherwise an open entry preferred (priority, slots held, age) to every other |
| Schedulers.Scheduler.ChooseNode | internal/sched/admit.go:70-71 | an eligible run gets a least loaded candidate node of its pool |
| Schedulers.Scheduler.Dispatch | internal/sched/admit.go:107-129 | without a command the run is finished as errored; otherwise it is placed exactly when the backend accepts; and each change is an allowed step |
| Schedulers.Scheduler.AttemptOne | internal/sched/admit.go:68-77 | one turn of the loop extends the greedy attempts by one and keeps the ledger equal to that of the store |
| Schedulers.Scheduler.AdmitAll | internal/sched/admit.go:51-78 | the loop ends with complete greedy attempts |
| Schedulers.Scheduler.Admit | internal/sched/admit.go:26-78 | the attempts are greedy and complete; the ledger they leave is the one the store’s runs would rebuild; what was not attempted is untouched; all by allowed, disciplined steps |
| Admission.CountedScopesAreChecked | internal/sched/ledger.go:73-164 | block looks at every scope charge counts in: a well-shaped rule that will count the run applies to it in a scope that is checked |
| Admission.CountAfterCharge | internal/sched/ledger.go:73-135 | a placed run adds one to a rule’s count if and only if the rule sees it |
| Admission.AttemptKeepsLimit | internal/sched/ledger.go:73-164 | one unblocked placement leaves a rule’s count at most max(count before, limit) |
| Admission.TickKeepsLimits | internal/sched/admit.go:51-77 | for any starting ledger and any pattern of dispatch failures, a rule’s count after the tick is at most max(count before, limit) |
| Admission.TickKeepsSlots | internal/sched/admit.go:51-77 | likewise each node’s use is at most max(use before, its slots), and never drops |
| Admission.ChargeIsAntitone | internal/sched/ledger.go:141-209 | charging never makes an ineligible run eligible |
| Admission.TickIsAntitone | internal/sched/admit.go:51-77 | a run eligible later in the tick was eligible at any earlier point |
| Admission.AttemptsDescendInPriority | internal/sched/admit.go:51-77 | the attempts of a tick have non-increasing priority |
| Admission.AttemptsAreDistinct | internal/sched/admit.go:67-69 | no queue entry is attempted twice |
| Admission.PickedHoldsLeast | internal/sched/admit.go:56-64 | the user picked holds no more slots than any user with an open run at that priority |
| Admission.HeldStep | internal/sched/admit.go:73-77 | an attempt changes only the picked user’s slots, by at most one |
| Admission.FairShare | internal/sched/admit.go:51-77 | over any stretch of picks in which two users keep an open run at the priority picked, the difference of their slots never exceeds max(its start, 1) |
| Admission.OldestFirst | internal/sched/admit.go:51-77 | among the picked user’s open runs of that priority the oldest goes first |
| Lifecycle.EventKeepsIndexed | internal/store/store.go:190-265 | every event keeps runs, records and tokens exact indexes of each other |
| Lifecycle.SubmitKeepsIndexed | internal/sched/submit.go:81-95 | a submission adds its runs to the indexes and changes nothing else |
| Lifecycle.AddRunsKeepsIndexed | internal/store/store.go:190-235 | adding fresh runs keeps the indexes exact and leaves the rest alone |
| Lifecycle.RestartKeepsIndexed | internal/store/store.go:68-108 | a restart keeps the indexes exact |
| Lifecycle.LegalConcat | internal/sched/reconcile.go:17-182 | histories compose: running one after another is running their concatenation, so the events of several calls are one history |
| Attempts.EventKeepsChained | internal/sched/reconcile.go:139-182 | every allowed event keeps the attempts of each suite a chain, with a retry exactly where one is owed |
| Attempts.RunEventMoves | internal/sched/reconcile.go:139-252 | an event about a run leaves its state alone or moves an unfinished run, and queues a retry exactly when the verdict is retryable and attempts are left |
| Attempts.HistoryKeepsChains | internal/sched/reconcile.go:139-182 | every history, restarts included, keeps indexes exact and chains whole |
| Attempts.ReachableAttempts | internal/sched/reconcile.go:172-181 | in every state reachable from the empty store each suite’s attempts are exactly 1..k with k at most a constant MaxAttempts, all but the last failed and retryable, and a failed last attempt has used them all |
| Attempts.ChainIsWhole | internal/sched/reconcile.go:172-181 | that description of a suite’s attempts follows from the chain invariant |
| Attempts.TerminalIsFinal | internal/sched/reconcile.go:142-154 | a terminal state never changes, whatever happens later |
| Attempts.RestartKeepsChained | internal/store/store.go:94-99 | re-queueing what was in flight keeps the chains |
| Retries.HistoryKeepsAllowed | internal/model/model.go:197-206 | in every history each run may be attempted as often as its suite asks: retries and one, or the default’s, or once |
| Retries.AllFailedMeansAllTried | internal/model/model.go:197-206 | in every reachable state, a suite with retries k >= 0 whose attempts have all failed, errored or timed out has exactly k + 1 of them |
| Progress.StepLowersTotal | internal/sched/reconcile.go:17-182 | between submissions and restarts a state change strictly lowers the sum over suites of 4 * (MaxAttempts - attempt) + rank, and anything else leaves it |
| Progress.ChangesAreBounded | internal/sched/reconcile.go:17-182 | so a history without submissions or restarts changes states no more often than that sum |
| Progress.HistoryKeepsTimed | internal/sched/admit.go:118-125 | in every reachable state a run in flight has a dispatch or start time |
| Progress.EventKeepsTimed | internal/sched/reconcile.go:54-132 | every event keeps a time on runs in flight |
| Safety.LedgerCountsHoldings | internal/sched/ledger.go:49-135 | the ledger of a store has exactly the inventory’s nodes, each with its in-flight runs counted, and each rule sees what it would count in the store |
| Safety.SafeMeans | internal/sched/ledger.go:49-135 | the limits as the ledger keeps them are, in the runs of the store: no more runs on a node than slots, no more of a user in a scope than their cap, no more counted by an aggregate rule than it allows |
| Safety.RuleCounts | internal/sched/ledger.go:85-135 | what a rule counts are the runs in flight in its scope (on the node it names; submitted to the pool, or on a node assigned to it or to one it spans, a node without a pool standing for the concrete pool submitted to; or all) of the user, of the members of its group, or of everyone |
| Safety.LedgerCountsRuns | internal/sched/ledger.go:49-135 | and that is the count of the ledger built from the store |
| Safety.BlockedMeans | internal/sched/ledger.go:141-164 | a run is blocked from a node if and only if a rule that would count it there, and governs it, already counts as many runs of the store as it allows |
| Safety.BlockedBeforehandMeans | internal/sched/ledger.go:141-164 | before a node is known, if and only if such a rule is full everywhere or in the pool submitted to |
| Safety.UserHolds | internal/sched/admit.go:56-64 | the slots a user holds, as the tick compares them, are their runs in flight in the store |
| Safety.EligibleMeans | internal/sched/admit.go:43-50 | a run is eligible if and only if on some node it could start: its pool exists, the node suits it with the runs of the store there, and no rule is full for it |
| Safety.CanPlaceMeans | internal/sched/admit.go:43-77 | a run can be placed on a node exactly when its pool exists, the node suits it with the runs of the store that sit there, and no rule is full for it |
| Safety.PlacingIsSafe | internal/sched/admit.go:51-77 | placing a run where the ledger of the moment allows keeps all slots and limits |
| Safety.EventIsSafe | internal/sched/reconcile.go:17-252 | every disciplined event keeps all slots and limits |
| Safety.HistoryIsSafe | internal/sched/ledger.go:73-164 | in every disciplined history, restarts included, each node holds at most as many runs as slots, each user at most as many in a scope as their cap allows there, and each aggregate rule counts at most what it allows, all counted in the runs of the store |
| Safety.ReachableIsSafe | internal/sched/ledger.go:73-164 | so it is in every state a disciplined history reaches from the empty store |
| Safety.EmptyStoreIsSafe | internal/sched/ledger.go:49-71 | the empty store is indexed and within all limits |
| LateStarts.LateStartIsSafe | internal/sched/reconcile.go:194-211 | a started report for a queued run keeps the limits if and only if its node holds fewer runs than slots and no rule that would count it is full |
| LateStarts.RestartOverfills | internal/sched/reconcile.go:194-211 | two placements the ledger of the moment allows, with a restart between them, leave a node of one slot safe until the first run’s late report, and then over-filled |
| LateStarts.ALabIsOverfilled | internal/sched/reconcile.go:194-211 | so it happens from an empty store in a concrete valid lab of one node with one slot |
| Safety.LedgerFollows | internal/sched/admit.go:73-77 | charging a run just placed gives the ledger the store would rebuild with it listed last |
| Safety.RebuiltLedgerIsTheSame | internal/sched/ledger.go:49-79 | however the runs are listed, the rebuilt ledger is the same up to the order of flights |
| Schedulers.SnapshotLedger | internal/sched/ledger.go:49-71 | the ledger built from a snapshot is that of the store’s holdings |
| Schedulers.Scheduler.Finish | internal/sched/reconcile.go:139-182 | a missing or finished run is left alone; otherwise it gets the verdict, and the one event is allowed: its retry is queued exactly when one is due |
| Schedulers.Scheduler.Conclude | internal/sched/reconcile.go:139-182 | the store after a verdict is the one the finish event makes, with a fresh retry if and only if one is due |
| Schedulers.Scheduler.NextAttempt | internal/sched/reconcile.go:175-176 | the next attempt is the same suite, numbered one higher, under a fresh id and token, with MaxAttempts carried over |
| Schedulers.Scheduler.EnforceTimeout | internal/sched/reconcile.go:108-132 | a run times out exactly when its start, or its dispatch if it has none, plus its own timeout if that is positive and else the default, plus 300 seconds is not after now, and then gets that verdict; otherwise nothing changes |
| Schedulers.Scheduler.ApplyStatus | internal/sched/reconcile.go:54-104 | after one poll the run is what the backend’s phase, placement and exit code make of it, and no other run changes |
| Schedulers.Scheduler.End | internal/sched/reconcile.go:75-94 | an unfinished run passes only if its task did not fail and it reported tests |
| Schedulers.Scheduler.Reconcile | internal/sched/reconcile.go:17-52 | every run in flight that is past its start (else dispatch) plus its timeout (else the default) plus 300 seconds is timed out, every other is as its poll says, phase by phase, all others are untouched and new ones queued; passed runs stay clean if and only if no poll passes a run over failures on record; all by allowed steps, disciplined if the polls name the pinned nodes |
| Schedulers.ReconciledSettles | internal/sched/reconcile.go:17-132 | the rules for timeouts and polls make of a run what that says, with the numbers written out |
| Schedulers.PolledIsAnswered | internal/sched/reconcile.go:54-106 | what a poll’s phase, placement and exit code make of a run, case by case |
| Schedulers.Scheduler.TimeOutAll | internal/sched/reconcile.go:18-27 | the overdue runs are timed out, and exactly the others in flight are returned unchanged |
| Schedulers.Scheduler.PollAll | internal/sched/reconcile.go:41-51 | each listed run is as its poll makes it, and no other changes |
| Schedulers.Scheduler.PollOne | internal/sched/reconcile.go:41-51 | without an answer the run is left alone; otherwise it is as the answer makes it |
| Schedulers.Scheduler.Ingest | internal/sched/reconcile.go:186-252 | an unknown run or phase is refused and changes nothing; otherwise the run is as reported (started, with results so far, or with results and verdict), a failure with attempts left queues exactly one next attempt, and no other run changes; passed runs stay clean if and only if the report neither passes a run over failures nor gives a passed one worse results |
| Schedulers.ReportedRun | internal/sched/reconcile.go:186-252 | the events of a report leave the run as reported, all others as they were, and one attempt more exactly when one is owed |
| Schedulers.Scheduler.IngestVerdict | internal/sched/reconcile.go:226-249 | a finished report records results and then the verdict, inferred from the results when the state is empty |
| Schedulers.Scheduler.Cancel | internal/sched/submit.go:142-171 | exactly the unfinished runs of the regression become canceled, finished now, and its header with them; nothing else changes |
| Schedulers.Scheduler.CancelSuite | internal/sched/submit.go:175-203 | the newest attempt of the suite is canceled if it is unfinished, no retry is queued, and otherwise nothing changes |
| Schedulers.Scheduler.Submit | internal/sched/submit.go:18-95 | accepted exactly when the suites have names, pools and builds, no name twice, and rules and runtimes allow each, the id is new and the record is written; then one submission event adds the regression, pending, and for each suite one queued attempt numbered 1, and changes no other run |
| Schedulers.SubmissionStarts | internal/sched/submit.go:63-95 | a submission adds its regression and exactly its first attempts |
| Schedulers.Scheduler.Check | internal/sched/submit.go:23-62 | the loops accept exactly when no rule forbids the user everywhere, every suite’s builds are found, and each suite names a pool that exists, provides its runtime and is open to the user |
| Schedulers.Scheduler.FirstRuns | internal/sched/submit.go:84-88 | one fresh first attempt per suite, in order |
| Schedulers.Scheduler.RollUpOne | internal/sched/rollup.go:38-110 | the stored header becomes the one its runs make, and nothing else changes |
| Schedulers.Scheduler.RollUpAll | internal/sched/rollup.go:15-23 | every header that is not passed, failed, errored or canceled is recomputed, and those are left alone |
| Schedulers.Scheduler.Tick | internal/sched/scheduler.go:78-83 | a tick takes only allowed steps, keeps a store within its limits and, unless a poll passes a run over failures, a clean one clean; each run left queued has no suitable node free of full rules; and every header is up to date |
| Schedulers.NothingCouldStart | internal/sched/admit.go:26-78 | for a run the tick leaves unattempted, on every suitable node some rule that would count it is full |
| Rollups.LatestPerSuite | internal/sched/rollup.go:26-34 | the loop returns the newest attempt of each suite as Latest defines it |
| Rollups.LatestIsNewest | internal/sched/rollup.go:26-34 | exactly the suites with runs are mapped, each to a run with no newer attempt |
| Rollups.LatestIgnoresOrder | internal/sched/rollup.go:26-34 | with distinct attempts per suite the order of runs does not matter |
| Rollups.CountSuites | internal/sched/rollup.go:43-79 | the loop’s totals and flags are the fold of the suites’ newest attempts |
| Rollups.RollUp | internal/sched/rollup.go:38-110 | the header is recomputed as RolledUp specifies |
| Rollups.CountersAddUp | internal/sched/rollup.go:46-72 | the five suite counters add up to the number of suites |
| Rollups.CountersMean | internal/sched/rollup.go:46-72 | each suite counter counts the suites whose newest attempt is in its states, a suite without attempts being queued |
| Rollups.SumsMean | internal/sched/rollup.go:73-79 | the test totals are the sums over newest attempts, errors counting as failures, and flaky counts the suites passed after the first attempt |
| Rollups.FlagsMean | internal/sched/rollup.go:43-72 | the flags say whether some suite has started and whether all are over |
| Rollups.VerdictMeans | internal/sched/rollup.go:81-109 | the state is final exactly when every newest attempt is, errored over failed over passed |
| Rollups.TimesMean | internal/sched/rollup.go:81-110 | the header’s start and end are set once, when it first runs and when it is first over |
| Rollups.RollUpIsIdempotent | internal/sched/rollup.go:38-110 | rolling up again changes nothing |
| Rollups.RollUpIgnoresOrder | internal/sched/rollup.go:38-110 | the header does not depend on the order of runs with distinct attempts |
| Rollups.ParseSuite | internal/junit/junit.go:162-197 | the recursive fold over a report’s suites gives the summary of its cases |
| Rollups.CountCases | internal/junit/junit.go:165-192 | the loop counts each case under one outcome |
| Rollups.ReportIsBalanced | internal/junit/junit.go:162-197 | in every report, nested suites included, tests = passed + failed + errors + skipped, and each case is counted |
| Rollups.ReportCounts | internal/junit/junit.go:162-197 | the summary counts the cases of the report at any depth: errors, else failures, else skipped, else passed |
| Rollups.Classify | internal/runner/runner.go:174-192 | a run is passed exactly when the task ended well, tests ran and none failed |
| Rollups.ParseAll | internal/junit/junit.go:100-135 | the loop over report files returns the sum of their summaries |
| Rollups.AllReportsAreBalanced | internal/junit/junit.go:100-197 | in that sum, tests = passed + failed + errors + skipped |
| Rollups.TotalsAddUp | internal/sched/rollup.go:73-76 | with balanced summaries the totals balance, and with passed runs clean a passed regression has no failure and at least one test per suite |
| Verdicts.EventKeepsClean | internal/sched/reconcile.go:139-252 | an event keeps every passed run clean (tests ran, none failed) if and only if it passes a run only on clean results and records only clean results on a run that has passed |
| Verdicts.EventKeepsBalanced | internal/sched/reconcile.go:213-247 | an event keeps all recorded summaries balanced if and only if what it records balances |
| Verdicts.DrawnMeans | internal/sched/reconcile.go:74-94 | a verdict of the master is one the runner could have drawn from the results on record if and only if it is not a pass over failures or without tests |
| Verdicts.HistoryKeepsClean | internal/sched/reconcile.go:139-252 | in every history whose summaries come from reports, whose verdicts are drawn from the results on record, and which reports nothing worse on a run that has passed, passed runs are clean and all results balanced |
| Verdicts.ReachableTotals | internal/sched/rollup.go:26-110 | so in every state such a history reaches from the empty store, a regression’s totals balance and a passed one has no failure and at least one test per suite |
| Verdicts.PollPassesFailures | internal/sched/reconcile.go:74-94 | from any state with a run in flight: progress with failures and then a task that ends well leave it passed with those failures |
| Verdicts.LateReportSpoils | internal/sched/reconcile.go:234-247 | any passed run can be given failing results by a late report, and stays passed |
| Verdicts.PassedWithFailures | internal/sched/rollup.go:26-110 | rolling up such a run gives a passed regression with failures |
| Schedulers.ReconciledClean | internal/sched/reconcile.go:54-106 | reconciling keeps a clean run clean if and only if its poll does not pass it over failures on record |
| Schedulers.RunnerReportKeepsClean | internal/sched/reconcile.go:226-249 | a report with the verdict the runner draws spoils nothing, except by giving a run that has passed already results that are not clean |
| Stores.Store.constructor | internal/store/store.go:68-80 | a new store is empty, indexed and mirrored |
| Stores.Store.Open | internal/store/store.go:68-108 | reopening yields the store the files were written from, every spec and token restored, with what was in flight queued again and its times cleared, if and only if the catalog was not saved over a record; then all but that record |
| Stores.Store.LoadCatalog | internal/store/file.go:56-69 | the catalog in the file of that name, an empty one if a record is there, none without the file |
| Stores.Store.SaveCatalog | internal/store/file.go:71-81 | the catalog’s file is replaced, or on failure left alone; the records’ files stay, but for one of that name |
| RecordFiles.FaithfulUnlessNamedCatalog | internal/store/file.go:53-94 | records and catalog are all in their files if and only if no regression is named catalog while a catalog is stored, or the stored one is empty and was overwritten by the record |
| RecordFiles.ReopeningForgets | internal/store/store.go:84-108 | reopening brings everything back exactly when no record was overwritten by the catalog |
| RecordFiles.CatalogSavedOverRecord | internal/store/file.go:71-81 | saving a catalog while a regression is named catalog makes reopening forget that regression |
| RecordFiles.RecordSavedOverCatalog | internal/store/file.go:83-94 | writing a record leaves the catalog read as it was if and only if the record is not named catalog or the catalog is empty |
| CatalogControl.RecordWritten | internal/store/file.go:83-94 | so a record keeps the stored catalog in step with the configuration exactly under that condition |
| Stores.Store.LoadRecord | internal/store/store.go:84-105 | loading one record adds exactly its header, runs and tokens |
| Stores.Store.LoadRuns | internal/store/store.go:93-100 | each run gets its suite’s spec by name and is settled |
| Stores.Store.LoadTokens | internal/store/store.go:101-106 | each token of the record’s index is restored to its run |
| Stores.Store.SaveRecord | internal/store/file.go:83-94 | the record’s file is replaced as a whole, or, on an unreliable backend, left alone |
| Stores.Store.AddRun | internal/store/store.go:220-235 | the attempt is appended, indexed and mirrored; without its regression nothing changes |
| Stores.Store.UpdateRun | internal/store/store.go:238-251 | exactly that run changes, in the store and in its file; a missing run changes nothing |
| Stores.Store.UpdateRegression | internal/store/store.go:254-265 | exactly that header changes |
| Stores.Store.Create | internal/store/store.go:190-217 | an existing id or a failed write leaves the store as it was; otherwise the regression and its runs are added |
| Stores.Store.Remove | internal/store/store.go:204-213 | undoing an insertion removes the record, its runs and its tokens |
| Stores.Store.AllRuns | internal/store/store.go:311-320 | every run once, oldest queue entry first |
| Stores.Rollback | internal/store/store.go:204-213 | removing what was inserted restores the state exactly |
| RecordFiles.RewriteKeepsMirror | internal/store/file.go:46-50 | rewriting the file of the one record that changed keeps every file equal to its record |
| RecordFiles.RestartKeepsMirror | internal/store/file.go:24-45 | after a restart the files still agree with the store, but for runs in flight |
| RecordFiles.RestartMeans | internal/store/store.go:94-99 | a restart queues exactly what was in flight, without its times, and changes nothing else |
| RecordFiles.TokenIndexIs | internal/store/store.go:167-175 | a record’s token index lists exactly the tokens of its runs |
| RuleKeys.KeyRoundTrip | internal/config/quota.go:73-103 | parsing a rule’s key gives its identity back exactly when the name has no @ and, unless together, does not end in /together |
| RuleKeys.KeysAreInjective | internal/config/quota.go:73-86 | among such rules equal keys mean equal identities |
| RuleKeys.KeysCollide | internal/config/quota.go:73-86 | two rules of different users with the same key, when a name holds an @ |
| RuleKeys.KeyIsSpelled | internal/config/quota.go:73-86 | the text of a key, kind by kind |
| RuleKeys.ShapeMeans | internal/config/quota.go:107-139 | a rule is well shaped exactly when its kinds are known, names are there exactly where they belong, a user’s rule is not aggregate and the limit is not negative |
| RuleKeys.ReadKeysArePlain | internal/config/quota.go:90-103 | every key accepted stands for such a rule, and is read back as it |
| Arrays.Array | internal/pg/sql.go:103-116 | the loop writes the quoted, escaped elements between braces |
| Arrays.ParseArray | internal/pg/sql.go:119-148 | the loop reads the elements the specification function Elements reads |
| Arrays.ArrayRoundTrip | internal/pg/sql.go:103-155 | ParseArray undoes Array on a list if and only if it has no element "NULL" |
| Arrays.ServerTextReads | internal/pg/sql.go:119-155 | so it does on the text PostgreSQL writes for a stored list (PostgreSQL 16 documentation, section 8.15.6) |
| Arrays.ServerReadsQuoted | internal/pg/sql.go:103-116 | an element Array writes ends, for the server, at its own quote and is the element given |
| Arrays.LiteralReads | internal/pg/sql.go:119-148 | however each element is quoted, the list is read back but for "NULL" |
| Statements.SplitStatements | internal/pg/sql.go:11-65 | the scan terminates with the statements that splitting piece by piece gives |
| Statements.ScanPiece | internal/pg/sql.go:22-62 | at each position the scan takes a comment, a quoted string, a dollar-quoted body, a semicolon or a character |
| Statements.ClosingQuote | internal/pg/sql.go:69-82 | just past the first quote that is not doubled, or the end |
| Statements.DollarTag | internal/pg/sql.go:85-100 | the opening tag, or nothing when the characters between the dollars are not of a tag |
| Statements.OpeningTagMeans | internal/pg/sql.go:85-100 | a dollar quote opens exactly with two dollars around letters, digits and underscores |
| Statements.SplitIsByTokens | internal/pg/sql.go:11-65 | on every script of characters, semicolons, quoted strings with doubled quotes, dollar-quoted bodies ending at their first closing tag and comments, exactly the trimmed comment-free non-empty pieces between semicolons (PostgreSQL 16 documentation, sections 4.1.2.4 and 4.1.5) |
| Statements.CommentEndsAsTheServers | internal/pg/sql.go:28-34 | a block comment the server ends is left out as a whole if and only if no other comment opens inside it |
| Statements.CommentsDoNotNest | internal/pg/sql.go:28-34 | an instance: of a comment with one nested in it, the rest is taken for a statement |
| Canonical.Clone | internal/config/catalog.go:26-45 | the copy has the pools as authored and every set sorted |
| Canonical.Equal | internal/config/catalog.go:48-52 | on tidy catalogs it holds exactly when pools agree in order and nodes, groups, users with memberships, and rules are permutations |
| Canonical.ClonesAgree | internal/config/catalog.go:26-52 | clones are equal exactly when the catalogs are the same up to the order of their sets |
| Canonical.CloneIsIdempotent | internal/config/catalog.go:26-45 | cloning a clone gives it back |
| Text.LessMeans | internal/config/catalog.go:26-45 | one name is before another when, at the first place they differ, it has the smaller character or has ended |
| Canonical.RuleOrderIsTotal | internal/config/quota.go:370-395 | not-after in sortRules is total and transitive |
| Canonical.RuleOrderIsStrict | internal/config/quota.go:370-395 | on well-shaped rules it leaves only equal identities unordered |
| Canonical.RuleOrderMeans | internal/config/quota.go:370-395 | the order: everywhere, pools, nodes; then target; everyone, groups, users; then name; then each before together |
| Canonical.SortedAlike | internal/config/catalog.go:37-39 | two users’ groups sort alike exactly when they are the same groups |
| Normalizing.Normalize | internal/config/catalog.go:57-121 | accepts exactly the sound catalogs; in the result each setting a pool was given stays, each one it left empty is its first member’s, an empty cache directory becomes /var/lib/dtp/cache, and everything else is as authored up to the order of sets; every member runs what the pool that spans it runs |
| Settings.SoundMeansValid | internal/config/catalog.go:57-158 | validation accepts exactly the catalogs whose names are given, distinct and known, whose spans are distinct concrete pools of one runtime and driver, and whose rules are well shaped |
| Settings.PoolsAreFilledIn | internal/config/catalog.go:72-89 | each pool is completed setting by setting as that says |
| Settings.MembersStandIn | internal/config/catalog.go:145-189 | each member of a virtual pool has its runtime and its driver |
| Normalizing.InheritPools | internal/config/catalog.go:72-80 | virtual pools inherit, in place, what they would from the catalog as authored, if and only if every span is sound |
| Normalizing.FillDefaults | internal/config/catalog.go:81-89 | every pool ends up complete, if and only if every runtime is valid |
| Normalizing.CheckSpans | internal/config/catalog.go:124-140 | accepts exactly lists of distinct, known, concrete pools |
| Normalizing.CheckNodes | internal/config/catalog.go:90-110 | accepts exactly distinct named nodes, unassigned or in a concrete pool |
| Normalizing.CheckMembersAgree | internal/config/catalog.go:145-158 | accepts exactly when every member has the pool’s runtime and driver |
| Normalizing.ValidateQuotas | internal/config/quota.go:297-366 | accepts exactly when groups, users and rules are distinct and name only what exists |
| Validation.ValidIgnoresOrder | internal/config/catalog.go:57-121 | validity does not depend on the order of nodes, groups, users, memberships or rules |
| Validation.CloneIsAsValid | internal/config/catalog.go:57-58 | a clone is valid exactly when the catalog is |
| Validation.NormalizeIsIdempotent | internal/config/catalog.go:54-121 | a completed catalog is valid, and completing it again changes nothing |
| CatalogEdits.EditableCatalog.SetNode | internal/config/catalog.go:256-264 | the node replaces the one of its name, in place, or is added |
| CatalogEdits.EditableCatalog.SetUser | internal/config/catalog.go:280-288 | likewise for a user |
| CatalogEdits.EditableCatalog.SetGroup | internal/config/catalog.go:359-367 | likewise for a group |
| CatalogEdits.EditableCatalog.SetPool | internal/config/catalog.go:313-321 | likewise for a pool |
| CatalogEdits.EditableCatalog.SetRule | internal/config/quota.go:259-268 | likewise for a rule, by key |
| CatalogEdits.EditableCatalog.RemoveNode | internal/config/catalog.go:268-277 | found exactly when listed; then the node and the rules scoped to it are gone |
| CatalogEdits.NodeLeaves | internal/config/catalog.go:268-277 | exactly the first node of the name and the rules for that node are gone |
| CatalogEdits.EditableCatalog.RemoveUser | internal/config/catalog.go:292-301 | found exactly when listed; then the user and their own rules are gone |
| CatalogEdits.UserLeaves | internal/config/catalog.go:292-301 | exactly the first user of the name and their own rules are gone |
| CatalogEdits.EditableCatalog.RemovePool | internal/config/catalog.go:326-343 | found exactly when listed; then the pool is gone, from nodes, spans and rules too |
| CatalogEdits.PoolLeaves | internal/config/catalog.go:326-343 | exactly the first pool of the name and the rules for it are gone, its nodes are unassigned, and no pool spans it |
| CatalogEdits.EditableCatalog.RemoveGroup | internal/config/catalog.go:371-383 | found exactly when listed; then the group is gone, from memberships and rules too |
| CatalogEdits.GroupLeaves | internal/config/catalog.go:371-383 | exactly the first group of the name and its rules are gone, and no user is in it |
| CatalogEdits.EditableCatalog.RemoveRule | internal/config/quota.go:271-279 | found exactly when a rule has the key; then that rule is gone |
| CatalogEdits.EditableCatalog.Drop | internal/config/quota.go:282-293 | exactly the rules matched are removed, the others in order |
| EditSafety.RemoveNodeKeepsValid | internal/config/catalog.go:266-277 | forgetting a node keeps a valid catalog valid |
| EditSafety.RemoveUserKeepsValid | internal/config/catalog.go:290-301 | so does removing a user |
| EditSafety.RemoveGroupKeepsValid | internal/config/catalog.go:369-383 | so does removing a group |
| EditSafety.RemoveRuleKeepsValid | internal/config/quota.go:270-279 | so does removing a rule |
| EditSafety.SetNodeKeepsValid | internal/config/catalog.go:255-264 | setting a node keeps it valid exactly when the node is named and has no pool or a concrete one |
| EditSafety.SetUserKeepsValid | internal/config/catalog.go:279-288 | setting a user keeps it valid exactly when they are named and their groups are distinct and known |
| EditSafety.SetGroupKeepsValid | internal/config/catalog.go:358-367 | setting a group keeps it valid exactly when it is named |
| EditSafety.SetRuleKeepsValid | internal/config/quota.go:258-268 | setting a rule keeps it valid exactly when the rule is well shaped and names what exists |
| PoolRemoval.RemovePoolKeepsValid | internal/config/catalog.go:323-343 | removing a pool keeps a valid catalog valid exactly when no virtual pool both spans it alone and has no runtime of its own |
| PoolRemoval.StillAgrees | internal/config/catalog.go:145-189 | a virtual pool that keeps a member inherits the same runtime and driver from whichever comes first |
| CatalogControl.LiveConfig.SetCatalog | internal/config/config.go:197-205 | a valid catalog becomes raw (cloned) and live (completed); any other changes nothing |
| CatalogControl.CatalogScheduler.ApplyCatalog | internal/sched/catalog.go:13-31 | store, raw and live stay in step; an invalid, equal or unsaved catalog changes none of them; an applied one is saved, cloned and completed |
| CatalogControl.CatalogScheduler.ReloadCatalog | internal/sched/catalog.go:34-50 | a valid stored catalog is made live and in step; an invalid one changes nothing |
| Tables.ReplaceHolds | internal/store/catalog_pg.go:157-179 | upserting rows of distinct keys and deleting the others leaves exactly them, keeping insertion times, and update times of unchanged rows |
| Schema.PoolsDeletedHolds | internal/store/sql/schema.sql:64-137 | deleting pools, with its cascades, keeps every constraint |
| Schema.NodesDeletedHolds | internal/store/sql/schema.sql:64-137 | so does deleting nodes |
| Schema.GroupsDeletedHolds | internal/store/sql/schema.sql:64-137 | so does deleting groups |
| Schema.UsersDeletedHolds | internal/store/sql/schema.sql:64-137 | so does deleting users |
| Schema.PoolsHoldMeans | internal/store/sql/schema.sql:43-71 | the constraints on pools and their members, column by column |
| Schema.PeopleHoldMeans | internal/store/sql/schema.sql:73-108 | those on nodes, groups, users and memberships |
| Schema.RulesHoldMeans | internal/store/sql/schema.sql:118-136 | those on rules: each name there exactly where its kind asks for one and referring to a row, and a limit of 32 bits |
| Schema.RuleUpsertHolds | internal/store/sql/schema.sql:117-137 | an upserted rule that passes its checks and refers to existing rows keeps every constraint |
| Schema.Database.UpsertPool | internal/store/catalog_pg.go:173-192 | fails exactly on a name, runtime or driver the schema refuses; keeps every constraint |
| Schema.Database.DeletePools | internal/store/catalog_pg.go:194-196 | deletes the pools not kept, with memberships and rules, and unassigns their nodes; keeps every constraint |
| Schema.Database.InsertPoolMember | internal/store/catalog_pg.go:197-206 | fails exactly on an unknown pool, a pool spanning itself or a repeated row; keeps every constraint |
| Schema.Database.UpsertNode | internal/store/catalog_pg.go:208-217 | fails exactly on an empty name or an unknown pool; keeps every constraint |
| Schema.Database.UpsertRule | internal/store/catalog_pg.go:254-279 | fails exactly on a broken check or a missing reference; keeps every constraint |
| Schema.Database.DeleteRules | internal/store/catalog_pg.go:281-287 | deletes exactly the rules whose rendered key is not kept; keeps every constraint |
| Saving.SavePools | internal/store/catalog_pg.go:167-206 | on success the pools and spans are the catalog’s; for a valid catalog it succeeds exactly when the schema accepts every pool |
| Saving.SaveNodes | internal/store/catalog_pg.go:208-221 | on success the nodes are saved; it succeeds on a valid catalog whose pools are stored |
| Saving.SaveGroups | internal/store/catalog_pg.go:223-235 | succeeds exactly when every group name is accepted |
| Saving.SaveUsers | internal/store/catalog_pg.go:237-257 | on success users and memberships are the catalog’s; it succeeds on a valid catalog whose groups are stored |
| Saving.SaveRules | internal/store/catalog_pg.go:259-287 | for a valid catalog whose names are stored it succeeds exactly when every limit fits the column |
| Saving.SaveCatalogTx | internal/store/catalog_pg.go:145-288 | every constraint holds after every statement; for a valid catalog it succeeds exactly when the schema accepts its values |
| Saving.SaveCatalog | internal/store/catalog_pg.go:129-143 | all of it or nothing: a failed statement or commit leaves the tables as they were |
| Replacing.RulesCascade | internal/store/sql/schema.sql:117-137 | deleting pools, nodes, groups and users takes exactly the rules that named one of them |
| Replacing.RulesReplaced | internal/store/catalog_pg.go:259-287 | the rules left are the catalog’s, and old ones whose rendered key reads as one of the catalog’s, untouched |
| Replacing.RulesExact | internal/store/catalog_pg.go:281-287 | the rules are exactly the catalog’s if and only if there is no such old rule |
| Replacing.NothingStale | internal/store/catalog_pg.go:281-287 | there is none when no rule, old or new, names a user with an @ |
| Replacing.SaveReplacesEverything | internal/store/catalog_pg.go:145-288 | whatever consistent rows the tables held, a save leaves exactly the catalog’s rows, memberships and positions if and only if no old rule is stale, and but for stale rules always |
| Replacing.SaveWithoutAts | internal/store/catalog_pg.go:145-288 | none is when no rule, old or new, names a user with an @ |
| Replacing.SaveKeepsStamps | internal/store/catalog_pg.go:150-153 | rows that stay keep their insertion time, and their update time unless they change |
| Replacing.ARuleLingers | internal/store/catalog_pg.go:281-287 | with an @ in a user’s name a dropped rule can be stale, and stays: a concrete database and catalog |
| Loading.LoadCatalog | internal/store/catalog_pg.go:25-106 | none exactly when there are no pools; otherwise the catalog read from some answer to the queries |
| Loading.LoadPools | internal/store/catalog_pg.go:42-61 | each pool gets its members in the order of their rows |
| Loading.LoadUsers | internal/store/catalog_pg.go:79-93 | each user gets the groups of their membership rows |
| Reloading.SpansReadBack | internal/store/catalog_pg.go:54-61 | a pool’s members come back in the order they were authored |
| Reloading.PoolsReadBack | internal/store/catalog_pg.go:36-61 | the pools come back as they were exactly when no command has the element "NULL" |
| Reloading.LoadGivesBack | internal/store/catalog_pg.go:25-126 | tables that hold a valid catalog load as it, up to the order of its sets, exactly when no command has the element "NULL" |
| Reloading.SavedLoadsBack | internal/store/catalog_pg.go:25-288 | what a save left loads as the catalog saved if and only if no command has the element NULL and no old rule was stale; a catalog without pools reads as never seeded |
| BuildCache.StepKeepsExclusive | internal/runner/cache.go:59-72 | no step lets two processes hold the lock, if a stale lock is removed only when nobody holds it |
| BuildCache.ReadyStays | internal/runner/cache.go:74-131 | no step removes or replaces a ready entry |
| BuildCache.StepKeepsInv | internal/runner/cache.go:37-131 | every step of any process keeps the protocol’s invariant |
| BuildCache.RunsAreSafe | internal/runner/cache.go:37-131 | in every run of any number of processes in which stale locks are removed only when nobody holds them, the invariant holds and ready entries stay |
| BuildCache.RunsFromRest | internal/runner/cache.go:37-131 | from a node at rest, whatever was left behind: at most one process is between taking the lock and letting it go, and whoever has returned was given a checked entry |
| BuildCache.StealingIsSafe | internal/runner/cache.go:226-229 | removing a lock file as stale keeps the lock exclusive, and the whole invariant, if and only if nobody holds it |
| BuildCache.ReturnedIsGood | internal/runner/cache.go:46-71 | every path returned belongs to an entry with its marker over a whole payload unpacked from bytes whose checksum is the declared one, letter by letter but for case |
| BuildCache.TakeoverBreaksExclusion | internal/runner/cache.go:226-230 | two processes that find the lock of a crashed one stale: the second removes the lock the first has just taken, and both go to work |
| BuildCache.OthersMeanwhile | internal/runner/cache.go:37-131 | what other processes do in a run is what one call may rely on |
| BuildCache.Cache.Ensure | internal/runner/cache.go:37-131 | one call, whatever the others do meanwhile: a path is returned only for an entry unpacked from bytes of the declared checksum, one that was there is returned and stays, and an undisturbed call on a good download succeeds |
| BuildCache.Cache.Populate | internal/runner/cache.go:80-129 | under the lock an entry is published only whole and checked; a download whose checksum differs from the declared one at any character, case aside, or one of an unknown format, is never published |
| BuildCache.MatchesMeans | internal/runner/cache.go:93-95 | checksums match exactly when they are of one length with the same character, or one letter in two cases, at each place |
| BuildCache.GoodIsChecked | internal/runner/cache.go:80-129 | a good entry is marked, whole, and of that checksum; with lower-case checksums, of exactly that one |
| BuildCache.Cache.WaitReady | internal/runner/cache.go:233-246 | true only when the marker is there; false only after polling for as long as patience lasts, the marker missing each time |
| Yaml.SplitKey | internal/yamlite/yamlite.go:186-209 | the scan cuts at the first colon outside quotes that ends the text or precedes a space |
| Text.TrimSpaceMeans | internal/yamlite/yamlite.go:186-209 | what trimming cuts off is blank, and what is left neither begins nor ends with a blank |
| Yaml.StripComment | internal/yamlite/yamlite.go:305-322 | the scan drops a # outside quotes at the start or after a blank, and what follows |
| YamlScans.KeyEndsAtColon | internal/yamlite/yamlite.go:186-209 | on any text whose quotes are closed, the key ends at the first colon outside quotes that ends the line or comes before a space, and there is none without one |
| YamlScans.CommentIsCut | internal/yamlite/yamlite.go:305-322 | on any text whose quotes are closed, the comment begins at the first # outside quotes that begins the line or follows a blank, and there is none without one |
| Yaml.SplitFlow | internal/yamlite/yamlite.go:283-302 | the scan cuts at commas outside quotes |
| Yaml.Parse | internal/yamlite/yamlite.go:33-58 | the document’s value by the grammar of Document: all lines, or an error |
| Yaml.Parser.ParseMapping | internal/yamlite/yamlite.go:78-124 | the loop reads the lines and value the function Mapping does, and ends |
| Yaml.Parser.ParseSequence | internal/yamlite/yamlite.go:126-182 | the loop reads the lines and value the function Sequence does, and ends |
| Yaml.Parser.ParseBlock | internal/yamlite/yamlite.go:71-76 | a block is a sequence or a mapping by its first line |
| YamlTrees.BlockReads | internal/yamlite/yamlite.go:71-182 | the lines of a printed tree are read back as its value, and what follows is left |
| YamlTokens.QuotedReads | internal/yamlite/yamlite.go:263-280 | a single-quoted string with doubled quotes is read back |
| YamlTokens.TokenReads | internal/yamlite/yamlite.go:221-302 | a quoted string stays a string; a plain word is null, a truth value, a number or itself by what it spells; a bracketed list of words is read as the list of their values |
| YamlTokens.FlowReads | internal/yamlite/yamlite.go:221-302 | a list of words in brackets, empty ones included, is read back word by word |
| YamlDocuments.PrintedTreeParses | internal/yamlite/yamlite.go:33-182 | every tree of non-empty mappings with plain keys, non-empty sequences, one-line single-quoted strings, plain words (null, truth values, numbers and text) and bracketed lists of words, printed at any deeper indentation, parses back, every line read (a subset of sections 7 and 8.2 of YAML 1.2.2) |
| YamlDocuments.InlineKeyKept | internal/yamlite/yamlite.go:150-171 | an item "- key: rest" is a mapping that has the key if and only if something follows the colon or the lines below have the key again |
| YamlDocuments.InlineKeyIsLost | internal/yamlite/yamlite.go:150-171 | below "- key:" the lines are the item itself: an empty mapping without any, their mapping when they make one, an error otherwise |
| YamlDocuments.InlineSequenceIsRejected | internal/yamlite/yamlite.go:150-171 | a sequence below "- key: rest" is an error |
| YamlDocuments.TreeTakesThePlaceOfItsKey | internal/yamlite/yamlite.go:150-171 | so every tree of mappings printed below "- key:" is read in place of the key |

## Left out

- Messages, notes, log lines, exit codes on runs, artifacts, cases, labels, builds, priorities' meaning, and the regression's `Groups` field: carried along by the program and never read by what is modelled.
- `Submission.Normalize` and `mergeMap`: suites are taken as already normalized; only the checks of `Submit` itself and the distinctness of suite names are modelled, with the build repository as a parameter that finds a suite's builds or does not.
- `SanitizeID` (it leaves "catalog" as it is), random ids and tokens: a fresh id and a fresh token are assumed, and ids and tokens are never reused.
- Pointers to runs: a run's id stands for the pointer; sharing of run values between the store and its callers is not modelled, nor is the sharing of slices that editing a catalog in place could cause.
- Locks, goroutines, the change signal for long polls, and interleavings finer than one call or one tick.
- Nomad, S3, HTTP handlers, the dashboard, the agent, archive extraction and the PostgreSQL wire protocol: a dispatch succeeds or fails and a poll answers anything, by parameters.
- The text of SQL statements, of JSON and of XML: statements are their effect on the tables, a catalog's JSON is its value (strings that are not valid UTF-8 or hold a NUL byte are not modelled), a report is its tree of suites and cases.
- `ORDER BY` beyond what the loader depends on: pools and spans come in order of position, everything else in any order.
- Columns for positions wider than the catalog, and numbers beyond 32 bits other than a rule's limit.
- Kinds as strings: an unknown kind is carried as such; a known kind is always its own constructor.
- Unicode: strings are sequences of characters compared by code; `TrimSpace` knows the blanks below U+0100.
- SplitIsByTokens: does not cover scripts with an unclosed quote, dollar quote or comment; SplitStatements itself is proved to end on them with the statements Split gives.
- PrintedTreeParses: double-quoted strings, and brackets or quotes inside brackets, are read by Scalar, with number and escape conversions as parameters, but are not in the printed trees; nor are plain words with characters other than letters, digits, spaces and _ . / - ~ +.
- Error values: which of several faults a rejected catalog, document or submission is blamed for.
- The inventory refresh at the start of a tick: the inventory is fixed.
- LedgerObject.Ledger.constructor: well-formedness is claimed for inventories in which no node id occurs twice; so are the contracts of Admit and Tick.
- Schedulers.Scheduler.Finish: verdicts are the terminal states other than canceled, and so are the states of finished reports in Ingest and IngestVerdict; a report with another state is not modelled.
- Stores.Store.UpdateRun: callbacks leave a run's ids, token, suite and attempt alone, those of UpdateRegression the id and the suites; the runs given to Create and AddRun have ids and tokens of their own. The program has no others.
- Stores.Store.Open: the files are those a reliable backend wrote; a directory edited by hand, or one where writes failed, is not modelled.
- BuildCache.Cache.AcquireLock: one call's own view has no stale locks; they are in the steps of all processes.
- Removing directories and renaming are single steps in the build cache; the removal of leftovers is taken to succeed, as the program takes it.
- Durations of tests, and the manifest written after a regression ends.
