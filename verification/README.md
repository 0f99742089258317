# tierd, modelled and proved

This project models the stateful core of `tierd`, the service that scores AI-assisted
development against what it cost, and proves properties of it with Dafny 4.11.
`dafny verify dfyconfig.toml` checks everything.

It covers:

- the **subscription-fee reconciler** and the spend ledger it posts to, over whole histories of
  processes that start, tick, fail, lose acknowledgements, are cancelled and restart with edited
  configuration; and the **seal gate** that relies on what the reconciler announces
  (`Periods`, `FeeLedger`, `FeeReconciler`, `FeeHistory`, `FeeTheorems`, `SourceWatermark`, `SealedFees`);
- the **shutdown and join protocol** of `tierd serve`, as interleaved steps of the serve
  goroutine, the four joined writers and the clock (`Shutdown`);
- the **history scan** of `tierd backfill`, its store, and its **retry client**
  (`OutcomeStore`, `HistoryScan`, `HistoryTheorems`, `RetryClient`);
- the **argument preflight** of `tierd score` against Go's own flag parser (`ScoreFlags`, and
  `ScoreRejects` for the lists the parser rejects);
- the **exclusion plan** and the **CI-trigger plan**: build, validate, recheck, apply and apply again
  (`RepoId`, `Checklist`, `RevertPlan`, `RevertApply`, `CITrigger`, `TriggerApply`);
- the **k-anonymity floor on a two-window comparison** (`KAnonymity`, `CompareTeams`);
- the **WAL-size tripwire** and the **repair mapping** merge (`WalTripwire`, `RepairMapping`).

Code that updates state is a class or a loop proved against a function of the old state; the
theorems are then about that function.

## What the model takes as given

- A billing period is a month index. The code compares `"YYYY-MM"` strings; `Periods.FormatOrder`
  proves that the two orders agree, so nothing is lost.
- The world outside is a parameter: `Weather` says when a context is first seen cancelled and what
  befalls each store call; a `Fault` is a rollback, or a commit whose acknowledgement is lost. The
  theorems hold for every such parameter.
- The store's methods are modelled from their own code: a fee post is one transaction over the rows
  under one (org, period, source) key; an outcome insert is first-row-wins by merge SHA and barred by
  an exclusion, with rows that have no SHA outside the unique index; an applied exclusion is
  idempotent under the same plan digest and row.
- In the shutdown model time passes in units, and a `select` does not sleep past its own timer. A
  writer may return at any time or never, except the pruner, whose only exits are on cancellation
  (`Shutdown.PrunerLoop`).
- `flag.Parse` is modelled from the Go standard library's documented traversal.
- Durations are signed 64-bit nanoseconds: multiplication wraps, `Time.Sub` saturates. The
  delay-seconds form of `Retry-After` is that of section 10.2.3 of RFC 9110.

## Findings

- The comment at `cmd/tierd/backfill.go:728-733` says a far-future header cannot busy-loop. Either
  header can. A `Retry-After` of 9,223,372,037 seconds overflows into a negative duration; the client
  then falls through to `X-RateLimit-Reset`, and with none it can read, or one no more than a second
  away, retries after one second (`RetryClient.HugeRetryAfterRetriesAtOnce`). An `X-RateLimit-Reset` of
  2^63-1, which the ceiling's own comment at `:500-503` means to bound, wraps into the far past, and the
  client retries after one second as well (`RetryClient.FarResetRetriesAtOnce`).
  `RetryClient.WaitIsMeantIff` is the exact condition over all headers under which the wait is what they
  ask for; `RetryClient.RetryAfterHonoured` and `RetryClient.ResetHonoured` are its two halves.
- Closed months are protected by the clock alone: after a fee edit, one pass under a clock set back
  into a closed month restates it (`FeeTheorems.ClockSetBackRestates`). `FeeTheorems.ChangedIffRestated`
  says exactly which histories change a posted month, `FeeTheorems.EventRestates` which single events.
- The comparison's own residual check never fails alone: whenever it fails, one of the two windows'
  own residuals is unsafe as well (`CompareTeams.OwnCheckNeverFailsAlone`).
- The backfill tally documents `skipped` as "ON CONFLICT DO NOTHING no-ops (already present:
  replay/overlap)" (`cmd/tierd/backfill.go:285`). Also counted there, with nothing present, are a PR whose
  fetched author is no longer the requested owner, one whose detail is no longer merged, and one whose
  merge was once excluded as a revert (`HistoryTheorems.SkippedWithoutConflict`). `skipped` means what it
  says exactly when a scan meets none of the three (`HistoryTheorems.SkippedIsConflictsIff`).
- The preflight's comment at `cmd/tierd/score_outcomes.go:30-32` says that arguments `flag.Parse` would
  not read never enable or refuse. That holds on every list the parser accepts
  (`ScoreRejects.UnreadIgnoredWhenParsed`) and fails on rejected ones: after an undefined flag, where the
  parser gives up, an `--outcomes` still does both (`ScoreRejects.UnreadEnables`).
  `ScoreRejects.RunsOnIff` says exactly when the scan reads on, and `ScoreRejects.UnreadSwaysIff` exactly
  when what it reads there sways the verdict.
- Unlike an exclusion plan, a trigger plan cannot always be applied again after an interruption: the
  recheck takes an API-sourced row that a run has filled for one that changed, and refuses the plan. It
  may be applied again exactly when the run filled no such row (`TriggerApply.AppliesAgainIff`).

## Model

The first 42 rows are the main results, the last 17 the small facts they rest on; between them come
the operations and the lemmas that carry the proofs, module by module.

| member | source | states |
|---|---|---|
| FeeTheorems.SettledSound | cmd/tierd/subscription.go:160-354 | Over every run of starts, failures, lost acknowledgements, cancellations and month jumps, every settled announcement ever made is true of the ledger now: each owed month in it is posted for each subscription. |
| SealedFees.CertifiedMonthIsPosted | internal/api/seal.go:429-447 | If the gate certifies a month for the fee source, every subscription that owes the month under the announcing configuration has its fee in the ledger now. |
| SealedFees.CatchUpCertified | cmd/tierd/subscription.go:138-169 | A process starts, its passes fail any number of times, then one is clean and recorded, with every active_since in range and no earlier clock ahead of its own: from then on, whatever happens, every month from each subscription's active_since through that pass's month is certified and its fee is posted. |
| FeeTheorems.Confluence | cmd/tierd/subscription.go:150-156 | In one month under one configuration, any mixture of broken passes and restarts stays between the start and the uninterrupted result, and one clean catch-up pass makes the ledger exactly the uninterrupted one's, for good. |
| FeeTheorems.ChangedIffRestated | cmd/tierd/subscription.go:257-267 | Over any history a posted cell changes if and only if some pass takes its month to be current and commits a converging post with a fee other than the net it finds; entries only ever grow. |
| FeeTheorems.ClosedNeverRestated | cmd/tierd/subscription.go:28-34 | Once a month is posted and no later pass takes it to be current, as under a clock that has left it, no fee edit, restart, failure or retry changes its entries. |
| FeeTheorems.CurrentNetIsFee | cmd/tierd/subscription.go:257-267 | After each clean pass the current month's net is the configured fee, for every subscription. |
| FeeReconciler.ReconcileOnce | cmd/tierd/subscription.go:188-354 | One pass does to the ledger exactly what its planned posts do up to the cancel, reports ok exactly when all succeeded uncancelled, and then its `first` bounds what every subscription had posted. |
| SourceWatermark.CoversSound | internal/store/source_watermark.go:150-156 | Whatever passes a source made, in whatever order, every instant the watermark covers was proved by one of them: no gap is certified. |
| Shutdown.ShutdownSafe | cmd/tierd/main.go:2338-2470 | At every state of every run: the store is closed only after the cancel and once each writer returned or its own join waited out its timeout; at most one join; at most four timeouts of waiting. |
| Shutdown.ExitedOnce | cmd/tierd/main.go:2028-2044 | Every finished run closed the store, joined exactly once, found a writer live, reported the drain exactly on the abrupt exits, and drained HTTP exactly on the others. |
| Shutdown.OrderlyDrainsHttp | cmd/tierd/main.go:2340-2397 | A run that has closed the store drained HTTP before, after the cancel and with every writer returned or waited out, if and only if its exit was orderly; an abrupt one never does. |
| Shutdown.ExitNeverHangs | cmd/tierd/main.go:2390-2460 | On every run from any point of the way out, under every schedule: at most 64 steps of the serve goroutine, at most four drain timeouts and one HTTP timeout of waiting, and wherever it stands it has exited or can go on without any writer. |
| CompareTeams.PublishedIffNothingLeaks | internal/api/compare.go:396-424 | The comparison is published if and only if, in each window, nothing derivable from named rows and the comparison's residual falls short of the floor. |
| CompareTeams.NothingSubKDerivable | internal/api/compare.go:386-424 | When a window's own residual is safe, as in every published comparison of it, every group of rows a reader can form from its own rows, its total and any number of its comparisons, by any sums, differences and intersections, clears the floor or holds nothing measured. |
| CompareTeams.CompareTeams | internal/api/compare.go:396-424 | Nothing is published if any of the three checks withholds, and the declared count is the largest of those that did; otherwise every jointly eligible group is, and in both windows each of them stands on k counted developers, as do the residuals unless they are all zeros. |
| CompareTeams.NamedIffStandsOnK | internal/scoring/engine.go:677-795 | A group has a row in the comparison if and only if, in both windows, k counted developers were active in it and behind each figure it shows there are k of them with such a figure of their own, a cost being one a shared collector captured. |
| CompareTeams.DerivedStandsOnK | internal/scoring/engine.go:677-830 | Whatever group of rows a reader forms from what is published about a window stands on k counted developers in that sense, or is all zeros. |
| HistoryScan.BackfillOutcomes | cmd/tierd/backfill.go:302-373 | The paged loop with its three ways to end does exactly what handing the wanted PRs over one by one does, tally included, hands over all of them when it ends without an error, and ends at a page whose listing fails exactly when it gets to list that page. |
| HistoryScan.ScanComplete | cmd/tierd/backfill.go:289-347 | For a list sorted by update time, with merges no later than updates and below the page ceiling, the early stop and the short-page stop lose no merge: handed on are exactly the PRs merged at or after the start, by the owner asked for in any case. |
| HistoryTheorems.RescanInsertsNothing | cmd/tierd/backfill.go:296-298 | After a scan that ended without an error, scanning the unchanged history again inserts nothing, whatever was inserted or excluded in between and whatever fails. |
| HistoryTheorems.FirstRowStays | cmd/tierd/backfill.go:16-21 | At every point of any scan no two outcomes share a merge, no excluded merge has one, and a row for a merge that had one before is that first row. |
| HistoryTheorems.SkippedIsConflictsIff | cmd/tierd/backfill.go:285 | Over any scan skipped is the inserts that met a row already present, as documented, if and only if no PR examined had a detail that did not confirm the list and none to be inserted had its merge excluded; it is never less. |
| HistoryTheorems.TallyCounts | cmd/tierd/backfill.go:349-366 | Over any scan excluded is the confirmed PRs with revert evidence, unattributed the confirmed ones without that have no issue or a reserved author, and inserted the other confirmed ones whose merges were not known. |
| RetryClient.Do | cmd/tierd/backfill.go:633-722 | The loop ends within ten requests and waits the sum of the specified waits. Told by the replies: it ends with a body on a 200; refused on a refused redirect or a status below 500 that is no 200, no 429 and no 403 with a Retry-After or nothing remaining; at the fifth reply of the latter kind, or the sixth 5xx, transport or read error; or at the cancel. |
| RetryClient.WaitIsMeantIff | cmd/tierd/backfill.go:726-770 | Over all headers, the client waits what they ask for, counted in unbounded numbers and held to the bounds, if and only if a positive Retry-After fits a duration (or wraps to at least the ceiling, or to nothing positive with a storable reset a ceiling away), and, where there is none, the reset is storable. |
| ScoreFlags.PreflightAgrees | cmd/tierd/main.go:440-456 | Wherever parsing succeeds, the scan's verdict is the parsed --outcomes, and it refuses if and only if that is on and --developer was set. |
| ScoreRejects.UnreadSwaysIff | cmd/tierd/score_outcomes.go:30-32 | On any list, arguments the parser never reads sway the verdict if and only if the last --outcomes among the flags taken from them turns the mode, or the mode is on, nothing read is refusable and one of them is. |
| RevertApply.ApplyRevertPlan | cmd/tierd/outcomes.go:301-376 | Nothing is written unless the plan is valid, approved by digest and current as a whole; otherwise the rows are applied in order up to the first refusal, and the report is that of the run. |
| RevertApply.OnlyRevertsLeave | cmd/tierd/outcomes.go:301-376 | Whatever fails, an outcome leaves the table only if the approved plan excludes exactly it, unchanged, with a qualified repository, its merge and a revert form as evidence, still told by a retained delivery if it came from one; and its exclusion names that row and plan. |
| RevertApply.ResumeCommitsTheRest | cmd/tierd/outcomes.go:350-372 | After a run that stopped anywhere for any reason, running the same plan again completes if and only if the plan was fit to, and then commits exactly the rows the first did not. |
| RevertApply.ResumeConverges | cmd/tierd/outcomes.go:350-372 | However many runs of a plan fit to complete stopped, wherever and why, one without a fault then completes and leaves the database of one uninterrupted run. |
| RevertPlan.BuiltPlanValidates | cmd/tierd/outcomes.go:67-111 | A built plan validates if and only if its candidates have distinct positive ids and positive PR numbers. |
| RevertPlan.BuiltPlanCurrent | cmd/tierd/outcomes.go:336-353 | Against unchanged deliveries a built plan passes the payload recheck. |
| RevertPlan.PreferredRevertPayloads | cmd/tierd/outcomes.go:379-400 | For every key, the map holds the newest usable closed-and-merged delivery if the merge is known and there is one, else the newest usable one, else nothing. |
| CITrigger.UniqueTrigger | cmd/tierd/quality.go:313-332 | A trigger is settled if and only if there are runs, all valid, agreeing on id, attempt and event; it is then that event, normalized. |
| CITrigger.BuiltPlanValidates | cmd/tierd/quality.go:240-307 | A built plan validates if and only if its events have distinct positive ids, positive outcome ids and CI types. |
| TriggerApply.ApplyTriggerPlan | cmd/tierd/quality.go:79-174 | Nothing is written unless the plan is valid, approved by digest and current as a whole; otherwise the resolved rows are filled in order up to the first refusal, and the report is that of the run. |
| TriggerApply.OnlySettledFilled | cmd/tierd/quality.go:79-174 | Whatever fails, a fact changes only by gaining the trigger a row of the approved plan gives its event, unchanged, unsealed and without one before; for a payload row it is what all completed deliveries of that repository, workflow and attempt on the merge commit agree on. |
| TriggerApply.AppliesAgainIff | cmd/tierd/quality.go:120-147 | After any run of a valid plan, completed or not, the same plan passes the recheck again if and only if that run filled no API row. |
| WalTripwire.Tripwire.Run | cmd/tierd/main.go:2636-2697 | Over any samples: as many warnings as maximal over-limit runs, a gauge holding the last reading, and an error count of the failed stats. |
| RepairMapping.LoadRepairMapping | cmd/tierd/repairrepo.go:178-245 | Loading succeeds if and only if every entry is well formed and no session has two repositories, and the mapping then says exactly what the entries say. |
| Periods.FormatOrder | internal/store/subscription.go:80-113 | String order on zero-padded periods is chronological and formatting is injective, so min, max and equality on period strings are those on months; the empty string is below every period. |
| Periods.PeriodRange | internal/store/subscription.go:72-113 | A range succeeds exactly when it is not inverted and spans at most 240 months, and is then every month from first to last, ascending. |
| FeeLedger.Ledger.ReconcileSubscriptionFee | internal/store/subscription.go:161-205 | The converging post: the whole new ledger and answer as specified, and on success the net is exactly the fee. |
| FeeLedger.Ledger.PostSubscriptionFeeIfUnposted | internal/store/subscription.go:207-285 | The filling post: the whole new ledger and answer as specified, and a month this route ever posted is left alone. |
| FeeReconciler.SubscriptionPeriods | cmd/tierd/subscription.go:118-136 | The catch-up months of a subscription are active_since through the current month, or the current month alone, and an unusable range is an error. |
| FeeReconciler.VisitPeriods | cmd/tierd/subscription.go:209-238 | The head of the outer loop keeps `first` and `since` meaning what they must: current as soon as some subscription was not backfilled, and the earliest backfilled active_since. |
| FeeReconciler.PostPeriods | cmd/tierd/subscription.go:239-345 | The inner loop attempts a subscription's posts in order, stops at the first check that sees the cancel, and remembers any failure. |
| FeeHistory.Reconciler.Pass | cmd/tierd/subscription.go:160-186 | One turn of the loop is one step of the history: a clean pass announces, once, from the bound it vouches from through the current month, any other announces nothing, and the backfill latch falls only then. |
| FeeHistory.Reconciler.Run | cmd/tierd/subscription.go:138-186 | The goroutine over any sequence of ticks plays exactly the modelled history, so the theorems about histories are about it. |
| FeeTheorems.PassAnnounces | cmd/tierd/subscription.go:160-169 | In every world a clean pass with anything to post for adds one settlement of its configuration, from the bound it vouches from, no later than the current month, through that month; any other pass adds none. |
| FeeTheorems.CleanMeans | cmd/tierd/subscription.go:239-354 | A pass is clean if and only if no post rolls back, an acknowledgement is lost only where there was nothing to write, and no check sees the cancel, not even the one after the last post. |
| FeeTheorems.CleanPassEndsCatchUp | cmd/tierd/subscription.go:145-150 | After a clean pass, until the next start, a pass in any month plans one converging post for each subscription, to that month, and no other. |
| FeeTheorems.ValidCellsDistinct | internal/config/config.go:213-286 | Under the configuration the validator accepts (no route a prefix of another), no two posts of a pass fall under one ledger key. |
| FeeTheorems.AfterAtCell | cmd/tierd/subscription.go:239-345 | A pass changes each planned cell by its own post alone, whatever happens to the others. |
| FeeTheorems.CleanPassRestates | cmd/tierd/subscription.go:28-34 | A clean pass changes a posted month if and only if it is the current one and its net is not the fee. |
| FeeTheorems.ClockSetBackRestates | cmd/tierd/subscription.go:257-267 | A concrete history with a clock set back in which a closed month is restated from 100 to 120. |
| FeeTheorems.CaughtUpChangesNothing | cmd/tierd/subscription.go:150-156 | After catching up, a further pass (of either kind, under any faults) leaves the ledger equal. |
| FeeTheorems.CaughtUpPostsZero | internal/store/subscription.go:161-285 | After catching up, every post that answers reports a zero delta. |
| FeeTheorems.EventRestates | cmd/tierd/subscription.go:257-267 | Any event, clean or broken, changes a posted cell if and only if it is a pass in that month that commits a converging post with a fee other than the net. |
| SourceWatermark.WatermarkRow.Advance | internal/store/source_watermark.go:150-193 | The two statements of the advance, run in place, leave the row as specified; an inverted span is refused and changes nothing. |
| SourceWatermark.CoversKept | internal/store/source_watermark.go:80-89 | No advance ever takes a certificate away. |
| SealedFees.GateFollowsAnnouncements | cmd/tierd/sealsources.go:51-63 | Whether or not each watermark write takes effect, the row covers only what was announced. |
| SealedFees.CleanPassCertifies | internal/store/source_watermark.go:150-193 | After a recorded clean pass the gate certifies everything it vouched for if and only if the open run did not begin after its month, or it was certified before. |
| SealedFees.CertifiedFromThenOn | cmd/tierd/subscription.go:160-169 | Unless an earlier pass ran under a clock ahead of its own, what a clean pass vouched for is certified from then on. |
| Shutdown.StepKeepsInvariant | cmd/tierd/main.go:2002-2044 | The inductive invariant of the exit protocol is kept by every step of every interleaving. |
| Shutdown.FlagAfterHttp | cmd/tierd/main.go:2390-2397 | On every run the flag that the shutdown joined is set only after the HTTP drain. |
| Shutdown.PrunerLoop | cmd/tierd/webhook_prune.go:30-51 | The pruner ends exactly at the first turn that is the cancel or a failure seen under it, and outlives every other failure. |
| Shutdown.LeavingStep | cmd/tierd/main.go:2390-2460 | Every single step on the way out: the serve goroutine never turns back, each of its steps is progress, each unit it waits is one less to wait, and writers change neither. |
| Shutdown.ExitWithoutWriters | cmd/tierd/main.go:2422-2427 | From any point of the way out there is a run to the end on which no writer moves. |
| OutcomeStore.Store.RecordPROutcome | internal/store/store.go:5678-5745 | Insert-if-absent by merge SHA: reports an insert exactly when the merge was unknown, never replaces a row, keeps an excluded merge out, and inserts a row without a SHA unconditionally. |
| OutcomeStore.Store.ExcludePROutcome | internal/store/exclusions.go:58-190 | The outcome is moved out and a tombstone stays, even when there was no row; without a merge SHA it is refused and changes nothing. |
| OutcomeStore.WrittenKeeps | internal/store/store.go:5678-5745 | Either write keeps the table free of two outcomes for one merge and of outcomes for excluded merges, and forgets nothing that was not excluded. |
| HistoryScan.ScanMissesExactly | cmd/tierd/backfill.go:289-373 | For any list at all, the scan misses nothing if and only if nothing wanted lies past its stop. |
| HistoryScan.WantedDistinct | cmd/tierd/backfill.go:322-347 | Distinct PR numbers are handed to reconstruction once each. |
| HistoryScan.ReconstructOutcome | cmd/tierd/backfill.go:383-482 | Reconstruction branch by branch, errors included; a stored outcome is in the table afterwards, and a PR reported as skipped had its insert refused exactly when its fetched detail confirmed the list. |
| HistoryTheorems.ScanAccounted | cmd/tierd/backfill.go:16-21 | merged equals inserted plus skipped plus excluded plus unattributed at every point, one more only when a reconstruction failed, and counts the PRs handed on. |
| HistoryTheorems.ExaminedTally | cmd/tierd/backfill.go:355-366 | One PR that does not fail is counted under exactly the class its detail and the store put it in. |
| HistoryTheorems.ExaminedStores | cmd/tierd/backfill.go:383-480 | A revert then has its tombstone and no row; an inserted PR has its row, with its number and issue and the author in the requested owner's own spelling. |
| HistoryTheorems.WritesItsOwn | cmd/tierd/backfill.go:405-480 | Reconstruction takes out the revert's own merge, adds the one row, or writes nothing at all. |
| HistoryTheorems.FailsIff | cmd/tierd/backfill.go:383-480 | Exactly when reconstruction fails: a failed fetch, or, for a confirmed PR, a merge time that does not parse, a declaration not recorded, a revert without a number, or a needed write that fails. |
| HistoryTheorems.ScanKeeps | cmd/tierd/backfill.go:477-481 | Under any interleaving with the webhook, which inserts and excludes in the meantime, what was recorded earlier in a scan is still there as it was unless its merge has been excluded. |
| HistoryTheorems.SkippedCounts | cmd/tierd/backfill.go:355-366 | Over any scan skipped is the conflicts, the barred inserts and the unconfirmed PRs together. |
| HistoryTheorems.SkippedWithoutConflict | cmd/tierd/backfill.go:285 | Three concrete PRs counted as skipped with no row for them present: another author, no longer merged, and barred by an exclusion. |
| HistoryTheorems.ReplayIsConflict | cmd/tierd/backfill.go:383-403 | One PR counted as skipped is such a conflict if and only if its fetched detail confirms the list and its merge is not excluded. |
| HistoryTheorems.ReplayReasons | cmd/tierd/backfill.go:355-366 | A PR is counted as skipped for exactly one of three reasons, a conflict, a barred insert or an unconfirmed detail, and each of them counts it. |
| RetryClient.RetryAfterHonoured | cmd/tierd/backfill.go:726-770 | For any headers, a positive Retry-After is honoured, held to the ceiling, if and only if its length fits a duration, or wraps to at least the ceiling, or wraps to nothing positive while a reset at least a ceiling away stands in. |
| RetryClient.RateLimitWait | cmd/tierd/backfill.go:734-770 | The wait for any headers, overflow and saturation included, is the specified one and lies within one second and 65 minutes. |
| RetryClient.HugeRetryAfterRetriesAtOnce | cmd/tierd/backfill.go:726-770 | A concrete Retry-After for which, with no readable reset or one at most a second away, the client waits one second where the ceiling was meant. |
| RetryClient.RepliesBounded | cmd/tierd/backfill.go:734-783 | Whatever the server answers, each wait fits its budget: the doubling backoff, or one rate-limit ceiling. |
| RetryClient.GoesOnBounded | cmd/tierd/backfill.go:490-508 | Replies that keep the loop going number fewer than ten and cost at most 31 seconds plus four ceilings of 65 minutes. |
| RetryClient.EndsMeans | cmd/tierd/backfill.go:633-722 | However the loop ends, all replies before the last were throttled or broken, at most four and five of them, and each ending is the one the last reply and these counts call for. |
| RetryClient.WaitsMean | cmd/tierd/backfill.go:684-783 | A throttled reply makes the client wait what its headers come to, and a broken one a second doubled for each broken one before. |
| RetryClient.ResetHonoured | cmd/tierd/backfill.go:745-754 | Where the reset decides, the client waits until one second past it, held to the bounds, if and only if it lies no more than 2^63-1 seconds past the internal origin. |
| RetryClient.FarResetRetriesAtOnce | cmd/tierd/backfill.go:502-503 | The farthest reset there is makes the client wait one second where the ceiling was meant. |
| ScoreFlags.PersonalScoreFlags | cmd/tierd/score_outcomes.go:28-59 | The indexed loop with its early break computes the specified scan and refuses with the first forbidden name. |
| ScoreFlags.ParseBoolMeans | cmd/tierd/score_outcomes.go:41-43 | True are 1 and t or true in lower case, upper case or capitalised, false 0 and f or false likewise; nothing else is a boolean. |
| ScoreFlags.ScanAgreesWithParse | cmd/tierd/score_outcomes.go:28-59 | Step by step, what the scan has seen is what the parser has stored, on every argument list the parser accepts. |
| ScoreFlags.StopsWhereParseStops | cmd/tierd/score_outcomes.go:28-37 | On every list the parser accepts, the scan stops at exactly the argument the parser stops at. |
| ScoreFlags.TailIgnored | cmd/tierd/score_outcomes.go:30-32 | On any arguments, parseable or not, nothing after the stop influences the verdict. |
| ScoreFlags.ParseTailIgnored | cmd/tierd/score_outcomes.go:30-32 | The parser, too, succeeds or fails and stores its values by the arguments up to the stop alone. |
| ScoreRejects.RunsOnIff | cmd/tierd/score_outcomes.go:30-32 | The scan never stops short of what the parser reads, and runs on past it exactly when parsing fails with arguments left of which the next is no stop, or the malformed one is spelled like a flag that takes it. |
| ScoreRejects.UnreadEnables | cmd/tierd/score_outcomes.go:30-32 | After an undefined flag an --outcomes the parser never reads both enables personal mode and makes the preflight refuse. |
| ScoreRejects.ReadDecides | cmd/tierd/score_outcomes.go:30-32 | Where the scan does not run on, its verdict is that of the arguments the parser reads. |
| ScoreRejects.ScanMeans | cmd/tierd/score_outcomes.go:32-59 | On any list, the last --outcomes taken decides the mode and the first refusable flag taken is the one named. |
| ScoreRejects.FailsIff | cmd/tierd/main.go:449-456 | Parsing fails exactly when what comes after the accepted flags is neither the end nor a stop. |
| ScoreRejects.UnreadIgnoredWhenParsed | cmd/tierd/score_outcomes.go:30-32 | On every list the parser accepts, arguments it does not read never enable or refuse. |
| RepoId.Canonicalize | internal/repoid/repoid.go:58-120 | The peel loop computes the canonical slug, or none. |
| RepoId.CanonicalIdempotent | internal/repoid/repoid.go:58-120 | A canonical slug is its own canonical form, so joins on it meet. |
| RepoId.CanonicalShape | internal/repoid/repoid.go:50-120 | A canonical slug is lower-case segments between single slashes, at least two, none empty at an end and no ".git" after the last. |
| RepoId.OwnerRepoStands | internal/repoid/repoid.go:98-120 | An owner and a repository name of lower-case letters, digits and ".-_", neither a dot or two, are canonical as they stand, within the length bound, if and only if the latter does not end in ".git". |
| RepoId.DecoratedMeets | internal/repoid/repoid.go:66-96 | A ".git", a slash, or both, after a canonical slug lead to the same slug, within the length bound. |
| RepoId.CaseMeets | internal/repoid/repoid.go:58-66 | Spellings that differ in case alone canonicalize alike, within the length bound. |
| RevertPlan.LaterEditsIgnored | cmd/tierd/outcomes.go:379-380 | Prepending newer deliveries of which none is closed and merged never displaces a closed-and-merged choice. |
| RevertPlan.IsRevertMeans | internal/prderive/prderive.go:146-160 | Revert evidence is a branch "revert-", a number and a dash, or a title that starts with Revert and a double quote. |
| RevertPlan.PreferredMeans | cmd/tierd/outcomes.go:379-400 | No delivery speaks only if none tells; the one that does is the newest that tells, or, once a known merge has closed-and-merged ones, the newest of those. |
| RevertPlan.LookupMeans | cmd/tierd/outcomes.go:251-256 | A delivery of the stored merge speaks for it, one that named no merge only if none of those tells. |
| RevertPlan.BuiltRowMeans | cmd/tierd/outcomes.go:247-288 | A built row excludes exactly on revert evidence and keeps exactly on complete evidence of none; source and reason say where the evidence came from and what was missing; there is none exactly when a needed fetch failed. |
| RevertPlan.BuildRevertPlan | cmd/tierd/outcomes.go:232-299 | The build fails exactly when some needed evidence fetch fails, and otherwise its rows and counts are the specified ones. |
| RevertPlan.Validate | cmd/tierd/outcomes.go:67-111 | The validation loop accepts exactly the valid plans: version, distinct positive ids, each verdict backed by its own evidence, and true counts. |
| RevertPlan.ValidPlanMeans | cmd/tierd/outcomes.go:67-111 | A plan is valid if and only if it is of version 1, its outcomes are identified and distinct, each verdict is the one its evidence calls for, with its reason, and the counts are those of its rows. |
| RevertApply.Recheck | cmd/tierd/outcomes.go:335-349 | The recheck passes exactly when every payload row still says what the retained deliveries say. |
| RevertApply.CompletedAccountsForAll | cmd/tierd/outcomes.go:350-375 | On completion applied plus replayed plus skipped is the plan's total. |
| RevertApply.AppliedLeft | cmd/tierd/outcomes.go:354-375 | Applied is the number of outcomes that left the table; only a run that stopped may have moved one more. |
| RevertApply.CompletedCounts | internal/store/exclusions.go:76-104 | On completion applied counts the exclude rows whose outcome was there, and replayed those whose outcome was moved before under the same approval. |
| RevertApply.FaultlessCompletesIff | internal/store/exclusions.go:66-104 | A faultless run completes if and only if no exclude row is stale. |
| CITrigger.RunKeyInjective | cmd/tierd/quality.go:313-323 | The colon-joined decimal key determines id, attempt and event. |
| CITrigger.TriggerOfSet | cmd/tierd/quality.go:313-332 | The answer depends only on the set of runs. |
| CITrigger.BuildTriggerPlan | cmd/tierd/quality.go:267-307 | The build fails exactly when a needed query fails, and otherwise has one row per event, as specified, and true counts. |
| CITrigger.BuiltRowMeans | cmd/tierd/quality.go:278-311 | A payload row's trigger is what the completed deliveries of the event's repository, merge commit, workflow and attempt agree on, an API row's what the fetched runs agree on where there is no such delivery, and a row is unresolved exactly when neither is so. |
| CITrigger.Validate | cmd/tierd/quality.go:240-265 | The validation loop accepts exactly the valid plans. |
| CITrigger.ValidPlanMeans | cmd/tierd/quality.go:240-265 | A plan is valid if and only if it is of version 1, its events are identified, distinct and of CI types, each trigger is of the vocabulary for an event that can be located, and the counts are those of its rows. |
| TriggerApply.AgainConverges | internal/store/quality_triggers.go:129-134 | Where it does and no row was stale, the second run completes and each event ends as one uninterrupted run would have left it. |
| TriggerApply.Recheck | cmd/tierd/quality.go:120-147 | The recheck passes exactly when every API row is still pending as planned and every payload row still settles its trigger. |
| TriggerApply.BuiltPlanCurrent | cmd/tierd/quality.go:120-147 | Against the same deliveries, with its events still pending, a built plan passes the recheck. |
| TriggerApply.RunKeeps | internal/store/quality_triggers.go:125-146 | A run, whatever fails, only fills triggers: one already recorded stays, and no fact of a sealed month is touched. |
| TriggerApply.FilledGained | cmd/tierd/quality.go:148-174 | Filled is the number of events that gained a trigger; only a run that stopped may have filled one more. |
| TriggerApply.FaultlessCompletesIff | internal/store/quality_triggers.go:125-146 | A faultless run completes if and only if no resolved row is stale. |
| TriggerApply.QualityDb.ApplyCITrigger | internal/store/quality_triggers.go:105-146 | One row: refused when its event changed or carries another provenance, kept when it is filled already or sealed, and filled otherwise. |
| KAnonymity.SafeUnion | internal/scoring/engine.go:773-830 | Merging two groups that are safe under the floor, measure by measure, gives a safe group. |
| KAnonymity.ClearsMeans | internal/scoring/engine.go:677-795 | A group clears the floor if and only if it stands on k counted developers, k of them behind each figure it shows. |
| KAnonymity.SafeMeans | internal/scoring/engine.go:797-830 | A group is safe if and only if it does, or all its rows are zeros, the uncounted ones included. |
| CompareTeams.AggregateLabeledKAnon | internal/scoring/engine.go:530-608 | One window's fold, in any visiting order, names exactly the eligible labels and withholds exactly an unsafe residual. |
| CompareTeams.CompareLabeledKAnon | internal/scoring/engine.go:937-1047 | The two-window fold names exactly what is eligible in both windows and withholds when either side's residual is unsafe. |
| CompareTeams.CountIgnoresOrder | internal/api/compare.go:398-422 | Whether anything is withheld, and the declared count, do not depend on which window comes first. |
| CompareTeams.DeclaredIsActive | internal/scoring/engine.go:797-830 | The count declared withheld is that of the active counted developers of the unsafe residual, for a comparison that of the side with more. |
| CompareTeams.UnsafeRestWouldBeDerivable | internal/api/compare.go:396-424 | If a window's own residual is unsafe, it is exactly the comparison's residual less named rows: why the whole comparison is withheld. |
| CompareTeams.TotalLessNamedIsRest | internal/api/compare.go:311-325 | A published total less the named rows is the residual's exact cost: rows reconcile when nothing is withheld, and the total must go when something is. |
| CompareTeams.OwnCheckNeverFailsAlone | internal/api/compare.go:396-424 | Whenever the comparison's own residual check fails, one of the two windows' own residuals is unsafe as well. |
| FeeLedger.StepFrame | internal/store/subscription.go:161-285 | A post touches no key but its own (org, period, route source) and only ever appends there. |
| FeeLedger.PostCommitsOrNot | internal/store/subscription.go:161-285 | Under any fault the entries are either untouched or as the faultless post leaves them, and a caller told of success can rely on the latter. |
| FeeLedger.PostSettles | internal/store/subscription.go:161-285 | After a faultless post the month has a row, a converging post leaves the net equal to the fee, and repeating it writes nothing. |
| FeeHistory.VouchesFromUnique | cmd/tierd/subscription.go:203-238 | The bound a clean pass vouches from is determined by the configuration, the month and the backfill flag. |
| FeeReconciler.OrgKeyMeans | internal/config/config.go:140-148 | A fee posts under the configured org, without one under the route less one slash at its end. |
| SourceWatermark.OwnSpanJoins | internal/store/source_watermark.go:150-193 | The pass's own span ends up inside the current run exactly unless it ended before that run began. |
| SourceWatermark.GapIsTheHole | internal/store/source_watermark.go:150-193 | The recorded gap begins where the run before ended, and is forgotten exactly when the run reaches back over it. |
| OutcomeStore.KeepsTrans | internal/store/pushledger.go:236-256 | What inserts and exclusions preserve composes over any number of them. |
| OutcomeStore.RecordedStays | internal/store/pushledger.go:236-256 | Two rows found for one merge at two times are the same row. |
| RetryClient.BackoffDoubles | cmd/tierd/backfill.go:772-783 | Within the error budget the backoff is exactly one second doubled per attempt; the cap is never reached. |
| RepairMapping.OrderIndependent | cmd/tierd/repairrepo.go:178-245 | Success and result depend only on the set of entries. |
| RepairMapping.ParsedMeans | cmd/tierd/repairrepo.go:228-241 | An entry says the trimmed session before the first "=" and the canonical slug of what follows, and fails if one is missing. |
| Shutdown.SampleKeepsInvariant | cmd/tierd/main.go:2428-2432 | The first join always finds `live` true, because the pruner cannot have returned before the cancel. |
| WalTripwire.Tripwire.Check | cmd/tierd/main.go:2664-2697 | One sample's effect on gauge, error counter and warnings. |
| WalTripwire.TripsAbove | cmd/tierd/main.go:2664-2697 | 64 MiB does not trip, one byte more does. |
| CITrigger.NormalizeIdempotent | internal/qualityrule/resolve.go:213-219 | The vocabulary is nine events and "other", and normalizing twice changes nothing. |
| HistoryScan.LoginsFold | cmd/tierd/backfill.go:343-345 | Logins that differ in case alone are one login. |

## Left out

- HTTP handlers, TLS, tokens, JSON encoding, SQL, logging and metrics registries: plumbing around the modelled logic; a plan's digest is an opaque string compared with the approved one.
- `checkSubscriptionCoverage` and the seat probe of a pass: warnings only, they change no state.
- FeeLedger.Step: amounts are unbounded integers; the store's 64-bit micro-dollar columns are not bounded here.
- SourceWatermark.CoversSound: lost spans and retired sources are not modelled; the fee reconciler records neither.
- Shutdown.ShutdownSafe: the pollers and collectors that are cancelled but never joined are not modelled, and neither are their writes.
- HistoryScan.ScanComplete: the list is the same for every page; a PR that moves across a page boundary during the scan can be missed, as the code's own comment says.
- HistoryScan.ReconstructOutcome: the derivation of the issue id, the size weight and the work type is not modelled; their result is part of the fetched detail.
- OutcomeStore.Store.RecordPROutcome: the push-commit ledger, correction declarations and token attribution that ride in the same transaction, and the erasure of a subject's rows, are not modelled.
- HistoryTheorems.RescanInsertsNothing: a subject's erasure between the scans is outside it; what was erased is inserted again.
- HistoryScan.EqualFold: folds ASCII letters only, which covers GitHub logins.
- RepoId.Canonical: lower-casing outside ASCII is modelled only where it yields an ASCII letter; every other letter is rejected either way.
- RevertApply.ApplyRevertPlan: the check that the plan file's bytes are canonical, and opening the database, come before the modelled part.
- CITrigger.BuildTriggerPlan: a row's source_ref is carried parsed, and the paged API query behind `triggerRuns` is a parameter.
- TriggerApply.ApplyTriggerPlan: the recomputed quality, the audit rows, and the checks on the plan file's bytes and on the actor's name are not modelled.
- CompareTeams.TotalLessNamedIsRest: costs are reals; the order of float additions is not modelled.
- `compareDevelopers`, `teamDeltaOfSides` and `ciDisjoint`: pure arithmetic of a response body.
- Batch ingest counting in `internal/api/events.go`, the worktree audit's counts and the truncated lists of `repair-repo`: sums over one loop, which would add only easy members.
