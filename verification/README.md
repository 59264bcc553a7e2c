# A verified model of the job queue

The project models a job queue that keeps its jobs in a relational table, and proves what the rest of
the system relies on: which jobs a worker may claim and when, what becomes of failed jobs, how flows
of dependent jobs are released, and a few self-contained algorithms around it.

The job table is a map from (queue name, id) to a row. Each SQL statement is one atomic step on it. Where
the database leaves an order or a choice open (which rows a `LIMIT` takes, which singleton row is ranked
first, the order of re-insertion) the results hold for every choice. Clocks, generated ids and the random
draw of the backoff are parameters.

| module | what it holds |
|---|---|
| `Outcomes` | optional values, and what several modules say about numbers, sequences and sets |
| `JobTable` | rows, queues, the partial unique indexes as one predicate, `ON CONFLICT DO NOTHING` |
| `Failing` | retry, terminal failure and the dead-letter queue, in both implementations, and their common closed form |
| `FailedJobs` | what a failed job, its retry and its dead-letter copy hold, column by column |
| `Conservation` | which rows failing leaves and which it can lose, how the two implementations differ |
| `Fetching` | the fetch query as a pipeline: filter, order, limit, singleton ranking, group ranking, claim |
| `FetchedJobs` | what a fetch answers and changes, column by column |
| `Losses` | when the single failing statement can lose a job, from the selection alone |
| `GroupedFetch` | when a fetch may trip over its own index, with or without group limits |
| `Resolution` | releasing the children of completed parents, by batches, in one statement or split |
| `Statements` | the other statements: insert, complete, cancel, resume, retry, touch, update, redrive, retention |
| `Settings` | what inserted, edited and redriven rows hold, and which rows maintenance finds, column by column |
| `Lifecycle` | what each statement may do to a single row |
| `Runs` | states with a history, steps, the invariant of every reachable state |
| `Safety` | what holds over whole runs |
| `Policies` | every row carries its queue's policy or none, in every run |
| `Laws` | how statements act one after the other |
| `Redrives` | what a redrive may drop |
| `Witnesses` | small tables on which a conditional property fails |
| `ReusedKeys` | a run that shows why keys must not be used again |
| `JobStore` | the manager's operations as methods that change the table, one step of a run each |
| `FlowValidation` | structural checks, topological sort and cycle search of a flow |
| `FlowBuilder` | insert payload and dependency rows of a flow |
| `Navigator` | the resolver's pass: groups, chunks, batches, and a stop request at any await |
| `SqlUnits` | lexical units of a query, its meaning with values, and the rewriting of its placeholders |
| `SqlText` | how a query is written part by part, and that every text is written so in exactly one way |
| `SqlScanner` | the two scanners of the SQLite adapter as the code has them |
| `ArrayLiteral` | the array literal printer and PostgreSQL's reading of it |
| `SerializeError` | the cycle-breaking serializer |
| `Worker` | the polling loop with notifications and stop requests |

`Safety` speaks of runs: sequences of states joined by steps, starting from the empty table. The settings of the
queues may change from step to step. A state has a history beside the table (dependencies ever declared, parents
resolved, jobs completed, claims and resumes per job). The history is a function of the tables before and after each
step, so it restricts nothing. A key is never used again once its row is gone: this is the last clause of `Next`.
`ReusedKeyReleasesEarly` gives a run of ten steps that meets everything else, and in which a job is claimed while a
parent of it is running.

What the proofs brought to light about the code:

- `fail()` in its split form deletes every row of the batch, finished ones included, but re-inserts only the
  rows below completed (`src/plans.ts:2009-2022`). `FailSplitConservesIff` says exactly when nothing is lost,
  `MixedBatchLosesTheFinished` gives a batch that loses a job.
- The split expiry deletes by id alone (`src/plans.ts:2049-2054`): it is lossless exactly when no other row of
  the physical table has one of the ids (`ExpireSplitConservesIff`, `ExpiryLosesTheOther`). A redrive
  (`RedriveDropsNothingIff`, `RedriveDropsTheOther`) and an update (`UpdateIsConfinedIff`, `UpdateHitsTheOther`) find
  their rows in the same way; the single statement for a redrive brings the other row home as well
  (`SingleRedriveDropsNothingIff`).
- The single statement decides what failed terminally by `id NOT IN` the ids it re-inserted, without the queue
  name (`src/plans.ts:1944`). A batch over several queues that share ids can lose a refused job
  (`SharedIdLosesARefusedJob`); `CteNeverLosesIff` says exactly which selections can, whatever the order of
  re-insertion, and a batch of one queue cannot (`JobStore.JobStore.FailJobs`).
- The single statement gives a new `start_after` to every job that it fails without a retry being refused, if the
  retry count is off the limit: below it when the failure is forced, or above it, which a resume makes possible. The
  split form keeps the old one. Everything else agrees on the jobs that are not lost (`SplitRefinesCte`), and on one
  queue the two forms of `fail()` agree in this sense exactly when nothing is selected or no named job is finished
  (`FailFormsAgreeIff`). Both drop the `source_*` columns of a failed job.
- The singleton ranking partitions by the raw key, the indexes by `COALESCE(key, '')`. With a complete ignore list and
  without group limits a batch fetch may trip its own index exactly when the rows up to its limit hold one without a key
  together with one whose key is the empty string; with group limits the groups of the two must also have room for
  them, next to the rows that no ranking avoids (`FetchMayTripIff`, `EmptyKeyTripsTheIndex`).
- Resume undoes cancel only for jobs that were created: a waiting or an active job comes back as created, and one
  cancelled before comes back as well, unless an index is in the way (`ResumeUndoesCancelIff`,
  `ResumedJobWaitsAgain`).
- A manual `retry()` raises `retry_limit`, `resume()` does not, so the retry budget counts resumes (`RetryBudget`).
- A question mark that stands in the text before the rewriting of placeholders breaks the binding by position,
  and nothing else does (`RewritingKeepsBindingIff`, `BareMarkTakesTheValue`).
- In the serializer the second pass over name, message, stack, code, cause and errors overrules the first one,
  without its handling of Buffers, streams, functions and bigints (`ErrorPropertiesAreCopiedRaw`).

## Model

| member | source | states |
|---|---|---|
| `JobTable.InsertIgnoreKeepsUnique` | src/plans.ts:797-824 | inserting with ON CONFLICT DO NOTHING keeps every partial unique index |
| `JobTable.NarrowingKeepsUnique` | src/plans.ts:797-824 | a statement that only removes rows or gives up index slots breaks no index |
| `JobTable.UniqueIff` | src/plans.ts:797-824 | all indexes hold iff no two jobs of a queue under one key, a missing one counting as empty, are both created in a short queue, both active in a singleton queue, in the same unfinished state in a stately queue, both unfinished in an exclusive queue, or in the same throttle slot and not cancelled |
| `JobTable.CanInsertIff` | src/plans.ts:797-824 | an insert is skipped iff its key is taken or the table with it would break an index |
| `Failing.TerminalInsertSucceeds` | src/manager.ts:1548-1557 | re-inserting a deleted job as failed is never dropped by ON CONFLICT, whatever was re-inserted before |
| `Failing.RetryInsertSucceedsIff` | src/manager.ts:1530-1543 | re-inserting as retry is dropped exactly when a stately queue already holds a retry job with the same key |
| `Failing.SplitFailMeetsOutcome` | src/manager.ts:1493-1568 | the loop re-inserts each selected job exactly once under its key as retry or failed, copies each terminal failure with a dead letter once, and loses exactly the deleted rows that were not selected |
| `Failing.CteFailMeetsOutcome` | src/plans.ts:1790-1975 | the CTE chain never aborts and meets the same closed form, losing exactly the refused jobs that share an id with a re-inserted one |
| `FailedJobs.RetryStartIs` | src/plans.ts:1850-1857 | without backoff a retry starts retry_delay after now; with backoff after the least wait plus a random part of it, or after the cap if that is no more, a cap of 0 included |
| `FailedJobs.WaitDoubles` | src/manager.ts:1519-1527 | the least wait is the delay, at least a second, on the first attempt, doubles with each attempt up to the 16th and stays the same from there on |
| `FailedJobs.BackoffIsExponential` | src/manager.ts:1519-1527 | with backoff and no cap every wait lies between the least wait and twice as much |
| `FailedJobs.SplitFailSettles` | src/manager.ts:1493-1568 | each selected job waits for a retry at the time its settings say, or has failed, with its output and no other column changed; with attempts left it fails only if its stately retry slot is taken; its dead-letter copy has its data, output, key, heartbeat and source under the settings of that queue, and nothing else is new |
| `FailedJobs.CteFailSettles` | src/plans.ts:1790-1975 | the same for the single statement, apart from the start of those that fail for good and the jobs it loses |
| `Conservation.SplitRefinesCte` | src/plans.ts:1790-1975 | for every batch and order of re-insertion both forms agree on every row and column and on the dead-letter copies, except for the jobs that the CTE loses because of a shared id and start_after of terminal failures |
| `Conservation.OutcomeConserves` | src/manager.ts:1404-1425 | the rows afterwards are the old ones less the lost ones plus one new row per dead-letter copy |
| `Conservation.FailSplitConservesIff` | src/plans.ts:2009-2022 | split fail loses no row iff nothing is selected or the batch names no finished job |
| `Conservation.FailFormsAgreeIff` | src/plans.ts:2009-2022 | on one queue both forms of fail() agree up to start_after of terminal failures iff nothing is selected or no named job is finished |
| `Conservation.ExpireSplitConservesIff` | src/plans.ts:2028-2054 | split expiry loses no row iff no other row of the physical table has a selected id |
| `Conservation.CteConservesIff` | src/plans.ts:1806-1945 | for a given order of re-insertion: the CTE loses no row iff no refused job shares its id with a job that was re-inserted first |
| `Losses.CteNeverLosesIff` | src/plans.ts:1806-1945 | the CTE loses no row in any order iff no two selected jobs share an id such that one has attempts left and a stately retry slot held by a staying row or contested by a selected job, and the other is terminal or its slot is not held |
| `Losses.VerdictIsPossible` | src/plans.ts:1806-1945 | a job refused in some order has its slot held or contested; one that comes back is terminal or its slot is not held by a staying row |
| `Conservation.DistinctIdsLoseNothing` | src/plans.ts:1806-1945 | with ids unique within the batch the CTE loses nothing, so that nothing but start_after differs |
| `Conservation.SplitFailKeepsUnique` | src/manager.ts:1493-1568 | the split form keeps every unique index |
| `Conservation.CteFailKeepsUnique` | src/plans.ts:1790-1975 | the CTE form keeps every unique index |
| `Witnesses.MixedBatchLosesTheFinished` | src/plans.ts:2009-2022 | a split fail() that names a running and a finished job leaves only the running one |
| `Witnesses.ExpiryLosesTheOther` | src/plans.ts:2049-2054 | a split expiry of the one job that timed out removes the job of another queue that has the same id |
| `Witnesses.SharedIdLosesARefusedJob` | src/plans.ts:1944 | two jobs of two queues under one id time out; the CTE re-inserts one and loses the other, whose retry is refused |
| `Fetching.NextExists` | src/plans.ts:1279-1287 | for every table some selection meets the filter, the ordering and the limit |
| `Fetching.NextIsDetermined` | src/plans.ts:1279-1287 | ORDER BY and LIMIT leave no choice of rows; which ones come first is said by LeftOutComesLater |
| `FetchedJobs.CandidatesAre` | src/plans.ts:1263-1277 | the candidates are exactly the created or waiting, unblocked jobs of the queue whose start has come, whose key and group are not ignored, whose priority is within the bounds and whose group has room |
| `FetchedJobs.LeftOutComesLater` | src/plans.ts:1285 | a candidate is left out only if the limit is reached and each selected job has a higher priority, or the same and an earlier creation, or both the same and a smaller id, as far as the options ask for them |
| `FetchedJobs.PlainSourceComesFirst` | src/plans.ts:1279-1287 | so without ranking the jobs that a fetch works on come before all others |
| `FetchedJobs.RankedSourceComesFirst` | src/plans.ts:1290-1297 | with ranking they are one for each key, and come before every candidate whose key is not among theirs |
| `FetchedJobs.ClaimedAre` | src/plans.ts:1298-1321 | of those, a job in a limited group is claimed iff the running jobs of the group and the selected ones up to its id are within the limit of its tier, or the default; every other one is claimed |
| `FetchedJobs.ClaimIsFetch` | src/plans.ts:1322-1350 | a claim changes state, both clocks and, if the job had begun before, the attempts of the claimed rows, and nothing else; without groups and ranking they come first |
| `Fetching.SourceExists` | src/plans.ts:1279-1297 | with the rank-one rows of a batch too, every fetch has something to work on |
| `Fetching.FetchIsBounded` | src/plans.ts:1279-1321 | a fetch claims at most limit jobs, only eligible ones, and group filtering drops no ungrouped job |
| `Fetching.FetchKeepsGroupCap` | src/plans.ts:1298-1315 | one fetch keeps the active jobs of each group within the largest limit |
| `Fetching.FetchFillsGroups` | src/plans.ts:1298-1315 | with one limit for everybody a group is filled exactly as far as the limit allows |
| `Fetching.ProbeRefinesCounting` | src/plans.ts:1210-1261 | the NOT EXISTS probe with constant count 0 selects and claims the same jobs as counting with default 1 and no tiers, for every table and batch size |
| `Fetching.ClaimIsValidIff` | src/plans.ts:797-824 | claiming breaks an index iff a claimed singleton or stately job shares its coalesced key with an active or another claimed job |
| `Fetching.BatchFetchIsValidIff` | src/plans.ts:1290-1321 | with a complete ignore list a batch fetch trips its index iff it claims a keyless row and one with the empty key |
| `GroupedFetch.FetchMayTripIff` | src/plans.ts:1279-1321 | with a complete ignore list some ranking trips an index iff the rows up to the limit, which table and options determine, hold such a pair for which the groups, if limited, have room |
| `GroupedFetch.GroupedFetchMayTripIff` | src/plans.ts:1298-1315 | with group limits: iff for some such pair the rows that no ranking avoids fit beside it, in the group of each and in both together |
| `GroupedFetch.ChoiceThatPasses` | src/plans.ts:1290-1315 | if they fit there is a rank-one choice in which both rows of the pair pass the group filter |
| `Fetching.TripsOnlyOnEmptyKeyPair` | src/plans.ts:1279-1321 | with or without group limits, no ranking trips an index unless the rows up to the limit hold such a pair |
| `Witnesses.EmptyKeyTripsTheIndex` | src/plans.ts:1290-1297 | a singleton queue with a keyless job and one with the empty key, on which a fetch of two trips the index |
| `Policies.RunKeepsPolicy` | src/manager.ts:1716-1718 | in every run in which a queue keeps its policy, each of its rows carries that policy or none |
| `Policies.ReachableFetchMayTripIff` | src/plans.ts:1279-1321 | so in every reachable state the condition on fetches holds with a complete ignore list alone |
| `Fetching.BatchFetchNeverTrips` | src/plans.ts:1133-1138 | with a complete ignore list and no empty key a batch fetch never trips an index, with or without group limits |
| `Resolution.ResolveTwice` | src/plans.ts:2094-2131 | two disjoint batches give the table of their union, in either order |
| `Resolution.BatchesAreOneStatement` | src/plans.ts:2094-2131 | any sequence of disjoint batches equals one statement over their union |
| `Resolution.SplitIsOneStatement` | src/plans.ts:2069-2161 | decrement then clear, queue by queue in any order, equals the single statement |
| `Resolution.SelectableAfter` | src/plans.ts:2136-2150 | resolving a batch removes exactly it from what the next audit selects |
| `Resolution.CounterStaysExact` | src/plans.ts:1394-1402 | the clamp at 0 never changes an exact counter, and the counter stays exact |
| `Resolution.ResolveIs` | src/plans.ts:2094-2131 | each blocked child counts down by its dependency rows to the batch, is released at 0, the parents lose their flag, and no other column changes |
| `Resolution.NoRowIsUpdatedTwice` | src/plans.ts:2094-2131 | a completed parent that is selected is not also decremented as a child |
| `Lifecycle.MovesKeepRowInv` | src/plans.ts:1342-1346 | completed_on is set iff the job is finished; active jobs have both clocks; no statement's move breaks this |
| `Lifecycle.MovesCountClaims` | src/plans.ts:1346 | retry_count and started_on together count the claims of a row, move by move |
| `Lifecycle.MovesKeepBudget` | src/plans.ts:1793-1799 | every move keeps the attempts within retry_limit plus the resumes |
| `Lifecycle.InsertEvolves` | src/plans.ts:1502-1625 | an insert adds new unlinked rows, changes none, and keeps the indexes |
| `Lifecycle.CompleteEvolves` | src/plans.ts:1363-1378 | complete finishes exactly the named active (or queued) rows, with their outputs, and leaves all others as they are |
| `Lifecycle.CancelEvolves` | src/plans.ts:1469-1480 | cancel finishes exactly the named rows below completed and leaves all others as they are |
| `Lifecycle.ResumeEvolves` | src/plans.ts:1482-1500 | whatever a resume does to a row is one of the allowed moves, and the indexes hold |
| `Lifecycle.ResumeIsAllOrNothing` | src/plans.ts:1482-1500 | all named cancelled rows return to created and all others stay, or nothing changes, as an index decides |
| `Lifecycle.RetryByHandEvolves` | src/plans.ts:2286-2295 | whatever a retry by hand does to a row is one of the allowed moves, and the indexes hold |
| `Lifecycle.RetryIsAllOrNothing` | src/plans.ts:2286-2295 | all named failed rows return to retry with one more attempt and all others stay, or nothing changes, as an index decides |
| `Lifecycle.TouchEvolves` | src/plans.ts:1764-1774 | touch moves the heartbeat of exactly the named active rows, and nothing else |
| `Lifecycle.UpdateEvolves` | src/plans.ts:2309-2388 | update edits terms and dates of exactly the queued rows it finds and keeps state and identity; all others stay |
| `Lifecycle.ClaimEvolves` | src/plans.ts:1342-1350 | a claim activates queued, unblocked rows only |
| `Lifecycle.OutcomeEvolves` | src/manager.ts:1493-1568 | of the rows not lost, the granted ones go to retry, the other selected ones to failed, all others stay; every other key is a dead-letter copy |
| `Runs.RedriveEvolves` | src/manager.ts:1600-1623 | a redrive removes rows and adds fresh unlinked ones, and keeps the indexes |
| `Runs.FlowKeepsInv` | src/manager.ts:1081-1230 | inserting a flow keeps the invariant: counters, flags and dependency rows arrive together |
| `Runs.ResolveKeepsInv` | src/plans.ts:2094-2131 | resolving keeps the invariant: each counter falls by exactly the parents resolved |
| `Runs.StepKeepsInv` | src/manager.ts:1081-1661 | every statement keeps the invariant of the table, the history and the links |
| `Safety.RunKeepsInv` | src/manager.ts:1081-1661 | every reachable state meets the invariant, whatever the settings of the queues at each step |
| `Safety.FlowSafety` | src/manager.ts:1081-1230 | in every run a job becomes active only if each parent a flow declared it with had reached completed in an earlier state |
| `Safety.AncestorSafety` | src/plans.ts:1363-1402 | without includeQueued the same holds for every ancestor, along any chain of declared dependencies |
| `Safety.CounterConservation` | src/manager.ts:1095-1159 | in every reachable state blocked iff the counter is positive, and a blocked job's counter is the number of its declared parents not yet resolved |
| `Safety.ResolveNeverClamps` | src/plans.ts:2094-2131 | in every run a resolve step finds no more parents than are unresolved, so the clamp never acts and no parent counts twice |
| `Safety.NoChildIsStuck` | src/navigator.ts:125-163 | once nothing is left to resolve, a blocked job has a declared parent that is not completed or is gone |
| `ReusedKeys.ReusedKeyReleasesEarly` | src/manager.ts:1081-1230 | a run that reuses the key of a deleted parent, and is a run in every other respect: a job becomes active while a declared parent is active and was never completed |
| `Safety.ClaimsAreCounted` | src/plans.ts:1346 | in every reachable state the claims of a job are 0 if started_on is null, else retry_count + 1 |
| `Safety.RetryBudget` | src/plans.ts:1793-1799 | in runs whose edits lower no limit a job is claimed at most retry_limit + 1 times plus once per resume |
| `Safety.GroupConcurrency` | src/plans.ts:1228-1315 | if every fetch on a queue uses limits capped by m, no group ever has more than m active jobs |
| `Safety.SweepIsSafe` | src/plans.ts:2270-2284 | in every reachable state the sweep removes no active job, no queued job before keep_until and no finished job kept forever or not yet due |
| `Safety.RunningJobsHaveClocks` | src/plans.ts:2028-2047 | in every reachable state timeouts and missed heartbeats of active jobs are decided by clocks that are set |
| `JobStore.JobStore.Insert` | src/manager.ts:994-1079 | refused iff an id is repeated or the queue is unknown; else the answer is the ids that went in, each new row holds what its request asked for and the settings of the queue where it said nothing, a request without a row would break an index, and all other rows stay |
| `JobStore.JobStore.Flow` | src/manager.ts:1081-1230 | refused iff malformed or cyclic; else it goes in with its dependency rows iff the table with all its rows keeps the indexes, or not at all; each job has a row with what it asked for, its counter and its flags, and the other rows stay |
| `JobStore.JobStore.Fetch` | src/manager.ts:1252-1290 | the answer is what the query selects and the groups leave, or nothing on a unique violation; its rows were eligible and are active now, all others stay; without ranking and groups they come before every candidate left out; an unknown queue is an error |
| `JobStore.JobStore.Complete` | src/manager.ts:1347-1383 | the named active (or queued) rows are completed with their outputs, all others are unchanged; the answer is their number |
| `JobStore.JobStore.FailJobs` | src/manager.ts:1385-1402 | the single statement on one queue loses no row; each selected job is tried again at the time its settings say or has failed, with its dead-letter copy, and all other rows stay; the answer is their number |
| `JobStore.JobStore.FailNoCte` | src/manager.ts:1404-1425 | select, delete, re-insert equals the split specification; each selected job is tried again at the time its settings say or has failed, with its dead-letter copy, and the rows not named stay |
| `JobStore.JobStore.ExpireJobsNoCte` | src/manager.ts:1431-1488 | the same for jobs that ran longer than allowed or missed their heartbeat; rows that share no id with them in the physical table stay |
| `JobStore.JobStore.ReinsertFailedJobs` | src/manager.ts:1493-1568 | the loop with `retried` and `count` computes the re-insertion in the given order, which SplitFailSettles describes column by column |
| `JobStore.JobStore.ResolveStandard` | src/navigator.ts:168-173 | one batch resolves a full selection and answers its size |
| `JobStore.JobStore.ResolveFlowJobsNoCte` | src/manager.ts:1445-1472 | grouping the batch by queue and resolving queue by queue equals the single statement on the batch |
| `JobStore.JobStore.SelectBlockingParents` | src/plans.ts:2136-2150 | picks completed blocking parents, as many as there are up to the limit |
| `JobStore.JobStore.Redrive` | src/manager.ts:1600-1623 | takes the oldest candidates up to the limit; the rows of the physical table with their ids are gone, each new row is that of a candidate at its destination, all others stay, and the answer counts the new ones |
| `JobStore.JobStore.RedriveStandard` | src/plans.ts:2232-2268 | the same in one statement, which re-creates every row it deletes |
| `Redrives.RedriveDropsNothingIff` | src/manager.ts:1600-1623 | every candidate gets its new row and every other row stays iff no other row of the physical table has the id of a candidate and no new row takes a slot of a row that stays or of another new row |
| `Redrives.SingleRedriveDropsNothingIff` | src/plans.ts:2232-2268 | if every deleted row has a destination, the single statement drops nothing iff every new row fits its queue, since it moves the rows that share an id along |
| `Redrives.SplitRedriveLosesTheOther` | src/manager.ts:1600-1623 | the split form loses every such row |
| `Witnesses.RedriveDropsTheOther` | src/manager.ts:1600-1623 | a redrive of the oldest dead-letter job removes a job of another queue under the same id |
| `Witnesses.RedriveDropsTheSecond` | src/plans.ts:2213-2225 | two dead-letter jobs of one key go to a short queue and the second one is dropped |
| `JobStore.JobStore.Update` | src/manager.ts:913-935 | the targets found by id or key, all or the newest or the oldest, hold what the payload carries and else what they held, and their ids are answered; only queued rows of the physical table with the id of a target change; an unknown queue is an error |
| `Laws.UpdateIsConfinedIff` | src/plans.ts:2379-2380 | an update changes nothing but its targets, whatever the edit, iff no other queued row of the physical table has the id of a target |
| `Witnesses.UpdateHitsTheOther` | src/plans.ts:2379-2380 | an update of a job by its id edits the job of another queue under the same id |
| `JobStore.JobStore.Cancel` | src/manager.ts:1631-1639 | the named rows below completed are cancelled and counted, all others are unchanged |
| `JobStore.JobStore.Touch` | src/manager.ts:1661-1670 | the heartbeat of the named active rows is now, and they are counted; all others are unchanged |
| `JobStore.JobStore.Resume` | src/manager.ts:1641-1649 | the named cancelled rows are queued again with the attempts they had, and counted; there is no answer and no change iff that would break an index |
| `JobStore.JobStore.Retry` | src/manager.ts:1651-1659 | the named failed rows wait for a retry with one more attempt allowed, and are counted; there is no answer and no change iff that would break an index |
| `JobStore.JobStore.DeleteJobs` | src/manager.ts:1570-1578 | removes exactly the named rows of the queue, in whatever state, and counts them |
| `JobStore.JobStore.Sweep` | src/plans.ts:2270-2284 | the rows that are due are gone, all others stay as they are |
| `JobStore.JobStore.CleanUp` | src/plans.ts:2764-2780 | exactly the dependency rows of the named queues with a missing end are dropped, and the invariant holds |
| `Settings.NewRowIsAsAsked` | src/plans.ts:1502-1625 | every column of a new row is what its request says, and what the queue says where the request says nothing |
| `Settings.EarlierComesFirst` | src/plans.ts:1502-1625 | of the requests of a batch that exclude each other the first one goes in: each is decided by the table that those before it leave |
| `Settings.ThrottleSlotIs` | src/plans.ts:1544-1547 | a throttle slot is the multiple of its seconds at or before the time with the offset |
| `Settings.InsertAllIff` | src/manager.ts:1166-1230 | a payload goes in as a whole iff its keys are new and different, its queues exist and the table with all its rows keeps the indexes |
| `Settings.EditRowIsAsAsked` | src/plans.ts:2309-2388 | every column of an edited row is what the payload carries and else what it was; moving the start moves keep_until along unless the payload has a retention |
| `Settings.TargetsArePicked` | src/plans.ts:2309-2388 | the targets of an update are the queued job with the id, or of those with the key all, or one of the newest or oldest |
| `Settings.RedriveRowIs` | src/plans.ts:2213-2225 | a redriven row keeps data, priority, key and heartbeat, and is otherwise a new job of its destination |
| `Settings.RedrivableIs` | src/plans.ts:2232-2268 | the candidates of a redrive are the queued jobs of the dead-letter queue with a destination that exists, from the source asked for if any |
| `Settings.SweptIffDue` | src/plans.ts:2270-2284 | the sweep removes exactly the finished jobs whose retention is over, unless it is 0, and the queued ones past keep_until |
| `Settings.CleanupKeepsIff` | src/plans.ts:2764-2780 | a dependency row is dropped iff an end of it in a named queue is missing |
| `Settings.LateIff` | src/plans.ts:2028-2047 | a timeout or a missed heartbeat is found exactly for the active jobs that ran or were silent for too long |
| `JobStore.NamedFailKeepsAll` | src/plans.ts:1944 | within one queue the NOT IN by id is exact, so all selected jobs are in the result |
| `JobStore.SplitBatchIsResolve` | src/manager.ts:1460-1468 | resolving a batch queue by queue equals resolving it at once |
| `Laws.ResumeUndoesCancelIff` | src/plans.ts:1469-1500 | resume undoes cancel iff no named job was waiting for a retry, active or cancelled before, or none was below completed and an index keeps the ones cancelled before from coming back |
| `Witnesses.ResumedJobWaitsAgain` | src/plans.ts:1469-1500 | an active job that is cancelled and resumed comes back as created |
| `Laws.CompleteTwice` | src/plans.ts:1363-1378 | completing again changes nothing, at whatever time and with whatever output |
| `Laws.CancelledIsNotCompleted` | src/plans.ts:1363-1480 | a cancelled job is not completed afterwards |
| `Laws.CompletedIsNotCancelled` | src/plans.ts:1363-1480 | a job that was completed is not cancelled afterwards; with includeQueued no named job is |
| `Laws.OfferedOnce` | src/plans.ts:1502-1625 | after an insert every offered row is there or in conflict with the table |
| `Laws.InsertTwice` | src/plans.ts:1502-1625 | sending the same batch again changes nothing |
| `Laws.ClaimedIsNoCandidate` | src/plans.ts:1263-1277 | a claimed job is no candidate while it stays claimed |
| `Laws.FetchesAreDisjoint` | src/plans.ts:1189-1358 | two fetches in a row, with whatever options, never claim the same job |
| `Laws.EditsCompose` | src/plans.ts:2309-2388 | two edits in a row are one edit with both payloads, whatever they say about start and retention |
| `Laws.SweepTwice` | src/plans.ts:2270-2284 | a second sweep at the same time removes nothing, a later one what it would have removed alone |
| `FlowBuilder.BuildFlow` | src/manager.ts:1095-1166 | the payload holds exactly one item per job, under its queue, equal to what was asked for but for counter and flags: the number of distinct dependencies, whether there is one, and whether another job depends on it; whenever the insert goes through, they agree with the dependency rows |
| `FlowBuilder.EveryJobHasItsItem` | src/manager.ts:1138-1162 | grouped by queue or not, each job has an item with its own data and settings |
| `FlowBuilder.FlowFits` | src/manager.ts:1095-1114 | each counter is the number of distinct parent keys, each blocking flag says that a dependency row names the job |
| `FlowBuilder.PayloadIsAll` | src/manager.ts:1116-1121 | grouping by queue loses and duplicates no job |
| `FlowBuilder.DeduplicatedIsTheSet` | src/manager.ts:1101 | a repeated dependency counts once |
| `FlowBuilder.InsertedFlowFits` | src/manager.ts:1140-1230 | two jobs under one key never get in, and what gets in fits together |
| `FlowBuilder.CollectLinks` | src/manager.ts:1100-1114 | the loop collects exactly the parents and the dependency rows |
| `FlowBuilder.GroupByQueue` | src/manager.ts:1116-1121 | each queue's group is its jobs in order |
| `FlowValidation.ValidateFlowJobs` | src/attorney.ts:201-259 | accepted iff well formed and acyclic; a cycle error iff well formed and cyclic, and every error is true of the flow |
| `FlowValidation.NameCharIs` | src/attorney.ts:57-59 | a queue name is made of ASCII letters, digits, underscores, hyphens, periods and slashes |
| `FlowValidation.TopologicalSort` | src/attorney.ts:242-254 | visits as many refs as there are iff all refs can be put in topological order; every ref left out has a dependency left out |
| `FlowValidation.VisitedAllIff` | src/attorney.ts:255 | comparing the number of visited refs with the number of jobs decides whether a topological order exists |
| `FlowValidation.BuildGraph` | src/attorney.ts:229-241 | edges and in-degrees represent the dependency multigraph |
| `FlowValidation.CheckRefs` | src/attorney.ts:205-213 | either a true fault or all refs are distinct and all names valid |
| `FlowValidation.CheckDependencies` | src/attorney.ts:218-226 | either a true fault or all dependencies name other jobs of the flow |
| `FlowValidation.CheckCycles` | src/attorney.ts:228-259 | no error iff acyclic; otherwise a real cycle is named, never null |
| `FlowValidation.FindDependencyCycle` | src/attorney.ts:262-297 | a closed walk, or a finishing order of all refs |
| `FlowValidation.CycleFinder.Visit` | src/attorney.ts:267-287 | a closed walk, or the ref is finished and the path is as before |
| `FlowValidation.NoneIsStuck` | src/attorney.ts:255-259 | a finishing order of all refs leaves nothing for the topological sort to miss |
| `FlowValidation.OrderedIsAcyclic` | src/attorney.ts:245-255 | a complete topological order excludes every cycle |
| `FlowValidation.AllAreOrdered` | src/attorney.ts:255-259 | if the cycle search finds nothing the sort has visited every job |
| `Navigator.Navigator.DrainChunk` | src/navigator.ts:147-160 | terminates after at most a hundred batches of at most a thousand parents, all full but the last; they equal one resolution, and unless stopped a chunk within the cap is drained |
| `Navigator.Navigator.DrainGroup` | src/navigator.ts:136-161 | the chunks of a group cover all its names |
| `Navigator.ChunksAre` | src/navigator.ts:136-146 | the chunks are the names in order, a hundred at a time |
| `Navigator.FitsIff` | src/navigator.ts:147-160 | a chunk fits into one pass iff at most 100 times 1000 completed blocking parents are in its queues |
| `Navigator.Navigator.Pass` | src/navigator.ts:125-163 | the whole pass is one resolution of the parents it took; unless stopped it takes all of them if every chunk fits into one pass |
| `Navigator.Navigator.ResolveNow` | src/navigator.ts:104-118 | nothing after a stop; otherwise, if every chunk fits, no completed blocking parent is left, and if the groups hold the queues of all parents every blocked job has a declared parent that is not completed or is gone |
| `Navigator.AuditIsOneStatement` | src/navigator.ts:147-160 | the batches of one chunk equal one statement over their union |
| `SqlUnits.Relex` | src/adapters/sqlite.ts:50-99 | a lexical unit in front of a text it fits is read as that unit again |
| `SqlUnits.AnonymousKeepsUnits` | src/adapters/sqlite.ts:50-99 | rewriting copies quoted text and comments unchanged and turns each placeholder into a lone question mark |
| `SqlUnits.RewritingKeepsBindingIff` | src/adapters/sqlite.ts:46-99 | binding by position after the rewriting equals binding by number before it iff the text has no bare question mark |
| `SqlUnits.BareMarkTakesTheValue` | src/adapters/sqlite.ts:46-99 | a text in which a bare question mark takes the value of the placeholder after it |
| `SqlUnits.OneValuePerMark` | src/adapters/sqlite.ts:85-87 | one value is passed for each question mark put in |
| `SqlText.NumberOfDecimal` | src/adapters/sqlite.ts:80-83 | the decimal text of a number is read as that number |
| `SqlText.PartIsFirst` | src/adapters/sqlite.ts:58-79 | a quoted text with its quotes doubled, a comment up to the line feed or the first end mark, a placeholder with all its digits and a semicolon are one unit each, every other character by itself |
| `SqlText.EveryTextIsWritten` | src/adapters/sqlite.ts:50-99 | every text consists of such parts |
| `SqlText.WritingIsInjective` | src/adapters/sqlite.ts:50-99 | in only one way |
| `SqlText.AnonymousOfWritten` | src/adapters/sqlite.ts:50-99 | the rewriting puts a question mark for each placeholder and copies all other parts |
| `SqlText.OccurrencesOfWritten` | src/adapters/sqlite.ts:80-91 | the parameters are the values that the decimal numbers of the placeholders name, in the order of the text |
| `SqlText.BindingOfWritten` | src/adapters/sqlite.ts:46-49 | the database gets each of these values in the place of its placeholder, and every other part as text |
| `SqlText.SinglePlaceholder` | src/adapters/sqlite.ts:80-91 | the placeholder of any number is refused iff it exceeds the values, else it becomes a question mark for that value |
| `SqlScanner.RewritePlaceholders` | src/adapters/sqlite.ts:50-99 | fails iff the decimal number of some placeholder exceeds the values; otherwise the query has a question mark for each placeholder and the parameters are the values named, part by part of the text |
| `SqlScanner.Scan` | src/adapters/sqlite.ts:58-79 | the index loops find the unit that starts here |
| `SqlScanner.SplitStatements` | src/adapters/sqlite.ts:105-148 | the loop computes the trimmed non-empty texts between bare semicolons |
| `SqlScanner.SplitOfWritten` | src/adapters/sqlite.ts:105-148 | what stands before the first semicolon that is a part of its own is one statement, or none if blank, and the rest is split by itself |
| `SqlScanner.EmitIs` | src/adapters/sqlite.ts:137-147 | a statement is its text without the spaces around it; a blank one is dropped |
| `SqlScanner.JoinedPiecesComeBack` | src/adapters/sqlite.ts:105-148 | any trimmed texts without bare semicolons, joined by semicolons on lines of their own, are split into themselves |
| `SqlScanner.PiecesAreWithin` | src/adapters/sqlite.ts:105-148 | every piece is trimmed, not empty and without a bare semicolon; only the last may end inside a quoted text or comment |
| `SqlScanner.PieceIsStable` | src/adapters/sqlite.ts:105-148 | splitting a piece gives the piece |
| `SqlScanner.SplittingIsStable` | src/adapters/sqlite.ts:105-148 | splitting the pieces joined by a semicolon on its own line gives the pieces again |
| `SqlScanner.RewritingKeepsStatements` | src/adapters/sqlite.ts:195-203 | rewriting placeholders leaves the number of statements as it is |
| `SqlScanner.Run` | src/adapters/sqlite.ts:191-220 | every query sent is a single statement; with values the call is refused iff there are several statements or a value is missing, and the database gets each value where its number stands iff the text has no bare question mark |
| `ArrayLiteral.EscapedStep` | src/adapters/bun.ts:119 | the two replacements escape each backslash and quote once |
| `ArrayLiteral.QuotedComesBack` | src/adapters/bun.ts:115-120 | a quoted element is read back as its text, whatever it contains |
| `ArrayLiteral.RoundTrip` | src/adapters/bun.ts:105-123 | every array of nullable texts and arrays is read back as it was (PostgreSQL documentation, section 8.15.6) |
| `ArrayLiteral.PrintingIsInjective` | src/adapters/bun.ts:105-123 | different arrays are never printed alike |
| `ArrayLiteral.PrintedLooksLike` | src/adapters/bun.ts:105-123 | braces around the elements, commas between them, and NULL for a missing one |
| `ArrayLiteral.PrintedSpecial` | src/adapters/bun.ts:115-120 | a text stands between quotes, with a backslash in front of a quote and of a backslash |
| `SerializeError.Serializer.DestroyCircular` | src/serialize-error.ts:42-102 | terminates on every finite graph, restores `seen`, and computes the specified tree: what toJSON returns, or an object or array whose every property is what the two passes make of it |
| `SerializeError.CircularIffOnPath` | src/serialize-error.ts:80-81 | the mark stands at a path of property names iff the walk returns to an object of the current path for the first time there |
| `SerializeError.FieldIs` | src/serialize-error.ts:54-98 | what stands at every key of the result: an own value as it is, a bigint as text, nothing for a function, notes for Buffers and streams, an object entered or cut, a set error property raw, and nothing at any other key |
| `SerializeError.DestroyFlattens` | src/serialize-error.ts:42-102 | the same for the whole object, an array staying an array, and toJSON taking over where it exists |
| `SerializeError.KeysAreInOrder` | src/serialize-error.ts:54-98 | the own keys keep their order, and the set error properties not among them follow |
| `SerializeError.ErrorPropertiesAreCopiedRaw` | src/serialize-error.ts:84-98 | the second pass overrules the first for the error properties that are set |
| `SerializeError.ResultIsATree` | src/serialize-error.ts:42-102 | no reference is left in the result |
| `Worker.Worker.OnFetched` | src/worker.ts:73-119 | the step taken when the fetch returns, as the state machine has it |
| `Worker.Worker.OnHandled` | src/worker.ts:86-119 | the step taken when the handler returns or throws |
| `Worker.Worker.FinishIteration` | src/worker.ts:105-119 | a delay begins iff the worker is not stopping, not notified and has more than 100 ms left, and lasts for what is left; else the next fetch starts, or the loop ends on a stop |
| `Worker.WaitsIff` | src/worker.ts:105-119 | the same for every step that ends an iteration, with the interval for the jobs fetched and settled in it, none on an error |
| `Worker.JobsAreThoseFetched` | src/worker.ts:76-92 | until the handler returns, the jobs that count are those of the last fetch |
| `Worker.WaitsBeforeFetch` | src/worker.ts:105-119 | in every interleaving a worker that is left alone with more than 100 ms left waits its delay out before the next fetch starts |
| `Worker.Worker.OnDelayOver` | src/worker.ts:115-125 | the step taken when the delay is over |
| `Worker.Worker.Wake` | src/worker.ts:127-133 | sets the flag and aborts a pending delay |
| `Worker.Worker.RequestStop` | src/worker.ts:135-144 | sets the flag and aborts a pending delay |
| `Worker.StaysAlert` | src/worker.ts:63-133 | from a notification until the next fetch the flag stays set and no delay is pending |
| `Worker.NoDelayAfterNotify` | src/worker.ts:115-133 | between a notification and the next fetch no delay is begun and none is waited out |
| `Worker.NotifyLeadsToFetch` | src/worker.ts:63-133 | in every interleaving a notified running worker starts a new fetch within two steps of its loop unless it is stopped |
| `Worker.NoFetchAfterStop` | src/worker.ts:135-144 | in every interleaving no fetch starts after stop() |
| `Worker.StopEndsTheLoop` | src/worker.ts:66-144 | a stop ends the loop within two of its steps, without waiting for a timer |

## Left out

- SQL text, DDL, dialects and the quoting of names: the statements are modelled by what they mean.
- Locks, SKIP LOCKED, isolation levels and advisory locks: each statement, or each transaction where the code opens one, is one atomic step.
- Drivers, connections, LISTEN/NOTIFY, timers and event emitters; a failing database is not modelled beyond SQLSTATE 23505.
- Cron schedules, queue statistics, the queue cache and job spies.
- Option validation other than that of flows; ids are natural numbers and times are real numbers of seconds.
- JobStore.JobStore.Complete: the error raised for an unknown queue is not modelled; no job is in such a queue, so nothing is completed. The same for fail, cancel, resume, retry and delete.
- JobStore.JobStore.Insert: ids that the caller leaves out are generated and new; the model has them in the requests. Without returnId the code answers no ids.
- JobStore.JobStore.FailJobs: the overloads that supply one output per job are covered by the per-job `outputs` and `forceTerminal` of the parameters, not as operations of their own.
- Redrives.SingleRedriveDropsNothingIff: a row that is deleted because of a shared id and has no destination gets no new row; the lemma speaks of deleted rows that all have one.
- Conservation.SplitRefinesCte: agreement of both forms is stated without `start_after` of terminal failures, which the code treats differently.
- Policies.RunKeepsPolicy: a queue that is deleted and created anew with another policy is not covered.
- Navigator.Navigator.Pass: other writers are excluded during a pass; the cadence gate and the polling interval are not modelled.
- SqlScanner.Run: the ROLLBACK after an error and the conversion of Dates and objects to parameters are not modelled.
- ArrayLiteral.RoundTrip: PostgreSQL's check that nested arrays have matching dimensions is not part of the syntax modelled; Dates are texts.
- SerializeError.Serializer.DestroyCircular: getters that throw, what a toJSON method returns and the wrapping of values that are not objects are not modelled.
- Worker.NotifyLeadsToFetch: promises and timers are events; that a fetch or a handler returns at all is not modelled.
