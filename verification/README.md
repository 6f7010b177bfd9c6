# FindVerse crawl protocol, verified

This project models the crawling core of FindVerse and proves what its operations keep between them.

**A. The crawl-job lease protocol.** Schedulers, task APIs, projectors and crawlers share the tables `crawl_jobs`,
`crawl_origins`, `crawl_ingest_items` and the page budgets. `Tables.dfy` holds the tables as one value `Db`. Each
operation is a function from tables to tables: `Frontier` (ranked, capped claims; lease checks), `Enqueue` and
`Seeding` (URLs under a page budget), `Ingest` (staging reports, moving items), `Outcome` and `Projection` (judging and
applying a result), `Recovery` (stale claims, crawler deletion, the administrator's operations). `Protocol` makes them
the events of a transition system; a run is any interleaving of events from empty tables, and every event moves every
job along one small automaton (`Evolves`). The invariants over all runs are in `JobInvariants`, `Fencing`, `Capacity`,
`Orphans`, `Budgets`, `Work` and `Politeness`. What each operation does to a row is said once more of the columns alone,
without the functions that compute it: in `Dispatch` (which jobs a claim hands out, and when), `Verdicts` (what a result
makes of its job and origin), `Discovery` and `Lineage` (which links become rows, and where a row comes from) and
`Upkeep` (recoveries, reports, stops, revivals), each with what that means for whole runs. `Store` is the class that owns the tables: its methods change them
statement by statement, each is proved equal to its event, and the class invariant says that the recorded history of
events is a run that leads from empty tables to the present ones. So all theorems about runs hold of the class
(`Safety.ReachedIsSafe`, `Safety.HistoryAppliesOnce`).

**B. The document table and its search index** (`Catalog`, `Batches`, `SearchIndex`): upserts with duplicate detection
and replacement, deferred index writes, deletion, purging, and the keyset rebuild. `Batches` says what a batch does in
terms of the table and the documents alone, before it is run.

**C. Crawler self-update** (`SelfUpdate`): the client's state machine composed with the server's heartbeat handler.

**D. The streaming `Crawl-delay` parser** (`CrawlDelay`, `Text`): one pass over the lines, against a two-phase reading
whose groups follow section 2.2.1 of RFC 9309. `RobotsText` writes files, and the reading gives back what was meant.

Time is an unbounded integer of seconds; lease, budget and job ids come from counters, so a new one was never used
before. Choices that the database, the clock or the scheduler makes are parameters: how ties are ranked, which rows are
locked, which candidates are taken, which original a duplicate points to, when a task ends and how it fails. Four
columns are history only (`claimJs`, `jsRequeues`, `adminRetries` of a job, `leaked` of an origin), and so is the table
`owed` of slots that a projection failure has still to give back. Operations that consist of several statements are
several events where another process can come between: a stop, a blacklisting, the item recovery, the follow-ups of a
failed projection, and a report.

## What turned out not to hold

- Overlapping claims can break the cap. They always keep it if and only if all jobs that some ranking makes candidates
  fit under it together (`Overlap.OverlapKeepsCapIff`); two pages seeded in one instant do not
  (`Witnesses.TiedRivalsReachable`), nor do a page sent back for a renderer and a newer page, seen by crawlers with
  different JavaScript flags (`Overlap.MixedFlagsBreakCap`, `Witnesses.MixedRivalsReachable`).
- The counters are exact only as long as no reset comes at a wrong time. A claim between the two statements of a stop
  leaves a counter below its active jobs (`Witnesses.StopLosesCount`). One event breaks the agreement exactly if it
  resets an owner that has an active job or a slot still to be given back, or removes an origin that is owed a slot
  (`Capacity.StepKeepsCounterIff`). An apply that fails before its counter update never gives its slot back.
- A report that stops half way, or a report of another crawler for a staged pair, can leave a job ingesting with a
  failed item (`Witnesses.PartialReportReachable`, `Witnesses.ForeignReportReachable`);
  `Orphans.ReportKeepsLiveIffSound` gives the exact condition.
- The adaptive recrawl never adds anything (`Seeding.AdaptiveRecrawlDoesNothing`).
- A robots block reported with status 599 waits 60 seconds, not 300 (`Outcome.WaitFloors`).
- An import into an empty table and index ends in agreement if and only if no url stops it
  (`SearchIndex.DocumentStore.Import`); two documents with different ids and one url do (`Batches.SameUrlStops`). For
  any table and any documents: a batch completes exactly if no document meets its url in another row that is there at
  its turn (`Batches.Completes`); a completed one disagrees exactly if it revives an id it had put on the delete list
  (`SearchIndex.FlushAgreesIffNoRevival`), a stopped one exactly if it has touched a primary row
  (`SearchIndex.StopAgreesIffUntouched`). A rebuild keeps index entries of rows that no longer exist
  (`SearchIndex.RebuildAgreesIff`).
- A crawler may start two downloads without a change of the wanted version in between, exactly if it was about to
  download an older target and the wanted version is another than it runs (`SelfUpdate.SecondDownloadIff`,
  `SelfUpdate.StaleTargetIsReachable`). The server cannot make it retry a failed update by asking for the same version
  again; only an answer that arrives late does (`SelfUpdate.LateAnswerRetriesIff`).

## Model

| member | source | states |
|---|---|---|
| `Capacity.RunKeepsCap` | services/api/src/crawl/frontier.rs:33-83 | in every reachable state, for every owner, origin and c >= 1, at most c claimed or ingesting jobs have an effective limit of at most c |
| `Frontier.CapBoundsActive` | services/api/src/crawl/frontier.rs:33-70 | hence, if the active jobs of an origin ask for at most c >= 1 at a time, there are at most c of them |
| `Frontier.CandidatesFit` | services/api/src/crawl/frontier.rs:65-73 | any set of candidates of one ranking fits under the cap at every level together with the jobs already active |
| `Frontier.OverlappingClaimsKeepCap` | services/api/src/crawl/frontier.rs:40-73 | any number of claims that take parts of one ranking's candidates keep the layered cap, whatever their limits |
| `Frontier.ClaimKeepsCap` | services/api/src/crawl/frontier.rs:33-83 | a single claim keeps the layered cap |
| `Frontier.RowNumberUnique` | services/api/src/crawl/frontier.rs:49-52 | without ties the row numbers within an origin are determined by the jobs |
| `Overlap.UntiedClaimsKeepCap` | services/api/src/crawl/frontier.rs:40-73 | claims that each rank one eligible set on their own keep the cap if no two eligible jobs of an origin tie |
| `Overlap.OverlapKeepsCapIff` | services/api/src/crawl/frontier.rs:40-73 | claims on one snapshot, each with a legal ranking of its own, any limit, and the rows it finds locked skipped, always keep the layered cap if and only if at every level the active jobs and all that can reach a candidate's rank fit under it |
| `Overlap.FavouringIsRowNumber` | services/api/src/crawl/frontier.rs:49-52 | some legal ranking gives a job its best rank, one more than the eligible jobs of its origin that are sooner |
| `Overlap.RivalsBreakCapIffTied` | services/api/src/crawl/frontier.rs:49-52 | the case of two jobs of limit 1 on an idle origin: both can be candidates exactly when they tie |
| `Overlap.BothClaimedBreaksCap` | services/api/src/crawl/frontier.rs:65-83 | taking both breaks the cap |
| `Overlap.MixedFlagsBreakCap` | services/api/src/crawl/frontier.rs:63 | claims with different JavaScript flags rank different sets and break the cap without a tie |
| `Lineage.ConcurrencyRespected` | services/api/src/crawl/frontier.rs:33-83 | if no seeding of an owner asked for more than c jobs at a time, no origin of the owner ever has more than c jobs claimed or ingesting |
| `Dispatch.ClaimTakesWaiting` | services/api/src/crawl/frontier.rs:55-73 | a claim hands out only queued jobs of its owner that are past their own retry time and their origin's, need no renderer the crawler lacks, and are not locked; at most its limit |
| `Dispatch.ClaimLeavesNone` | services/api/src/crawl/frontier.rs:65-73 | a claim that stays below its limit hands out every such job for which there is room with the active jobs of its origin and all that may come before it |
| `Dispatch.ClaimKeepsOrder` | services/api/src/crawl/frontier.rs:49-52 | of two such jobs with one origin and limit the one left is not more urgent, nor as urgent and older |
| `Dispatch.ClaimKeepsOriginOrder` | services/api/src/crawl/frontier.rs:69-71 | a job there is room for is not left for one whose origin opened later |
| `Dispatch.ShallowFirst` | services/api/src/crawler.rs:3275-3279 | in any run, of two such jobs with one origin and limit the one handed out is not the deeper |
| `Dispatch.RunKeepsHolders` | services/api/src/crawl/frontier.rs:74-83 | in any run, whoever holds a job was handed it by an earlier claim, at the time and under the lease its row says |
| `Dispatch.RetryTimeHolds` | services/api/src/crawl/frontier.rs:61 | in any run, a job queued with a retry time is not handed out before that time |
| `Dispatch.RetriesWait` | services/api/src/crawler.rs:4253-4268 | in any run, after a failed try that is to be repeated a job is next handed out 30 seconds later, 120 after its second try, 300 after any further one |
| `Dispatch.TakenBackWaits` | services/api/src/crawler.rs:3448-3480 | in any run, a job whose claim was taken back is next handed out at least 30 seconds later |
| `Witnesses.TiedRivalsReachable` | services/api/src/crawl/frontier.rs:49-52 | a run from empty tables, two pages seeded at one time, leads to two eligible jobs that tie and for which there is no room together |
| `Witnesses.MixedRivalsReachable` | services/api/src/crawl/frontier.rs:63 | a run leads to rivals that crawlers with different flags see differently |
| `Capacity.RunKeepsCounter` | services/api/src/crawl/frontier.rs:84-95 | as long as every reset finds its owner idle, each origin's counter is its active jobs plus the slots lost plus those still to be given back; the first reset that does not breaks this |
| `Capacity.StepKeepsCounterIff` | services/api/src/crawler.rs:2529-2541 | one event keeps this agreement if and only if it is not a reset of an owner with an active job or an owed slot, nor the removal of an origin that is owed one |
| `Capacity.ResetKeepsCounterIff` | services/api/src/crawler.rs:2978-2989 | the second statement of a stop keeps the agreement if and only if the owner then has no active job and is owed no slot |
| `Capacity.DropKeepsCounterIff` | services/api/src/crawler.rs:3795-3808 | removing unused origins keeps it if and only if none of them is owed a slot |
| `Capacity.RunCountsLosses` | services/api/src/crawler.rs:2968-2977 | in every run the lost slots of an origin are those of the applies that stopped before their counter update and of the active jobs a stop deleted, since the origin last started anew |
| `Capacity.CounterExplained` | services/api/src/crawler.rs:3109-3113 | so a counter is its active jobs plus those losses plus what projection failures still owe |
| `Capacity.CounterExactWithoutFaults` | services/api/src/crawler.rs:3109-3113 | in such runs, while no apply of the origin has stopped and no stop has deleted its active jobs since it last started anew, its counter equals its number of active jobs exactly when no slot is owed to it |
| `Capacity.CounterNeverLow` | services/api/src/crawler.rs:2529-2541 | in such runs the counter never falls below its active jobs, and equals them exactly when nothing was lost and nothing is owed |
| `Capacity.ReturnClaimsKeepsCounter` | services/api/src/crawler.rs:3491-3503 | taking claims back lowers each counter by exactly the jobs taken back; the floor at zero is never needed |
| `Capacity.RequestedSettles` | services/api/src/crawler.rs:3109-3113 | an apply lowers its origin's counter by exactly one; the floor is never needed |
| `Capacity.FailKeepsCounter` | services/api/src/crawler.rs:2502-2527 | the first statement of a projection failure turns exactly the failed job's slot into an owed one |
| `Capacity.ReturnSlotKeepsCounter` | services/api/src/crawler.rs:2529-2541 | the second lowers the counter by exactly one; the floor is not needed |
| `Capacity.StopJobsKeepsCounter` | services/api/src/crawler.rs:2968-2977 | after the first statement of a stop the slots of the deleted active jobs, and no others, are still counted |
| `Witnesses.StopLosesCount` | services/api/src/crawler.rs:2968-2989 | a run in which a page is seeded and claimed between the two statements of a stop ends with a counter below its active jobs |
| `Fencing.SettledAtMostOnce` | services/api/src/crawler.rs:1776-1787 | over any run a (lease, job) pair is settled at most once, and so applied at most once |
| `Fencing.ClaimsConserved` | services/api/src/crawl/frontier.rs:74-83 | every claim ever made is either still active or was ended by exactly one event |
| `Fencing.LateWorkChangesNothing` | services/api/src/crawl/frontier.rs:129-182 | after a claim has ended, reports of its lease, applies and failures of its pair, and the completing or failing of its item change neither the job, even if it was claimed again, nor any origin; giving back the slot that an ending failure owes is not among these |
| `Fencing.ApplySettles` | services/api/src/crawler.rs:1776-1787 | every apply, complete or cut short, ends its claim |
| `Fencing.StepFence` | services/api/src/crawl/frontier.rs:74-83 | a pair becomes active only by its own claim, and no claim reuses an active pair |
| `JobInvariants.AttemptsBounded` | services/api/src/crawler.rs:4254-4268 | attempts never exceed max(max_attempts, 1) plus JavaScript requeues plus revivals, with one to spare while queued; with honest workers there is at most one such requeue |
| `JobInvariants.RunKeepsJobsOk` | services/api/src/crawler.rs:3453-3480 | active jobs always have claimer, claim time and an issued lease; queued jobs have none of the three |
| `JobInvariants.RunKeepsJsOk` | services/crawler/src/worker.rs:991-1021 | if only crawlers without a renderer report that one is needed, a job that requires one is held only by crawlers that have one |
| `JobInvariants.JsRequeueIsHonest` | services/api/src/crawler.rs:2133-2159 | a job is requeued for a renderer only if it did not require one before |
| `Protocol.StepEvolves` | services/api/src/crawl/frontier.rs:74-83 | every event moves each job along the automaton, adds only fresh queued rows, and uses claims, revivals and JavaScript requeues only where they belong |
| `Orphans.RunKeepsItemsExist` | services/api/src/crawl/ingest.rs:85-152 | with the statements of a report split, a job ingesting under lease L always has an item of L |
| `Orphans.RunKeepsItemsLive` | services/api/src/crawl/ingest.rs:240-298 | with whole, sound reports, items completed after an apply and failed after the failure statement of their job, that item is pending or processing |
| `Orphans.ReportKeepsLiveIffSound` | services/api/src/crawl/ingest.rs:85-157 | a report keeps every active job's item live if and only if what it reaches is held by its sender and it does not stop after staging a job still waiting for its first report |
| `Orphans.SingleReportSound` | services/api/src/crawl/ingest.rs:85-157 | a report of one result by the job's holder is always sound |
| `Upkeep.ReportAcceptedIff` | services/api/src/crawl/ingest.rs:85-137 | a report is accepted if and only if each result is for the URL of a job its sender holds, or, for a job it does not hold, for a pair staged before |
| `Upkeep.ReportMovesJobs` | services/api/src/crawl/ingest.rs:138-157 | an accepted report makes exactly the jobs it is about that its sender still works on ingesting; a refused one changes no job |
| `Upkeep.StagingKeepsStatus` | services/api/src/crawl/ingest.rs:117-136 | staging leaves an item's status alone, and new items are pending |
| `Orphans.ReachedStaged` | services/api/src/crawl/ingest.rs:85-152 | a report stages exactly the results before the first one refused, all under its sender, each item with the last result for its job, and touches no other item |
| `Orphans.PartialReportOrphans` | services/api/src/crawl/ingest.rs:101-117 | a report refused at its second result, repeated after the projector ran, leaves a job ingesting with a failed item |
| `Orphans.ForeignReportOrphans` | services/api/src/crawl/ingest.rs:98-137 | a second crawler's report of a staged pair takes the item over and leaves the job ingesting with a failed item |
| `Witnesses.PartialReportReachable` | services/api/src/crawl/ingest.rs:101-117 | a run from empty tables whose only reports are those of one crawler, each made in one step and of at most two results, leads to an ingesting job with a failed item |
| `Witnesses.ForeignReportReachable` | services/api/src/crawl/ingest.rs:98-137 | so does one whose only reports are those of two crawlers, each of a single result |
| `Budgets.RunKeepsBudgets` | services/api/src/crawler.rs:3229-3357 | all jobs of a budget carry its page limit and number at most that many in every reachable state |
| `Budgets.RunKeepsPlaces` | services/api/src/crawler.rs:1892-1908 | every job has depth <= max_depth <= 10 and a URL inside its own discovery scope, along arbitrarily long discovery chains |
| `Budgets.RunKeepsUniqueUrls` | services/api/src/crawler.rs:3311 | an owner never has two rows for one URL |
| `Lineage.DepthIsDistance` | services/api/src/crawler.rs:1892-1908 | in any run, a row has depth n if and only if it was added by a seeding and n applied pages on from it; and n is at most its max_depth, at most 10 |
| `Lineage.RunKeepsHeritage` | services/api/src/crawler.rs:1476-1511 | in any run, every row has the owner, budget, limits, scope and concurrency that one earlier seeding asked for |
| `Lineage.RunKeepsUrgency` | services/api/src/crawler.rs:3275-3279 | in any run, a row of depth d has priority 80 - 3d |
| `Lineage.StepAdds` | services/api/src/crawler.rs:1892-1908 | rows are added by seedings, at depth 0, and by applies of pages that went well, are not blacklisted and are less deep than allowed: one deeper than the page, for its links in reach, with its job's columns |
| `Lineage.SeedTakesAll` | services/api/src/crawler.rs:1476-1511 | an accepted seeding leaves out no web URL off the blacklist unless its rows fill its budget; after a revisit the rows are still to be crawled; a refused one changes nothing |
| `Lineage.ApplySpreadsAll` | services/api/src/crawler.rs:4373-4402 | an apply that may spread leaves out no such link among the first that its job allows unless its rows bring the budget to its limit |
| `Discovery.AddedRows` | services/api/src/crawler.rs:3259-3353 | every row that enqueueing adds is queued, untried and due, has the request's columns, and stands for one of the links, none of them on a blacklisted domain |
| `Discovery.NonePassedOver` | services/api/src/crawler.rs:3241-3353 | every link that may become a row has one afterwards, or the rows added used up the budget |
| `Discovery.EarlierFirst` | services/api/src/crawler.rs:3246-3353 | if such a link is left out, the rows added stand for links before it |
| `Discovery.AddedOrigins` | services/api/src/crawler.rs:3318-3350 | a new origin row belongs to an added job and is open from the moment of its insertion |
| `Discovery.AdmittedIff` | services/api/src/crawler.rs:3246-3258 | a link may become a row if and only if it is a web address with a host on no blacklisted domain |
| `Budgets.EnqueueKeepsBudgets` | services/api/src/crawler.rs:3229-3357 | enqueueing with a budget's own limit keeps every budget within its limit |
| `Enqueue.EnqueueFromWithinBudget` | services/api/src/crawler.rs:3241-3244 | the loop never takes a budget past its page limit |
| `Enqueue.EnqueueFromInserts` | services/api/src/crawler.rs:3351-3352 | it inserts no more rows than the budget had room for |
| `Enqueue.EnqueueFromEffect` | services/api/src/crawler.rs:3259-3353 | enqueueing removes only finished rows, and only on a revisit; adds only fresh queued rows of the request; leaves all other rows, items and existing origins alone |
| `Enqueue.EnqueueInScope` | services/api/src/crawler.rs:3254-3257 | rows inserted from links inside the request's scope are inside their own scope |
| `Enqueue.EnqueueOneInScope` | crates/findverse-common/src/lib.rs:118-157 | a row inserted from a link checked before normalisation is in scope after it |
| `Seeding.AdaptiveRecrawlDoesNothing` | services/api/src/crawler.rs:2718-2739 | the adaptive recrawl leaves all tables as they are |
| `Seeding.DomainLinksInScope` | services/api/src/crawler.rs:1396-1413 | URLs that pass the property check are inside the scope of the request built from them |
| `Work.ClaimsPerJob` | services/api/src/crawl/frontier.rs:74-83 | a job is claimed at most four times plus once per revival, also after its row is gone |
| `Work.TotalWorkBounded` | services/api/src/crawler.rs:3229-3357 | all claims of a run number at most 4 x (pages of all budgets + removed rows) + revivals |
| `Work.ClaimsWithinPages` | services/api/src/crawler.rs:3229-3357 | without removals and revivals the claims ever made are at most (3 + 1) x pages over all budgets |
| `Work.RowsCountHits` | services/api/src/crawl/frontier.rs:80 | a row's attempt count is the number of claims of its job in the run so far |
| `Work.QuietStepLowersMeasure` | services/api/src/crawler.rs:4198-4274 | between seedings every event lowers a measure by at least one for each job whose status it changes or that it adds |
| `Work.QuietStretchComesToRest` | services/api/src/crawler.rs:3441-3543 | so a stretch without seeding, revival and removal changes statuses at most as often as the measure at its start |
| `Politeness.ClaimsWait` | services/api/src/crawler.rs:3073-3179 | after a result is applied at t with wait w, no later claim on its origin or on the redirect's final origin happens before t + w, unless a stop-all or a blacklisting came between |
| `Politeness.ClaimsWaitAfterRecovery` | services/api/src/crawler.rs:3491-3503 | after claims of an origin were taken back, no claim on it happens for 30 seconds |
| `Verdicts.ApplyOpensIff` | services/api/src/crawler.rs:3073-3179 | after an apply an origin is open at time t if and only if it was before and, if it is the requested one or the redirect's, the wait is over |
| `Verdicts.WaitIsLeast` | services/api/src/crawler.rs:4132-4146 | the wait is the shortest that covers a second, the crawl delay, Retry-After and the floor of its kind of failure |
| `Verdicts.ApplyJudges` | services/api/src/crawler.rs:1822-2478 | for every result, flags, blacklist and attempt count: if and only if which conditions the job ends succeeded, failed, blocked, dead or queued, its retry time, renderer flag, final URL and claim columns; all other rows stay |
| `Outcome.WaitFloors` | services/api/src/crawler.rs:4132-4146 | the wait is one of the numbers it covers, and 60 for a robots block with status 599 |
| `Outcome.OutcomeTable` | services/api/src/crawler.rs:4198-4274 | for every status, kind of error and attempt count, exactly which outcome is chosen, and the back-off of 30, 120 or 300 seconds |
| `Protocol.WriteMoves` | services/api/src/crawler.rs:1822-2478 | the status write of any outcome is one move of the automaton for the job, so it ends the claim, and asks for a renderer only by the move meant for it |
| `Outcome.RetryOnlyWithAttemptsLeft` | services/api/src/crawler.rs:4253-4268 | a retry is granted only with attempts left, a dead letter only without |
| `Recovery.MaintenanceClearsStaleness` | services/api/src/crawler.rs:3441-3511 | after both recoveries at one time no active job is older than the timeout; the stale ones, and only those, were taken back, dead exactly when their attempts were used up |
| `Upkeep.TakesBackExactly` | services/api/src/crawler.rs:3441-3511 | recoveries and crawler deletion take back exactly the claims past the timeout, or of that crawler: queued for half a minute later if a try is left, dead otherwise; all other rows stay |
| `Upkeep.LateClaimsEnd` | services/api/src/crawler.rs:3441-3653 | in any run, a claim made longer than the timeout before the recovery of its kind does not outlive it |
| `Upkeep.RecoveryFailsItems` | services/api/src/crawler.rs:3600-3653 | the recovery of ingesting jobs fails exactly the unsettled items they were ingesting |
| `Upkeep.RecoveryUnsticks` | services/api/src/crawl/ingest.rs:240-298 | items taken longer than the timeout ago become pending if their job is ingesting and failed if it is not; others stay |
| `Upkeep.RunKeepsTakers` | services/api/src/crawl/ingest.rs:178-206 | in any run, an item in processing was taken by an earlier drain, at the time that it says |
| `Upkeep.StuckItemsEnd` | services/api/src/crawl/ingest.rs:240-298 | in any run, an item taken only longer than the timeout ago is not in processing after the item recovery, if its job is there |
| `Upkeep.StopLeavesFinished` | services/api/src/crawler.rs:2968-2977 | a stop removes exactly the owner's queued, claimed and ingesting jobs |
| `Upkeep.StopSilences` | services/api/src/crawler.rs:2958-2989 | in any run, after a stop no job of the owner is handed out until the owner seeds or revives jobs |
| `Upkeep.CleanupLeavesOthers` | services/api/src/crawler.rs:2899-2952 | the two cleanups remove exactly the owner's succeeded jobs, and exactly the failed, blocked and dead ones |
| `Upkeep.RetryRevives` | services/api/src/crawler.rs:2855-2876 | a revival queues exactly the owner's failed and dead jobs, due at once, with the tries they had |
| `Upkeep.CanApplyIff` | services/api/src/crawler.rs:1776-1810 | a staged result can be applied if and only if its job is ingesting under the item's lease for its reporter and has the result's URL |
| `Upkeep.FailureFails` | services/api/src/crawler.rs:2502-2527 | a projection failure ends as failed exactly the job that is ingesting for the item |
| `Urls.HostMatchesIff` | crates/findverse-common/src/lib.rs:146-157 | a host matches under same-host if it is the anchor up to case, under same-domain if it is, or ends in a dot and, the anchor |
| `Urls.SubdomainIff` | crates/findverse-common/src/lib.rs:151-155 | text in front of a domain keeps a host on it if and only if it is empty or ends in a dot |
| `Urls.NormalizeIff` | crates/findverse-common/src/lib.rs:58-69 | two URLs normalise to one if and only if they have the same scheme, host, page and port in use |
| `Urls.SameOriginIff` | crates/findverse-common/src/lib.rs:124-144 | two URLs share an origin if and only if they have one scheme, one port in use and hosts equal up to case |
| `Urls.AllowedLinksSound` | crates/findverse-common/src/lib.rs:146-157 | a link is kept if and only if it was found and its host is in reach of the scope: any, the anchor up to case, or on the anchor's domain |
| `Urls.FilterDiscoveredUrls` | services/api/src/crawler.rs:4373-4402 | the loop returns the first allowed links, in page order, up to the limit |
| `Safety.RunKeepsSafe` | services/api/src/crawl/frontier.rs:33-83 | every reachable state has all whole-table invariants at once |
| `Safety.ReachedIsSafe` | services/api/src/crawl/projection.rs:23-83 | so do the tables of the store after any sequence of its methods |
| `Safety.HistoryAppliesOnce` | services/api/src/crawler.rs:1776-1787 | no (lease, job) pair is applied twice in a history |
| `Store.CrawlerStore.ClaimJobs` | services/api/src/crawl/frontier.rs:23-127 | hands out a fresh lease for exactly the picked jobs, all of which were waiting and not locked, at most the limit, and returns their rows as claimed |
| `Store.CrawlerStore.EnqueueUrls` | services/api/src/crawler.rs:3229-3357 | the loop does what the model's enqueue does, and returns the number of rows inserted |
| `Store.CrawlerStore.SeedFrontier` | services/api/src/crawler.rs:1476-1511 | refuses an empty list; otherwise opens a budget and accepts at most its pages |
| `Store.CrawlerStore.SubmitDomainUrls` | services/api/src/crawler.rs:1396-1437 | skips blank entries; accepts the others if and only if there are any and the host of each is the domain or ends in a dot and the domain |
| `Store.CrawlerStore.ScheduleAdaptiveRecrawl` | services/api/src/crawler.rs:2702-2741 | leaves all tables as they are |
| `Store.CrawlerStore.StageReport` | services/api/src/crawl/ingest.rs:58-157 | accepts a report exactly if each result may be reported; stages until the first refusal, and moves the jobs to ingesting only if there was none |
| `Store.CrawlerStore.ClaimPendingItems` | services/api/src/crawl/ingest.rs:178-238 | the taken items, and no others, become processing |
| `Store.CrawlerStore.ApplyStagedResult` | services/api/src/crawler.rs:1769-2494 | refuses a result whose claim has ended or whose URL differs, or that meets an unreadable blacklist, changing nothing; otherwise performs the apply up to the fault: the claim has ended, and the job's status and columns are as judged from the result |
| `Store.CrawlerStore.FailItem` | services/api/src/crawler.rs:2496-2555 | fails the job if it is still ingesting for the item, gives its slot back and fails the item, or stops at the statement at which the database fails |
| `Store.CrawlerStore.Drain` | services/api/src/crawl/projection.rs:23-83 | every taken item ends exactly once, completed, failed or still processing after a panic, and the result counts the completed ones; if a follow-up fails the drain ends and the items not yet settled stay processing; no other item's status changes |
| `Store.CrawlerStore.RequeueStaleJobs` | services/api/src/crawler.rs:3441-3511 | takes back exactly the claims older than the timeout, gives their slots back and keeps their origins closed for 30 seconds |
| `Store.CrawlerStore.RecoverStaleIngestingJobs` | services/api/src/crawler.rs:3546-3653 | takes back exactly the ingesting jobs claimed before the timeout, and fails the unfinished items of exactly their leases |
| `Store.CrawlerStore.RecoverStaleItems` | services/api/src/crawl/ingest.rs:240-298 | first the stale items whose job is ingesting are made replayable, then those whose job is not are failed |
| `Store.CrawlerStore.ReleaseClaimedJobs` | services/api/src/crawler.rs:3688-3756 | takes back exactly the deleted crawler's claims; the counts are those with tries left and those without |
| `Store.CrawlerStore.RetryFailedJobs` | services/api/src/crawler.rs:2855-2895 | revives exactly the owner's failed and dead jobs and returns how many they are |
| `Store.CrawlerStore.StopAllJobs` | services/api/src/crawler.rs:2968-2989 | removes exactly the owner's queued, claimed and ingesting jobs and returns how many they are, and then opens and empties its origins, as two events |
| `Store.CrawlerStore.CleanupBlacklistedDomains` | services/api/src/crawler.rs:3758-3817 | exactly the inactive jobs filed under a URL on a blacklisted domain go, and exactly the origins that no job uses when a domain they are on has its turn |
| `Store.CrawlerStore.RunMaintenance` | services/api/src/crawler.rs:2743-2751 | due rules, recoveries, blacklist and adaptive recrawl: afterwards no active job is older than the timeout, new rows are queued, and every old row left is as the recoveries leave it |
| `Catalog.RunKeepsAgreement` | services/api/src/store/search.rs:396-451 | over every run of one-document upserts, deletions and purges the index holds exactly the primary rows with their current content, and no two of them share a hash or canonical URL |
| `Catalog.PersistKeepsUnique` | services/api/src/store/search.rs:697-762 | writing a document keeps primary hashes and canonical URLs unique |
| `Catalog.UpsertOneTracks` | services/api/src/store/search.rs:405-448 | while a batch runs, the pending index writes show every primary row, and whatever else they show is on the delete list |
| `Catalog.OpKeepsAgreement` | services/api/src/store/search.rs:557-628 | a single upsert, deletion or purge keeps agreement, also when the URL is refused |
| `Catalog.SortedIsAscending` | services/api/src/store/search.rs:154-199 | the order of the rebuild lists each id once, ascending |
| `SearchIndex.DocumentStore.UpsertDocuments` | services/api/src/store/search.rs:396-451 | succeeds exactly if no url stops the batch; agreement afterwards exactly if no id was revived, or, after a stop, if no primary row was touched; all documents and duplicates counted |
| `SearchIndex.DocumentStore.Import` | services/api/src/store/search.rs:80-85 | an import of documents with different ids into an empty table and index agrees if and only if no url stops it; different urls are enough |
| `SearchIndex.FlushAgreesIffNoRevival` | services/api/src/store/search.rs:436-448 | for any table in agreement and any documents, each duplicate pointing to an original it has, a batch that no url stops agrees again if and only if no document becomes a lasting primary row whose id an earlier document put on the delete list |
| `SearchIndex.StopAgreesIffUntouched` | services/api/src/store/search.rs:422-427 | one that stops at a taken url agrees if and only if the primary rows are those it started with |
| `SearchIndex.BatchDetermined` | services/api/src/store/search.rs:418-425 | with unique primaries the result does not depend on which original the database picks |
| `Batches.TableStep` | services/api/src/store/search.rs:405-434 | a document is taken up as a primary exactly if no other primary row that is there at its turn has its hash; the table at each turn is the rows so described |
| `Batches.StopsIff` | services/api/migrations/0001_initial.sql:56 | a document is stopped exactly if a row of another id that is there at its turn has its url |
| `Batches.ClashIffRevival` | services/api/src/store/search.rs:405-448 | the delete list holds a primary row at the end exactly if an id was revived |
| `Batches.UntouchedIff` | services/api/src/store/search.rs:405-434 | the primary rows at a turn equal those of the start exactly if every one written equals its old row and every old one is there or rewritten |
| `Batches.DistinctBatchRevivesIff` | services/api/src/store/search.rs:748-762 | with different ids and new content an id is revived exactly if a document replaces a row that a later one writes again under a canonical URL that stays |
| `Batches.StoppedImportDisagrees` | services/api/src/store/search.rs:80-85 | an import into an empty table that is stopped leaves a primary row that is not indexed |
| `Batches.SameUrlStops` | services/api/migrations/0001_initial.sql:56 | two documents with different ids and one url are such an import |
| `SearchIndex.DocumentStore.PersistDocument` | services/api/src/store/search.rs:630-763 | refuses a taken URL; otherwise writes the document's columns, removes exactly the primary rows of its canonical URL unless it is a duplicate, and returns them |
| `SearchIndex.DocumentStore.DeleteDocument` | services/api/src/store/search.rs:557-581 | removes the row and its index entry and no other, and says whether there was one |
| `SearchIndex.DocumentStore.PurgeSite` | services/api/src/store/search.rs:583-628 | removes exactly the rows whose host is the site or ends in a dot and the site, with their index entries, and counts them |
| `SearchIndex.DocumentStore.SelectPage` | services/api/src/store/search.rs:156-199 | a page is the next ids above the last one, in ascending order, at most the limit |
| `SearchIndex.DocumentStore.ReindexExisting` | services/api/src/store/search.rs:139-246 | does nothing if the index is large enough; otherwise, for every batch size, writes each primary row exactly once in id order, unless a row has no blob, which stops it after a prefix |
| `SearchIndex.RebuildAgreesIff` | services/api/src/store/search.rs:154-245 | a complete rebuild ends in agreement if and only if the index held no other ids before |
| `SearchIndex.RevivedRowIsLost` | services/api/src/store/search.rs:405-448 | a row replaced and then written again in one batch is primary but not indexed |
| `SelfUpdate.OneDownloadPerTarget` | services/crawler/src/worker.rs:99-183 | between changes of the wanted version a process never downloads one version twice, and starts at most two downloads, the second of the wanted version |
| `SelfUpdate.SecondDownloadIff` | services/crawler/src/worker.rs:599-641 | when the first download since a change starts, a second may start before the next change if and only if the pending target is not the wanted version and the wanted one is another than the running one |
| `SelfUpdate.StaleTargetIsReachable` | services/crawler/src/worker.rs:286-312 | a history from the start leads to such a first download |
| `SelfUpdate.LateAnswerRetriesIff` | services/crawler/src/worker.rs:118-129 | a client that has given up a target becomes ready to try it again exactly when an answer says pending, and is unchanged by any other |
| `SelfUpdate.BeatKeepsGivenUp` | services/api/src/crawler.rs:2577-2664 | no heartbeat makes the client try again a target it has given up |
| `SelfUpdate.HeartbeatReadiesIff` | services/crawler/src/worker.rs:99-183 | after a heartbeat a client can begin an update if and only if another version than its own is wanted and it has not given it up; and then it begins that one |
| `SelfUpdate.HeartbeatCloses` | services/api/src/crawler.rs:2577-2664 | a heartbeat ends the request if and only if the client runs the wanted version, and otherwise leaves it and records the client's status |
| `SelfUpdate.UpdateCompletes` | services/crawler/src/worker.rs:286-312 | a version asked of an idle client is begun after one heartbeat, and the process that runs it ends the request with its first |
| `SelfUpdate.TagIff` | services/api/src/crawler.rs:4560-4576 | exactly the texts that are letters, digits, dots and hyphens between white space, after any letters v, are read as a version |
| `SelfUpdate.TagsTravelUnchanged` | services/api/src/crawler.rs:4560-4576 | a requested version reaches the client as the server stored it |
| `SelfUpdate.CrawlerRuntimeState.ApplyServerInstruction` | services/crawler/src/worker.rs:99-148 | the fields end as the client's rules say for every answer: target, remembered failure, status and message; the result says whether status or message changed |
| `CrawlDelay.ExtractCrawlDelay` | services/crawler/src/fetch.rs:263-319 | the one-pass parser returns the last parsable delay of the first delay-bearing group of highest positive priority |
| `CrawlDelay.AnswerUnique` | services/crawler/src/fetch.rs:263-319 | there is only one such answer |
| `CrawlDelay.BestIsAnswer` | services/crawler/src/fetch.rs:280-288 | keeping the first strictly better group finds that answer |
| `CrawlDelay.ReadKeepsOutlook` | services/crawler/src/fetch.rs:271-305 | reading one line does not change which group will win |
| `CrawlDelay.SectionPriority` | services/crawler/src/fetch.rs:346-364 | 2 for a group naming this crawler, 1 for the wildcard, 0 otherwise |
| `RobotsText.GroupsReadBack` | services/crawler/src/fetch.rs:263-319 | any groups, written as user-agent and crawl-delay lines, are read back as they are |
| `RobotsText.DelayLineIs` | services/crawler/src/fetch.rs:296-304 | a delay line is read as its number, in any case and spacing, if it is below 2^64 |
| `RobotsText.AgentLineIs` | services/crawler/src/fetch.rs:277-294 | an agent line names its agent in lower case, in any case and spacing |
| `RobotsText.CommentIs` | services/crawler/src/fetch.rs:271-275 | blank lines and comments do not count |
| `RobotsText.PriorityIff` | services/crawler/src/fetch.rs:346-364 | priority 2 goes exactly to a group with this crawler's name, in any case, between white space, before any comment; 1 to others with the wildcard |
| `RobotsText.LastDelayIff` | services/crawler/src/fetch.rs:299-304 | the delay of a group is one that no other follows |
| `Text.ParseU64Iff` | services/crawler/src/fetch.rs:300 | exactly the decimal numbers below 2^64 are read, after an optional plus sign and zeros |

## Left out

- Projection.Apply: taken as one step, or as one that stops at a fault. In the code the row is selected under its lease and then written by job id alone, so another process can take the claim back in between.
- Ingest.ClaimItems: the projector works on a copy of the item row made when it takes it; the model reads the row when it applies it. They differ only if another report replaces reporter and result in between.
- Store.CrawlerStore.ClaimPendingItems: which pending items are taken, up to the limit, is left open; the code takes the oldest of those it does not find locked, and item creation times are not modelled.
- Seeding.AdaptiveRecrawl: reads the source job and enqueues in one step; if all jobs of the budget were removed between the two, the code would insert a row.
- Enqueue.EnqueueOne: inserting the job row and its origin row is one step.
- Store.CrawlerStore.StopAllJobs: the rules it disables are not modelled; due rules are given to the maintenance pass.
- Store.CrawlerStore.RunMaintenance: event trimming and site authority are not modelled, and the pass runs its statements in sequence without other processes in between.
- Urls.NormalizeUrl: path, query and fragment are one text that is already normalised; only scheme, host and port are modelled. Host names lower-case ASCII letters only.
- Recovery.InactiveOn: the SQL patterns on host names are modelled as domain matching.
- SearchIndex.DocumentStore.UpsertDocuments: documents arrive normalised, and index writes succeed.
- SearchIndex.DocumentStore.PurgeSite: the SQL pattern on host names is modelled as domain matching.
- SearchIndex.DocumentStore.ReindexExisting: the table does not change while it is rebuilt; a missing blob is a flag of the row, and document ids are numbers in place of text in its order.
- SelfUpdate.Beat: the server's limit of 64 characters on a crawler's version is not modelled. A heartbeat is one step; only `LateAnswerRetriesIff` looks at one that is not.
- CrawlDelay.Classify: works on lines of decoded text.
- The status column of ingest batches, events, statistics, quotas, developer keys and crawler authentication.
- HTTP, Redis, Postgres wire and blob input and output, search queries, HTML parsing, rendering, the web application.
- Isolation levels and deadlocks of the database, beyond claims that rank one snapshot.
- The shutdown and claiming loop of the crawler process, apart from the rule for pages that need a renderer.
