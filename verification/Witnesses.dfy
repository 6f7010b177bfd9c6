/** Runs from empty tables in which things happen that one would rather not see. */
module Witnesses {
  import opened Wrappers
  import opened Urls
  import opened Tables
  import opened Frontier
  import opened Enqueue
  import opened Seeding
  import opened Ingest
  import opened Outcome
  import opened Projection
  import opened Recovery
  import opened Protocol
  import opened Orphans
  import opened Safety
  import opened Overlap

  // ---- a small world ----------------------------------------------------

  function Page(host: string, page: string): Url {
    Url("https", Some(host), None, page)
  }

  function Home(host: string): OriginKey {
    OriginKey("https", Lower(host), None)
  }

  /** Seeding one page, with a budget of two pages and a limit of one per origin. */
  function SeedPages(owner: string, links: seq<Link>, t: Time): Event {
    Seed(owner, links, 0, 2, 1, SameHost, 1, false, [], (id: nat) => t)
  }

  function Request(owner: string, budget: nat): EnqueueRequest {
    EnqueueRequest(owner := owner, budget := budget, depth := 0, maxDepth := 0, maxPages := 2, concurrency := 1,
                   scope := SameHost, host := None, maxDiscovered := 1, allowRevisit := false)
  }

  function Row(owner: string, host: string, page: string, budget: nat, t: Time): Job {
    NewJob(Request(owner, budget), Page(host, page), Home(host), t)
  }

  lemma PageAdmitted(host: string, page: string)
    ensures Admitted(Some(Page(host, page)), []) == Some((Page(host, page), Home(host)))
  {
  }

  /** A page that is not there yet is inserted. */
  lemma PageInserted(db: Db, owner: string, host: string, page: string, budget: nat, t: Time)
    requires !HasUrl(db, owner, Page(host, page))
    ensures Accepts(db, Request(owner, budget), Some(Page(host, page)), [])
    ensures EnqueueOne(db, Request(owner, budget), Some(Page(host, page)), [], (id: nat) => t)
         == InsertJob(db, Row(owner, host, page, budget, t), t)
  {
    PageAdmitted(host, page);
  }

  lemma {:induction false} EnqueueNone(db: Db, req: EnqueueRequest, used: int, t: Time)
    ensures EnqueueFrom(db, req, [], used, [], (id: nat) => t) == db
  {
  }

  lemma OnePageSeeded(db: Db, owner: string, host: string, page: string, t: Time)
    requires !HasUrl(db, owner, Page(host, page)) && BudgetJobs(OpenBudget(db, owner, 2), owner, |db.budgets|) == {}
    ensures After(db, SeedPages(owner, [Some(Page(host, page))], t))
         == InsertJob(OpenBudget(db, owner, 2), Row(owner, host, page, |db.budgets|, t), t)
  {
    var open, req, links := OpenBudget(db, owner, 2), Request(owner, |db.budgets|), [Some(Page(host, page))];
    var stamps := (id: nat) => t;
    PageInserted(open, owner, host, page, |db.budgets|, t);
    assert links[1..] == [];
    EnqueueNone(InsertJob(open, Row(owner, host, page, |db.budgets|, t), t), req, 1, t);
    assert EnqueueFrom(open, req, links, 0, [], stamps)
        == EnqueueFrom(EnqueueOne(open, req, links[0], [], stamps), req, links[1..], 1, [], stamps);
    assert After(db, SeedPages(owner, links, t)) == EnqueueAll(open, req, links, [], stamps);
  }

  /** The tables after the first page was seeded at time 0. */
  function First(owner: string, host: string, page: string): Db {
    Db(map[0 := Row(owner, host, page, 0, 0)], map[(owner, Home(host)) := Origin(0, 0, 0)], map[], [Budget(owner, 2)],
        1, 0, multiset{})
  }

  lemma FirstSeeded(owner: string, host: string, page: string)
    ensures After(EMPTY_DB, SeedPages(owner, [Some(Page(host, page))], 0)) == First(owner, host, page)
  {
    assert BudgetJobs(OpenBudget(EMPTY_DB, owner, 2), owner, 0) == {};
    OnePageSeeded(EMPTY_DB, owner, host, page, 0);
  }

  /** A single eligible job with nothing active on its origin can be claimed. */
  lemma OnlyOneClaimable(db: Db, owner: string, crawler: string, js: bool, now: Time, id: nat)
    requires EligibleJobs(db, owner, now, js) == {id} && ActiveOn(db, OriginRow(db.jobs[id])) == {}
    requires EffectiveLimit(db.jobs[id]) == 1
    ensures Enabled(db, Claim(owner, crawler, js, now, 1, map[id := 1], {}, {id}))
  {
    AloneRank(db, id);
    var rank: map<nat, nat> := map[id := 1];
    assert Candidates(db, rank) == {id};
  }

  lemma FirstEligible(owner: string, host: string, page: string, now: Time, js: bool)
    requires now >= 0
    ensures EligibleJobs(First(owner, host, page), owner, now, js) == {0}
    ensures ActiveOn(First(owner, host, page), (owner, Home(host))) == {}
  {
    assert Eligible(First(owner, host, page), owner, now, js, First(owner, host, page).jobs[0]);
  }

  /** The tables after the first page was also claimed at time 0. */
  function Taken(owner: string, host: string, page: string, crawler: string, js: bool): Db {
    First(owner, host, page).(
      jobs := map[0 := ClaimedJob(Row(owner, host, page, 0, 0), 0, crawler, js, 0)],
      origins := map[(owner, Home(host)) := Origin(0, 1, 0)],
      nextLease := 1)
  }

  lemma FirstPicked(owner: string, host: string, page: string, crawler: string, js: bool)
    ensures ClaimPicked(First(owner, host, page), owner, crawler, js, 0, {0}) == Taken(owner, host, page, crawler, js)
  {
    var db := First(owner, host, page);
    assert OnRow(db, {0}, (owner, Home(host))) == {0};
    var after := ClaimPicked(db, owner, crawler, js, 0, {0});
    assert after.jobs == Taken(owner, host, page, crawler, js).jobs;
    assert after.origins == Taken(owner, host, page, crawler, js).origins;
  }

  lemma FirstTaken(owner: string, host: string, page: string, crawler: string, js: bool)
    ensures Enabled(First(owner, host, page), Claim(owner, crawler, js, 0, 1, map[0 := 1], {}, {0}))
    ensures After(First(owner, host, page), Claim(owner, crawler, js, 0, 1, map[0 := 1], {}, {0}))
        == Taken(owner, host, page, crawler, js)
  {
    FirstEligible(owner, host, page, 0, js);
    OnlyOneClaimable(First(owner, host, page), owner, crawler, js, 0, 0);
    FirstPicked(owner, host, page, crawler, js);
  }

  /** Some history leads to these tables. */
  ghost predicate Reachable(db: Db) {
    exists history :: Reaches(history, db)
  }

  lemma EmptyReachable()
    ensures Reachable(EMPTY_DB)
  {
    EmptyReached();
  }

  lemma OneStep(db: Db, e: Event, after: Db)
    requires Reachable(db) && Enabled(db, e) && After(db, e) == after
    ensures Reachable(after)
  {
    var history :| Reaches(history, db);
    ReachesOneMore(history, db, e);
  }

  // ---- a claim between the two statements of a stop ---------------------

  lemma NothingToStop(owner: string)
    ensures After(EMPTY_DB, StopJobs(owner)) == EMPTY_DB
  {
    assert DeleteUnfinished(EMPTY_DB, owner).jobs == map[] && DeleteUnfinished(EMPTY_DB, owner).origins == map[];
  }

  /** Stop's delete, a seed, a claim, stop's reset: the tables that result. */
  lemma StopAroundClaim(owner: string, host: string, page: string, crawler: string)
    ensures Reachable(ResetOrigins(Taken(owner, host, page, crawler, false), owner, 0))
  {
    var taken := Taken(owner, host, page, crawler, false);
    EmptyReachable();
    NothingToStop(owner);
    OneStep(EMPTY_DB, StopJobs(owner), EMPTY_DB);
    FirstSeeded(owner, host, page);
    OneStep(EMPTY_DB, SeedPages(owner, [Some(Page(host, page))], 0), First(owner, host, page));
    FirstTaken(owner, host, page, crawler, false);
    OneStep(First(owner, host, page), Claim(owner, crawler, false, 0, 1, map[0 := 1], {}, {0}), taken);
    OneStep(taken, StopOrigins(owner, 0), ResetOrigins(taken, owner, 0));
  }

  /** A stop deletes the owner's jobs; before it resets the counters another page is seeded and claimed. The counter is
      then zero with one active job. */
  lemma StopLosesCount(owner: string, host: string, page: string, crawler: string)
    ensures exists db :: Reachable(db) && CountsTooLow(db, (owner, Home(host)))
  {
    var db := ResetOrigins(Taken(owner, host, page, crawler, false), owner, 0);
    StopAroundClaim(owner, host, page, crawler);
    ResetWhileActive(owner, host, page, crawler);
    assert Reachable(db) && CountsTooLow(db, (owner, Home(host)));
  }

  predicate CountsTooLow(db: Db, row: (string, OriginKey)) {
    row in db.origins && db.origins[row].inFlight < |ActiveOn(db, row)|
  }

  lemma ResetWhileActive(owner: string, host: string, page: string, crawler: string)
    ensures CountsTooLow(ResetOrigins(Taken(owner, host, page, crawler, false), owner, 0), (owner, Home(host)))
  {
    assert ActiveOn(ResetOrigins(Taken(owner, host, page, crawler, false), owner, 0), (owner, Home(host))) == {0};
  }

  // ---- rivals that tie --------------------------------------------------

  /** The tables after another page of the host was seeded, also at time 0. */
  function Pair(owner: string, host: string, p: string, q: string): Db {
    InsertJob(OpenBudget(First(owner, host, p), owner, 2), Row(owner, host, q, 1, 0), 0)
  }

  lemma PairSeeded(owner: string, host: string, p: string, q: string)
    requires p != q
    ensures After(First(owner, host, p), SeedPages(owner, [Some(Page(host, q))], 0)) == Pair(owner, host, p, q)
  {
    assert BudgetJobs(OpenBudget(First(owner, host, p), owner, 2), owner, 1) == {};
    OnePageSeeded(First(owner, host, p), owner, host, q, 0);
  }

  ghost predicate TiedRivals(db: Db, owner: string) {
    && Rivals(db, owner, 0, 1) && EligibleJobs(db, owner, 0, false) == {0, 1}
    && BothCanWin(db, 0, 1) && !Roomy(db, {0, 1})
  }

  lemma PairRivals(owner: string, host: string, p: string, q: string)
    ensures Rivals(Pair(owner, host, p, q), owner, 0, 1)
    ensures EligibleJobs(Pair(owner, host, p, q), owner, 0, false) == {0, 1}
  {
    var db := Pair(owner, host, p, q);
    assert db.jobs.Keys == {0, 1};
    assert ActiveOn(db, (owner, Home(host))) == {};
    assert Eligible(db, owner, 0, false, db.jobs[0]) && Eligible(db, owner, 0, false, db.jobs[1]);
  }

  lemma TiedMayBothBeTaken(db: Db, owner: string)
    requires Rivals(db, owner, 0, 1) && !Sooner(db.jobs[0], db.jobs[1]) && !Sooner(db.jobs[1], db.jobs[0])
    ensures MayTake(db, {0, 1}) == {0, 1}
  {
    assert SoonerThan(db, {0, 1}, 0) == {} && SoonerThan(db, {0, 1}, 1) == {};
  }

  lemma NoRoomForTwo(db: Db, owner: string)
    requires Rivals(db, owner, 0, 1) && MayTake(db, {0, 1}) == {0, 1}
    ensures !Roomy(db, {0, 1})
  {
    var row := (owner, db.jobs[0].origin);
    var all := Narrow(db, row, 1) + NarrowTaken(db, {0, 1}, row, 1);
    assert all == {0, 1};
  }

  /** Two pages seeded one after the other in one instant tie: each may be taken, and there is no room for both. */
  lemma TiedRivalsReachable(owner: string, host: string, p: string, q: string)
    requires p != q
    ensures exists db :: Reachable(db) && TiedRivals(db, owner)
  {
    var db := Pair(owner, host, p, q);
    EmptyReachable();
    FirstSeeded(owner, host, p);
    OneStep(EMPTY_DB, SeedPages(owner, [Some(Page(host, p))], 0), First(owner, host, p));
    PairSeeded(owner, host, p, q);
    OneStep(First(owner, host, p), SeedPages(owner, [Some(Page(host, q))], 0), db);
    PairRivals(owner, host, p, q);
    RivalsBreakCapIffTied(db, owner, 0, 1);
    TiedMayBothBeTaken(db, owner);
    NoRoomForTwo(db, owner);
    assert Reachable(db) && TiedRivals(db, owner);
  }

  // ---- rivals that only some crawlers see -------------------------------

  /** What a crawler without a renderer reports of the first page. */
  function NeedsRenderer(host: string, page: string): CrawlResult {
    CrawlResult(jobId := 0, url := Page(host, page), statusCode := 200, finalUrl := None, discovered := [],
        indexable := false,
                llmShouldIndex := None, retryable := Some(true), errorKind := Some(RequiresJsRender),
                crawlDelay := None,
                retryAfter := None)
  }

  /** The tables after the first page was reported by the crawler that holds it. */
  function Reported(owner: string, host: string, page: string, crawler: string): Db {
    var taken := Taken(owner, host, page, crawler, false);
    taken.(jobs := map[0 := taken.jobs[0].(status := Ingesting)],
           items := map[(0, 0) := Item(owner, crawler, Pending, None, NeedsRenderer(host, page))])
  }

  lemma FirstReported(owner: string, host: string, page: string, crawler: string)
    ensures After(Taken(owner, host, page, crawler, false), Report(owner, crawler, 0, [NeedsRenderer(host, page)]))
         == Reported(owner, host, page, crawler)
  {
    var db, r := Taken(owner, host, page, crawler, false), NeedsRenderer(host, page);
    var staged := StageItem(db, owner, crawler, 0, r);
    assert [r][1..] == [];
    assert StageLoop(staged, owner, crawler, 0, []) == Staged(staged, true);
    assert StageLoop(db, owner, crawler, 0, [r]) == Staged(staged, true);
    assert ReportedIds([r]) == {0};
    assert AcceptReport(staged, owner, crawler, 0, {0}).jobs == Reported(owner, host, page, crawler).jobs;
  }

  /** The tables after that report was applied at time 0. */
  function Requeued(owner: string, host: string, page: string, crawler: string): Db {
    var reported := Reported(owner, host, page, crawler);
    reported.(jobs := map[0 := WriteOutcome(reported.jobs[0], NeedsRenderer(host, page), RequiresJs)],
              origins := map[(owner, Home(host)) := Origin(1, 0, 0)])
  }

  lemma RendererWrite(owner: string, host: string, page: string, crawler: string)
    ensures var db, r := Reported(owner, host, page, crawler), NeedsRenderer(host, page);
      UpdateOrigins(WriteStatus(db, (0, 0), 0, []), db.jobs[0], r, 0) == Requeued(owner, host, page, crawler)
  {
    var db, r := Reported(owner, host, page, crawler), NeedsRenderer(host, page);
    assert OutcomeOf(db.jobs[0], r, 0, []) == RequiresJs;
    assert OriginWait(r) == 1;
    assert FinalRow(db.jobs[0], r) == None;
  }

  lemma FirstRequeued(owner: string, host: string, page: string, crawler: string)
    ensures CanApply(Reported(owner, host, page, crawler), (0, 0))
    ensures After(Reported(owner, host, page, crawler), ApplyItem((0, 0), 0, 0, (id: nat) => 0, []))
        == Requeued(owner, host, page, crawler)
  {
    assert OutcomeOf(Reported(owner, host, page, crawler).jobs[0], NeedsRenderer(host, page), 0, []) == RequiresJs;
    RendererWrite(owner, host, page, crawler);
  }

  /** The tables after another page of the host was seeded at time 1. */
  function Mixed(owner: string, host: string, p: string, q: string, crawler: string): Db {
    var db := Requeued(owner, host, p, crawler);
    InsertJob(OpenBudget(db, owner, 2), Row(owner, host, q, 1, 1), 1)
  }

  lemma SecondSeeded(owner: string, host: string, p: string, q: string, crawler: string)
    requires p != q
    ensures After(Requeued(owner, host, p, crawler), SeedPages(owner, [Some(Page(host, q))], 1))
        == Mixed(owner, host, p, q, crawler)
  {
    var db := Requeued(owner, host, p, crawler);
    assert BudgetJobs(OpenBudget(db, owner, 2), owner, 1) == {};
    OnePageSeeded(db, owner, host, q, 1);
  }

  ghost predicate MixedRivals(db: Db, owner: string) {
    && Rivals(db, owner, 0, 1) && Sooner(db.jobs[0], db.jobs[1])
    && EligibleJobs(db, owner, 1, true) == {0, 1} && EligibleJobs(db, owner, 1, false) == {1}
  }

  lemma MixedAreRivals(owner: string, host: string, p: string, q: string, crawler: string)
    ensures MixedRivals(Mixed(owner, host, p, q, crawler), owner)
  {
    var db := Mixed(owner, host, p, q, crawler);
    assert db.jobs.Keys == {0, 1};
    assert ActiveOn(db, (owner, Home(host))) == {};
    assert Eligible(db, owner, 1, true, db.jobs[0]) && Eligible(db, owner, 1, true, db.jobs[1]);
    assert Eligible(db, owner, 1, false, db.jobs[1]) && !Eligible(db, owner, 1, false, db.jobs[0]);
  }

  /** Every report of the history was made in one step by one of these crawlers, with at most so many results. */
  predicate OnlyReports(history: seq<Event>, crawlers: set<string>, most: nat) {
    forall i :: 0 <= i < |history| ==> MayReport(history[i], crawlers, most)
  }

  predicate MayReport(e: Event, crawlers: set<string>, most: nat) {
    !e.StageOne? && !e.AcceptStaged? && (e.Report? ==> e.crawler in crawlers && |e.results| <= most)
  }

  /** Some history with only such reports leads to these tables. */
  ghost predicate ReachableBy(db: Db, crawlers: set<string>, most: nat) {
    exists history :: Reaches(history, db) && OnlyReports(history, crawlers, most)
  }

  lemma EmptyReachableBy(crawlers: set<string>, most: nat)
    ensures ReachableBy(EMPTY_DB, crawlers, most)
  {
    EmptyReached();
    assert OnlyReports([], crawlers, most);
  }

  lemma OneStepBy(db: Db, e: Event, after: Db, crawlers: set<string>, most: nat)
    requires ReachableBy(db, crawlers, most) && Enabled(db, e) && After(db, e) == after && MayReport(e, crawlers, most)
    ensures ReachableBy(after, crawlers, most)
  {
    var history :| Reaches(history, db) && OnlyReports(history, crawlers, most);
    ReachesOneMore(history, db, e);
    assert OnlyReports(history + [e], crawlers, most);
  }

  lemma TakenReachable(owner: string, host: string, page: string, crawler: string, crawlers: set<string>, most: nat)
    ensures ReachableBy(Taken(owner, host, page, crawler, false), crawlers, most)
  {
    var seed := SeedPages(owner, [Some(Page(host, page))], 0);
    var claim := Claim(owner, crawler, false, 0, 1, map[0 := 1], {}, {0});
    EmptyReachableBy(crawlers, most);
    FirstSeeded(owner, host, page);
    OneStepBy(EMPTY_DB, seed, First(owner, host, page), crawlers, most);
    FirstTaken(owner, host, page, crawler, false);
    OneStepBy(First(owner, host, page), claim, Taken(owner, host, page, crawler, false), crawlers, most);
  }

  lemma ReportedReachable(owner: string, host: string, page: string, crawler: string, crawlers: set<string>, most: nat)
    requires crawler in crawlers && most >= 1
    ensures ReachableBy(Reported(owner, host, page, crawler), crawlers, most)
  {
    var report := Report(owner, crawler, 0, [NeedsRenderer(host, page)]);
    TakenReachable(owner, host, page, crawler, crawlers, most);
    FirstReported(owner, host, page, crawler);
    OneStepBy(Taken(owner, host, page, crawler, false), report, Reported(owner, host, page, crawler), crawlers, most);
  }

  /** A page that was sent back for a renderer and a newer page of its host are such rivals. */
  lemma MixedRivalsReachable(owner: string, host: string, p: string, q: string, crawler: string)
    requires p != q
    ensures exists db :: Reachable(db) && MixedRivals(db, owner)
  {
    var apply := ApplyItem((0, 0), 0, 0, (id: nat) => 0, []);
    var mixed := Mixed(owner, host, p, q, crawler);
    ReportedReachable(owner, host, p, crawler, {crawler}, 1);
    FirstRequeued(owner, host, p, crawler);
    OneStep(Reported(owner, host, p, crawler), apply, Requeued(owner, host, p, crawler));
    SecondSeeded(owner, host, p, q, crawler);
    OneStep(Requeued(owner, host, p, crawler), SeedPages(owner, [Some(Page(host, q))], 1), mixed);
    MixedAreRivals(owner, host, p, q, crawler);
    assert Reachable(mixed) && MixedRivals(mixed, owner);
  }

  // ---- orphaned jobs ----------------------------------------------------

  /** A job is ingesting under a lease, but the item of that lease has failed. */
  ghost predicate Orphaned(db: Db) {
    exists key: (nat, nat) :: OrphanedBy(db, key)
  }

  predicate OrphanedBy(db: Db, key: (nat, nat)) {
    && key.1 in db.jobs && db.jobs[key.1].status.Ingesting? && db.jobs[key.1].lease == Some(key.0)
    && key in db.items && db.items[key].status.ItemFailed?
  }

  /** The projector takes an item whose job is not ingesting for it, and fails it. */
  lemma ItemRejected(db: Db, key: (nat, nat), crawlers: set<string>, most: nat)
    requires ReachableBy(db, crawlers, most) && key in db.items && db.items[key].status.Pending?
    requires !Projectable(ClaimItems(db, {key}, 0), key)
    ensures ReachableBy(FailProjection(ClaimItems(db, {key}, 0), key), crawlers, most)
  {
    var taken := ClaimItems(db, {key}, 0);
    OneStepBy(db, TakeItems(1, {key}, 0), taken, crawlers, most);
    OneStepBy(taken, FailJob(key), taken, crawlers, most);
    OneStepBy(taken, FailItem(key), SetItemStatus(taken, key, ItemFailed), crawlers, most);
  }

  /** A report of the held job and of an unknown one is refused half way; the projector fails what it staged; the
      holder reports again. So one crawler alone can orphan its job, by a report of two results. */
  lemma PartialReportReachable(owner: string, host: string, page: string, crawler: string)
    ensures exists db :: ReachableBy(db, {crawler}, 2) && Orphaned(db)
  {
    var db, good := Taken(owner, host, page, crawler, false), NeedsRenderer(host, page);
    var bad, key := good.(jobId := 1), (0, 0);
    TakenReachable(owner, host, page, crawler, {crawler}, 2);
    PartialReportOrphans(db, owner, crawler, 0, good, bad, 0);
    HalfStaged(db, owner, crawler, good, bad);
    var failed := StageReport(db, owner, crawler, 0, [good, bad]).db;
    OneStepBy(db, Report(owner, crawler, 0, [good, bad]), failed, {crawler}, 2);
    ItemRejected(failed, key, {crawler}, 2);
    var rejected := FailProjection(ClaimItems(failed, {key}, 0), key);
    var again := StageReport(rejected, owner, crawler, 0, [good]).db;
    OneStepBy(rejected, Report(owner, crawler, 0, [good]), again, {crawler}, 2);
    assert OrphanedBy(again, key);
  }

  lemma HalfStaged(db: Db, owner: string, crawler: string, good: CrawlResult, bad: CrawlResult)
    requires ReportedUrl(db, owner, crawler, 0, 0) == Some(good.url) && good.jobId == 0 && bad.jobId == 1
    requires db.jobs[0].status.Claimed? && 1 !in db.jobs && db.items == map[]
    ensures var failed := StageReport(db, owner, crawler, 0, [good, bad]).db;
      (0, 0) in failed.items && failed.items[(0, 0)].status.Pending? && failed.jobs == db.jobs
  {
    var staged := StageItem(db, owner, crawler, 0, good);
    assert [good, bad][1..] == [bad];
    assert StageLoop(staged, owner, crawler, 0, [bad]) == Staged(staged, false);
    assert StageLoop(db, owner, crawler, 0, [good, bad]) == Staged(staged, false);
  }

  /** Another crawler reports the staged pair again, and the projector then no longer finds the job. So two crawlers
      can orphan one even with reports of a single result. */
  lemma ForeignReportReachable(owner: string, host: string, page: string, crawler: string, other: string)
    requires other != crawler
    ensures exists db :: ReachableBy(db, {crawler, other}, 1) && Orphaned(db)
  {
    var db, r, key := Reported(owner, host, page, crawler), NeedsRenderer(host, page), (0, 0);
    ReportedReachable(owner, host, page, crawler, {crawler, other}, 1);
    ForeignReportOrphans(db, owner, other, 0, r, 0);
    ForeignStaged(owner, host, page, crawler, other);
    var taken := StageReport(db, owner, other, 0, [r]).db;
    OneStepBy(db, Report(owner, other, 0, [r]), taken, {crawler, other}, 1);
    ItemRejected(taken, key, {crawler, other}, 1);
    assert OrphanedBy(FailProjection(ClaimItems(taken, {key}, 0), key), key);
  }

  lemma ForeignStaged(owner: string, host: string, page: string, crawler: string, other: string)
    requires other != crawler
    ensures var db, r := Reported(owner, host, page, crawler), NeedsRenderer(host, page);
      var taken := StageReport(db, owner, other, 0, [r]).db;
      taken.jobs == db.jobs && (0, 0) in taken.items && taken.items[(0, 0)].status.Pending?
      && taken.items[(0, 0)].crawler == other
  {
    var db, r := Reported(owner, host, page, crawler), NeedsRenderer(host, page);
    var staged := StageItem(db, owner, other, 0, r);
    assert [r][1..] == [];
    assert StageLoop(staged, owner, other, 0, []) == Staged(staged, true);
    assert StageLoop(db, owner, other, 0, [r]) == Staged(staged, true);
    assert AcceptReport(staged, owner, other, 0, ReportedIds([r])).jobs == db.jobs;
  }
}
