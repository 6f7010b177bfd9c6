/** How much work a run can do at most: claims are bounded by the page budgets, and between seedings every change of
    a job uses up some of a well-founded measure. */
module Work {
  import opened Tables
  import opened Counting
  import opened Frontier
  import opened Enqueue
  import opened Projection
  import opened Protocol
  import opened JobInvariants
  import opened Budgets

  // ---- counting hits per job and per step -------------------------------

  /** In how many of the steps a job was hit. */
  function Count(hits: seq<set<nat>>, id: nat): nat {
    if hits == [] then 0 else Count(hits[..|hits| - 1], id) + (if id in hits[|hits| - 1] then 1 else 0)
  }

  function Total(hits: seq<set<nat>>): nat {
    if hits == [] then 0 else Total(hits[..|hits| - 1]) + |hits[|hits| - 1]|
  }

  function SumCounts(hits: seq<set<nat>>, n: nat): nat {
    if n == 0 then 0 else SumCounts(hits, n - 1) + Count(hits, n - 1)
  }

  function Below(s: set<nat>, n: nat): set<nat> {
    set id | id in s && id < n
  }

  lemma {:induction false} SumCountsSnoc(hits: seq<set<nat>>, s: set<nat>, n: nat)
    ensures SumCounts(hits + [s], n) == SumCounts(hits, n) + |Below(s, n)|
  {
    assert (hits + [s])[..|hits|] == hits;
    if n == 0 {
      assert Below(s, 0) == {};
    } else {
      SumCountsSnoc(hits, s, n - 1);
      assert Below(s, n) == Below(s, n - 1) + (if n - 1 in s then {n - 1} else {});
    }
  }

  lemma {:induction false} NoHits(n: nat)
    ensures SumCounts([], n) == 0
  {
    if n > 0 {
      NoHits(n - 1);
    }
  }

  /** Counting by step and counting by job give the same total. */
  lemma {:induction false} CountBothWays(hits: seq<set<nat>>, n: nat)
    requires forall k, id :: 0 <= k < |hits| && id in hits[k] ==> id < n
    ensures Total(hits) == SumCounts(hits, n)
  {
    if hits == [] {
      NoHits(n);
    } else {
      var init, last := hits[..|hits| - 1], hits[|hits| - 1];
      CountBothWays(init, n);
      SumCountsSnoc(init, last, n);
      assert init + [last] == hits;
      assert Below(last, n) == last;
    }
  }

  lemma {:induction false} SumCountsAtMost(a: seq<set<nat>>, b: seq<set<nat>>, n: nat)
    requires forall id: nat :: id < n ==> Count(a, id) <= 4 + Count(b, id)
    ensures SumCounts(a, n) <= 4 * n + SumCounts(b, n)
  {
    if n > 0 {
      SumCountsAtMost(a, b, n - 1);
    }
  }

  // ---- claims and revivals of a run -------------------------------------

  function ClaimedBy(e: Event): set<nat> {
    if e.Claim? then e.picked else {}
  }

  function RevivedBy(db: Db, e: Event): set<nat> {
    if e.RetryFailed?
    then set id | id in db.jobs && db.jobs[id].owner == e.owner
        && (db.jobs[id].status.Failed? || db.jobs[id].status.DeadLetter?)
    else {}
  }

  /** The jobs claimed by each of the first i events. */
  function Claims(events: seq<Event>, i: nat): seq<set<nat>>
    requires i <= |events|
  {
    if i == 0 then [] else Claims(events, i - 1) + [ClaimedBy(events[i - 1])]
  }

  function Revivals(states: seq<Db>, events: seq<Event>, i: nat): seq<set<nat>>
    requires i <= |events| && |states| == |events| + 1
  {
    if i == 0 then [] else Revivals(states, events, i - 1) + [RevivedBy(states[i - 1], events[i - 1])]
  }

  lemma MoveCounts(db: Db, e: Event, after: Db, id: nat)
    requires Evolves(db, e, after) && id in db.jobs && id in after.jobs
    ensures after.jobs[id].attempts == db.jobs[id].attempts
                                     + (if ClaimMove(db.jobs[id], after.jobs[id], db.nextLease) then 1 else 0)
    ensures after.jobs[id].adminRetries == db.jobs[id].adminRetries
                                         + (if RetryMove(db.jobs[id], after.jobs[id]) then 1 else 0)
    ensures ClaimMove(db.jobs[id], after.jobs[id], db.nextLease) ==> e.Claim?
    ensures RetryMove(db.jobs[id], after.jobs[id]) ==> e.RetryFailed?
  {
    assert MoveAllowed(e, db.jobs[id], after.jobs[id], db.nextLease);
  }

  lemma ClaimHits(db: Db, e: Event, id: nat)
    requires e.Claim? && Enabled(db, e)
    ensures id in e.picked ==> id in db.jobs && ClaimMove(db.jobs[id], After(db, e).jobs[id], db.nextLease)
    ensures id in db.jobs && id !in e.picked ==> After(db, e).jobs[id] == db.jobs[id]
  {
    assert e.picked <= EligibleJobs(db, e.owner, e.now, e.js);
  }

  lemma RetryHits(db: Db, e: Event, id: nat)
    requires e.RetryFailed? && id in db.jobs
    ensures id in RevivedBy(db, e) <==> RetryMove(db.jobs[id], After(db, e).jobs[id])
  {
  }

  /** One step counts a claim or a revival on a job's own row exactly when it makes one. */
  lemma StepCounts(db: Db, e: Event, id: nat)
    requires IdsBelow(db) && Enabled(db, e)
    ensures var after := After(db, e);
      && (id in db.jobs && id in after.jobs ==>
            after.jobs[id].attempts == db.jobs[id].attempts + (if id in ClaimedBy(e) then 1 else 0) &&
            after.jobs[id].adminRetries == db.jobs[id].adminRetries + (if id in RevivedBy(db, e) then 1 else 0))
      && (id !in db.jobs ==> id !in ClaimedBy(e) && id !in RevivedBy(db, e))
  {
    if e.Claim? {
      ClaimHits(db, e, id);
    }
    if id in db.jobs && id in After(db, e).jobs {
      StepEvolves(db, e);
      MoveCounts(db, e, After(db, e), id);
      if e.RetryFailed? {
        RetryHits(db, e, id);
      }
    }
  }

  lemma CountSnoc(states: seq<Db>, events: seq<Event>, i: nat, id: nat)
    requires 0 < i <= |events| && |states| == |events| + 1
    ensures Count(Claims(events, i), id) == Count(Claims(events, i - 1), id)
        + (if id in ClaimedBy(events[i - 1]) then 1 else 0)
    ensures Count(Revivals(states, events, i), id)
         == Count(Revivals(states, events, i - 1), id)
             + (if id in RevivedBy(states[i - 1], events[i - 1]) then 1 else 0)
  {
    assert Claims(events, i)[..|Claims(events, i - 1)|] == Claims(events, i - 1);
    assert Revivals(states, events, i)[..|Revivals(states, events, i - 1)|] == Revivals(states, events, i - 1);
  }

  /** The history columns of a row count the run's claims and revivals of that job. */
  lemma {:induction false} RowsCountHits(states: seq<Db>, events: seq<Event>, i: nat, id: nat)
    requires IsRun(states, events) && i < |states|
    ensures id in states[i].jobs ==> states[i].jobs[id].attempts == Count(Claims(events, i), id)
    ensures id in states[i].jobs ==> states[i].jobs[id].adminRetries == Count(Revivals(states, events, i), id)
    ensures id >= states[i].nextJob ==> Count(Claims(events, i), id) == 0 && Count(Revivals(states, events, i), id) == 0
  {
    if i > 0 {
      RowsCountHits(states, events, i - 1, id);
      RunKeepsJobsOk(states, events, i - 1);
      var db, e := states[i - 1], events[i - 1];
      assert StepAt(states, events, i - 1);
      StepEvolves(db, e);
      StepCounts(db, e, id);
      CountSnoc(states, events, i, id);
    }
  }

  predicate ThreeAttempts(j: Job) {
    j.maxAttempts == 3
  }

  lemma {:induction false} RunKeepsThreeAttempts(states: seq<Db>, events: seq<Event>, i: nat, id: nat)
    requires IsRun(states, events) && i < |states| && id in states[i].jobs
    ensures ThreeAttempts(states[i].jobs[id])
  {
    if i > 0 {
      RunKeepsJobsOk(states, events, i - 1);
      assert StepAt(states, events, i - 1);
      StepEvolves(states[i - 1], events[i - 1]);
      if id in states[i - 1].jobs {
        RunKeepsThreeAttempts(states, events, i - 1, id);
      }
    }
  }

  ghost predicate WorkersHonest(states: seq<Db>, events: seq<Event>)
    requires |states| == |events| + 1
  {
    forall k :: 0 <= k < |events| ==> WorkerRule(states[k], events[k])
  }

  lemma FourTries(states: seq<Db>, events: seq<Event>, i: nat, id: nat)
    requires IsRun(states, events) && i < |states| && WorkersHonest(states, events) && id in states[i].jobs
    ensures states[i].jobs[id].attempts <= 4 + states[i].jobs[id].adminRetries
  {
    AttemptsBounded(states, events, i, id);
    RunKeepsThreeAttempts(states, events, i, id);
  }

  /** Whatever happens to its row, a job is claimed at most four times, and once more per revival: three attempts and
      one repeat for a JavaScript renderer. */
  lemma {:induction false} ClaimsPerJob(states: seq<Db>, events: seq<Event>, i: nat, id: nat)
    requires IsRun(states, events) && i < |states| && WorkersHonest(states, events)
    ensures Count(Claims(events, i), id) <= 4 + Count(Revivals(states, events, i), id)
  {
    RowsCountHits(states, events, i, id);
    if id in states[i].jobs {
      FourTries(states, events, i, id);
    } else if i > 0 {
      ClaimsPerJob(states, events, i - 1, id);
      RunKeepsJobsOk(states, events, i - 1);
      var db, e := states[i - 1], events[i - 1];
      assert StepAt(states, events, i - 1);
      RemovedRowNotHit(db, e, id);
      CountSnoc(states, events, i, id);
    }
  }

  /** A step that leaves no row for a job did not claim or revive it. */
  lemma RemovedRowNotHit(db: Db, e: Event, id: nat)
    requires IdsBelow(db) && Enabled(db, e) && id !in After(db, e).jobs
    ensures id !in ClaimedBy(e) && id !in RevivedBy(db, e)
  {
    StepCounts(db, e, id);
  }

  /** Every claimed or revived job has an id that was handed out. */
  lemma {:induction false} HitsBelow(states: seq<Db>, events: seq<Event>, i: nat)
    requires IsRun(states, events) && i < |states|
    ensures forall k, id :: 0 <= k < |Claims(events, i)| && id in Claims(events, i)[k] ==> id < states[i].nextJob
    ensures forall k, id ::
        0 <= k < |Revivals(states, events, i)| && id in Revivals(states, events, i)[k] ==> id < states[i].nextJob
  {
    if i > 0 {
      HitsBelow(states, events, i - 1);
      RunKeepsJobsOk(states, events, i - 1);
      var db, e := states[i - 1], events[i - 1];
      assert StepAt(states, events, i - 1);
      StepEvolves(db, e);
      forall id | id in ClaimedBy(e) || id in RevivedBy(db, e)
        ensures id < db.nextJob
      {
        StepCounts(db, e, id);
      }
    }
  }

  // ---- rows and pages ---------------------------------------------------

  function SumPages(budgets: seq<Budget>): int {
    if budgets == [] then 0 else SumPages(budgets[..|budgets| - 1]) + budgets[|budgets| - 1].pages
  }

  function RowsBelow(db: Db, b: nat): set<nat> {
    set id | id in db.jobs && db.jobs[id].budget < b
  }

  lemma {:induction false} RowsWithinPages(db: Db, b: nat)
    requires BudgetsOk(db) && b <= |db.budgets|
    ensures |RowsBelow(db, b)| <= SumPages(db.budgets[..b])
  {
    if b == 0 {
      assert RowsBelow(db, 0) == {};
    } else {
      RowsWithinPages(db, b - 1);
      assert db.budgets[..b][..b - 1] == db.budgets[..b - 1];
      assert RowsBelow(db, b) == RowsBelow(db, b - 1) + PagesOf(db, b - 1);
      assert RowsBelow(db, b - 1) !! PagesOf(db, b - 1);
    }
  }

  /** Ids that were handed out and have no row any more. */
  function Removed(db: Db): set<nat> {
    set id | 0 <= id < db.nextJob && id !in db.jobs
  }

  function UpTo(n: nat): (ids: set<nat>)
    ensures |ids| == n && forall id: nat :: id in ids <==> id < n
  {
    if n == 0 then {} else UpTo(n - 1) + {n - 1}
  }

  lemma CountRows(db: Db)
    requires IdsBelow(db)
    ensures db.nextJob == |db.jobs| + |Removed(db)|
  {
    assert UpTo(db.nextJob) == db.jobs.Keys + Removed(db);
  }

  /** So the ids handed out number at most the pages of all budgets plus the removed rows. */
  lemma IdsWithinPages(db: Db)
    requires BudgetsOk(db) && IdsBelow(db)
    ensures db.nextJob == |db.jobs| + |Removed(db)|
    ensures |db.jobs| <= SumPages(db.budgets)
  {
    CountRows(db);
    RowsWithinPages(db, |db.budgets|);
    assert db.budgets[..|db.budgets|] == db.budgets;
    forall id | id in db.jobs
      ensures id in RowsBelow(db, |db.budgets|)
    {
      assert OnBudget(db, db.jobs[id]);
    }
    assert RowsBelow(db, |db.budgets|) == db.jobs.Keys;
  }

  /** Over any run with honest workers, all claims together number at most four per page of every budget ever opened,
      plus four per removed row and one per revival. */
  lemma TotalWorkBounded(states: seq<Db>, events: seq<Event>, i: nat)
    requires IsRun(states, events) && i < |states| && WorkersHonest(states, events)
    ensures Total(Claims(events, i))
         <= 4 * (SumPages(states[i].budgets) + |Removed(states[i])|) + Total(Revivals(states, events, i))
  {
    var n := states[i].nextJob;
    HitsBelow(states, events, i);
    CountBothWays(Claims(events, i), n);
    CountBothWays(Revivals(states, events, i), n);
    forall id: nat | id < n
      ensures Count(Claims(events, i), id) <= 4 + Count(Revivals(states, events, i), id)
    {
      ClaimsPerJob(states, events, i, id);
    }
    SumCountsAtMost(Claims(events, i), Revivals(states, events, i), n);
    RunKeepsJobsOk(states, events, i);
    RunKeepsBudgets(states, events, i);
    IdsWithinPages(states[i]);
  }

  // ---- without removals and revivals ------------------------------------

  /** Events that may remove job rows. A seeding does so only if it allows revisits. */
  predicate MayRemove(e: Event) {
    || DeletesJobs(e)
    || (IsSeeding(e) && e.revisit)
  }

  /** Ids are handed out one by one, each to a row that the same step leaves in place. */
  lemma StepContiguous(db: Db, e: Event, id: nat)
    requires IdsBelow(db) && Enabled(db, e) && db.nextJob <= id < After(db, e).nextJob
    ensures id in After(db, e).jobs
  {
    if IsSeeding(e) {
      SeedingIsEnqueue(db, e);
      var (open, req, links) := SeedParts(db, e);
      EnqueueFromContiguous(open, req, links, |BudgetJobs(open, req.owner, req.budget)|, e.blacklist, e.stamps, id);
    } else if e.ApplyItem? || e.ApplyStops? {
      ApplyAfterSpread(db, e);
      var j := db.jobs[e.key.1];
      var written := WriteStatus(db, e.key, e.clock, e.blacklist);
      EnqueueFromContiguous(written, ChildRequest(j), AppliedLinks(db, e),
                            |BudgetJobs(written, ChildRequest(j).owner, ChildRequest(j).budget)|, e.blacklist,
                            e.stamps, id);
    } else {
      OnlyEnqueueAddsRows(db, e);
    }
  }

  /** Rows stay unless the event may remove them. */
  lemma StepKeepsRow(db: Db, e: Event, id: nat)
    requires IdsBelow(db) && Enabled(db, e) && !MayRemove(e) && id in db.jobs
    ensures id in After(db, e).jobs
  {
    if IsSeeding(e) {
      SeedingIsEnqueue(db, e);
      var (open, req, links) := SeedParts(db, e);
      EnqueueFromEffect(open, req, links, |BudgetJobs(open, req.owner, req.budget)|, e.blacklist, e.stamps);
    } else if e.ApplyItem? || e.ApplyStops? {
      ApplyTouchesOne(db, e, id);
    } else if e.Report? {
      StageLoopEffect(db, e.owner, e.crawler, e.lease, e.results);
    } else if e.Recrawl? {
      RecrawlEvolves(db, e);
    } else if TakesBack(e) {
      TakingBackIsReturn(db, e);
    }
  }

  lemma StepRemovesNothing(db: Db, e: Event)
    requires IdsBelow(db) && Enabled(db, e) && !MayRemove(e)
    ensures Removed(After(db, e)) == Removed(db)
  {
    var after := After(db, e);
    StepEvolves(db, e);
    forall id: nat | id < after.nextJob
      ensures id in Removed(after) <==> id in Removed(db)
    {
      if id >= db.nextJob {
        StepContiguous(db, e, id);
      } else if id in db.jobs {
        StepKeepsRow(db, e, id);
      }
    }
  }

  lemma {:induction false} NothingRemoved(states: seq<Db>, events: seq<Event>, i: nat)
    requires IsRun(states, events) && i < |states|
    requires forall k :: 0 <= k < |events| ==> !MayRemove(events[k])
    ensures Removed(states[i]) == {}
  {
    if i > 0 {
      NothingRemoved(states, events, i - 1);
      RunKeepsJobsOk(states, events, i - 1);
      assert StepAt(states, events, i - 1);
      StepRemovesNothing(states[i - 1], events[i - 1]);
    }
  }

  lemma {:induction false} NothingRevived(states: seq<Db>, events: seq<Event>, i: nat)
    requires IsRun(states, events) && i < |states|
    requires forall k :: 0 <= k < |events| ==> !events[k].RetryFailed?
    ensures Total(Revivals(states, events, i)) == 0
  {
    if i > 0 {
      NothingRevived(states, events, i - 1);
      var before := Revivals(states, events, i - 1);
      assert Revivals(states, events, i)[..|before|] == before;
    }
  }

  /** Without revivals and removals the claims ever made are at most (3 + 1) per page of every budget. */
  lemma ClaimsWithinPages(states: seq<Db>, events: seq<Event>, i: nat)
    requires IsRun(states, events) && i < |states| && WorkersHonest(states, events)
    requires forall k :: 0 <= k < |events| ==> !events[k].RetryFailed? && !MayRemove(events[k])
    ensures Total(Claims(events, i)) <= (3 + 1) * SumPages(states[i].budgets)
  {
    TotalWorkBounded(states, events, i);
    NothingRemoved(states, events, i);
    NothingRevived(states, events, i);
  }

  // ---- a measure that only goes down ------------------------------------

  /** The work a job still has in it: three moves per claim it may yet get, and those left of the current one. */
  function Potential(j: Job): int {
    3 * (4 + j.adminRetries - j.attempts) + (if j.status.Claimed? then 2 else if j.status.Ingesting? then 1 else 0)
  }

  function Potentials(db: Db): map<nat, int> {
    map id | id in db.jobs :: Potential(db.jobs[id])
  }

  /** All jobs together, and thirteen for every page that may still become a job. */
  function Measure(db: Db): int {
    Sum(Potentials(db), db.nextJob) + 13 * (SumPages(db.budgets) - |db.jobs|)
  }

  /** The jobs a step changes the status of, or adds. */
  function Moved(db: Db, after: Db): set<nat> {
    set id | id in after.jobs && (id in db.jobs ==> db.jobs[id].status != after.jobs[id].status)
  }

  /** Between seedings: no seeding, no revival, no removal. */
  predicate Quiet(e: Event) {
    !IsSeeding(e) && !e.RetryFailed? && !MayRemove(e)
  }

  /** A sum over more ids where every old id in `moved` lost one and every new id brings at most twelve. */
  lemma {:induction false} SumDrops(a: map<nat, int>, b: map<nat, int>, n: nat, m: nat, moved: set<nat>)
    requires n <= m && moved <= b.Keys
    requires forall id <- moved :: id < m
    requires forall id: nat :: id < n ==> (id in a <==> id in b)
    requires forall id <- b :: id < n ==> b[id] + (if id in moved then 1 else 0) <= a[id]
    requires forall id <- b :: n <= id < m ==> b[id] <= 12
    requires forall id: nat :: n <= id < m ==> id in moved
    ensures Sum(b, m) + |moved| <= Sum(a, n) + 13 * (m - n)
    decreases m
  {
    if m == 0 {
      assert moved == {};
    } else {
      var rest := moved - {m - 1};
      SumDrops(a, b, if n == m then n - 1 else n, m - 1, rest);
      assert m - 1 in moved ==> |moved| == |rest| + 1;
      assert m - 1 !in moved ==> moved == rest;
    }
  }

  lemma PotentialDrops(j: Job, k: Job, lease: nat)
    requires JobMove(j, k, lease) && !RetryMove(j, k)
    ensures Potential(k) + (if j.status != k.status then 1 else 0) <= Potential(j)
  {
  }

  /** How one id's potential changes: an old id's drops by one if its job moved, a new one's starts at twelve or
      less. */
  predicate PotentialStep(db: Db, after: Db, id: nat) {
    if id < db.nextJob then
      && (id in db.jobs <==> id in after.jobs)
      && (id in after.jobs ==>
            Potential(after.jobs[id]) + (if id in Moved(db, after) then 1 else 0) <= Potential(db.jobs[id]))
    else id in after.jobs && id in Moved(db, after) && Potential(after.jobs[id]) <= 12
  }

  lemma EvolvedPotential(db: Db, e: Event, after: Db, id: nat)
    requires JobsOk(db) && Quiet(e) && Evolves(db, e, after)
    requires id in after.jobs <==> id in db.jobs || id >= db.nextJob
    ensures PotentialStep(db, after, id)
  {
    if id in db.jobs {
      assert MoveAllowed(e, db.jobs[id], after.jobs[id], db.nextLease);
      PotentialDrops(db.jobs[id], after.jobs[id], db.nextLease);
    }
  }

  lemma QuietStepPotential(db: Db, e: Event, id: nat)
    requires JobsOk(db) && Enabled(db, e) && Quiet(e) && id < After(db, e).nextJob
    requires Evolves(db, e, After(db, e))
    ensures PotentialStep(db, After(db, e), id)
  {
    if id >= db.nextJob {
      StepContiguous(db, e, id);
    } else if id in db.jobs {
      StepKeepsRow(db, e, id);
    }
    EvolvedPotential(db, e, After(db, e), id);
  }

  lemma PotentialsAddUp(db: Db, after: Db)
    requires IdsBelow(db) && IdsBelow(after) && db.nextJob <= after.nextJob
    requires after.budgets == db.budgets && Removed(after) == Removed(db)
    requires forall id: nat :: id < after.nextJob ==> PotentialStep(db, after, id)
    ensures Measure(after) + |Moved(db, after)| <= Measure(db)
  {
    CountRows(db);
    CountRows(after);
    var a, b, n, m := Potentials(db), Potentials(after), db.nextJob, after.nextJob;
    forall id: nat | id < m
      ensures id < n ==> (id in a <==> id in b)
      ensures id in b && id < n ==> b[id] + (if id in Moved(db, after) then 1 else 0) <= a[id]
      ensures n <= id ==> id in Moved(db, after) && id in b && b[id] <= 12
    {
      assert PotentialStep(db, after, id);
    }
    SumDrops(a, b, n, m, Moved(db, after));
  }

  /** Between seedings every step lowers the measure by at least one for each job it moves or adds. */
  lemma QuietStepLowersMeasure(db: Db, e: Event)
    requires JobsOk(db) && Enabled(db, e) && Quiet(e)
    ensures Measure(After(db, e)) + |Moved(db, After(db, e))| <= Measure(db)
  {
    var after := After(db, e);
    StepEvolves(db, e);
    StepRemovesNothing(db, e);
    forall id: nat | id < after.nextJob
      ensures PotentialStep(db, after, id)
    {
      QuietStepPotential(db, e, id);
    }
    PotentialsAddUp(db, after);
  }

  lemma {:induction false} SumNonNegative(a: map<nat, int>, n: nat)
    requires forall id <- a :: 0 <= a[id]
    ensures 0 <= Sum(a, n)
  {
    if n > 0 {
      SumNonNegative(a, n - 1);
    }
  }

  /** With honest workers the measure is never negative. */
  lemma MeasureNonNegative(states: seq<Db>, events: seq<Event>, i: nat)
    requires IsRun(states, events) && i < |states| && WorkersHonest(states, events)
    ensures 0 <= Measure(states[i])
  {
    RunKeepsJobsOk(states, events, i);
    RunKeepsBudgets(states, events, i);
    IdsWithinPages(states[i]);
    forall id | id in states[i].jobs
      ensures 0 <= Potential(states[i].jobs[id])
    {
      FourTries(states, events, i, id);
    }
    SumNonNegative(Potentials(states[i]), states[i].nextJob);
  }

  /** The number of times jobs were moved or added from step i up to step k. */
  function Moves(states: seq<Db>, i: nat, k: nat): nat
    requires i <= k < |states|
    decreases k
  {
    if i == k then 0 else Moves(states, i, k - 1) + |Moved(states[k - 1], states[k])|
  }

  predicate LowersAt(states: seq<Db>, k: nat)
    requires k + 1 < |states|
  {
    Measure(states[k + 1]) + |Moved(states[k], states[k + 1])| <= Measure(states[k])
  }

  lemma QuietStateLowersMeasure(states: seq<Db>, events: seq<Event>, k: nat)
    requires IsRun(states, events) && k < |events| && Quiet(events[k])
    ensures LowersAt(states, k)
  {
    RunKeepsJobsOk(states, events, k);
    assert StepAt(states, events, k);
    QuietStepLowersMeasure(states[k], events[k]);
  }

  lemma {:induction false} MovesLowerMeasure(states: seq<Db>, i: nat, k: nat)
    requires i <= k < |states|
    requires forall m :: i <= m < k ==> LowersAt(states, m)
    ensures Measure(states[k]) + Moves(states, i, k) <= Measure(states[i])
    decreases k
  {
    if i < k {
      MovesLowerMeasure(states, i, k - 1);
      assert LowersAt(states, k - 1);
    }
  }

  /** So however long a stretch between seedings lasts, it moves and adds jobs at most as often as the measure at its
      start says: the crawl comes to rest. */
  lemma QuietStretchComesToRest(states: seq<Db>, events: seq<Event>, i: nat, k: nat)
    requires IsRun(states, events) && i <= k < |states| && WorkersHonest(states, events)
    requires forall m :: i <= m < k ==> Quiet(events[m])
    ensures Moves(states, i, k) <= Measure(states[i])
  {
    forall m | i <= m < k
      ensures LowersAt(states, m)
    {
      QuietStateLowersMeasure(states, events, m);
    }
    MovesLowerMeasure(states, i, k);
    MeasureNonNegative(states, events, k);
  }
}
