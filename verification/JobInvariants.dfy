/** What every job row keeps in every reachable state: its claim columns, its lease, and how often it can be tried. */
module JobInvariants {
  import opened Wrappers
  import opened Tables
  import opened Frontier
  import opened Enqueue
  import opened Ingest
  import opened Outcome
  import opened Projection
  import opened Recovery
  import opened Protocol

  /** A job is tried at most `max(maxAttempts, 1)` times plus once per JavaScript requeue and once per revival;
      while it is queued one try is still to spare. */
  predicate AttemptBound(j: Job) {
    j.attempts + (if j.status.Queued? then 1 else 0) <= EffectiveAttempts(j) + j.jsRequeues + j.adminRetries
  }

  predicate JobOk(j: Job, nextLease: nat) {
    ClaimColumns(j) && AttemptBound(j) && (j.lease.Some? ==> j.lease.value < nextLease)
  }

  ghost predicate JobsOk(db: Db) {
    IdsBelow(db) && forall id <- db.jobs :: JobOk(db.jobs[id], db.nextLease)
  }

  lemma JobMoveKeepsOk(j: Job, k: Job, lease: nat, nextLease: nat)
    requires JobOk(j, lease) && JobMove(j, k, lease)
    requires nextLease == lease || (nextLease == lease + 1)
    requires ClaimMove(j, k, lease) ==> nextLease == lease + 1
    ensures JobOk(k, nextLease)
  {
  }

  lemma StepKeepsJobsOk(db: Db, e: Event)
    requires JobsOk(db) && Enabled(db, e)
    ensures JobsOk(After(db, e))
  {
    StepEvolves(db, e);
    EvolvingKeepsJobsOk(db, e, After(db, e));
  }

  lemma EvolvingKeepsJobsOk(db: Db, e: Event, after: Db)
    requires JobsOk(db) && Evolves(db, e, after) && IdsBelow(after)
    ensures JobsOk(after)
  {
    forall id | id in after.jobs
      ensures JobOk(after.jobs[id], after.nextLease)
    {
      if id in db.jobs {
        assert MoveAllowed(e, db.jobs[id], after.jobs[id], db.nextLease);
        JobMoveKeepsOk(db.jobs[id], after.jobs[id], db.nextLease, after.nextLease);
      }
    }
  }

  lemma {:induction false} RunKeepsJobsOk(states: seq<Db>, events: seq<Event>, i: nat)
    requires IsRun(states, events) && i < |states|
    ensures JobsOk(states[i])
  {
    if i > 0 {
      RunKeepsJobsOk(states, events, i - 1);
      assert StepAt(states, events, i - 1);
      StepKeepsJobsOk(states[i - 1], events[i - 1]);
    }
  }

  // ---- JavaScript requeues ----------------------------------------------

  /** The worker's rule: only a crawler without a renderer reports that a page needs one. */
  ghost predicate WorkerRule(db: Db, e: Event) {
    && (e.Report? ==> forall r <- e.results :: ResultHonest(db, e.lease, r))
    && (e.StageOne? ==> ResultHonest(db, e.lease, e.result))
  }

  predicate ResultHonest(db: Db, lease: nat, r: CrawlResult) {
    r.errorKind == Some(RequiresJsRender) && IsActivePair(db, (lease, r.jobId)) ==> !db.jobs[r.jobId].claimJs
  }

  predicate JsRow(j: Job) {
    && j.jsRequeues <= (if j.requiresJs then 1 else 0)
    && (Active(j) && j.requiresJs ==> j.claimJs)
  }

  ghost predicate JsOk(db: Db) {
    && (forall id <- db.jobs :: JsRow(db.jobs[id]))
    && (forall key <- db.items :: key.0 < db.nextLease && ResultHonest(db, key.0, ItemResult(db, key)))
  }

  /** The staged result of an item, under the item's own job id. */
  function ItemResult(db: Db, key: (nat, nat)): CrawlResult
    requires key in db.items
  {
    db.items[key].result.(jobId := key.1)
  }

  /** The same report, wherever the item is in its life. */
  predicate SameReport(a: Item, b: Item) {
    a.result == b.result && a.owner == b.owner && a.crawler == b.crawler
  }

  predicate ItemKept(db: Db, after: Db, key: (nat, nat)) {
    (key in after.items <==> key in db.items) && (key in db.items ==> SameReport(db.items[key], after.items[key]))
  }

  /** Events other than reports leave every item's reporter and result alone. */
  lemma ItemsKept(db: Db, e: Event, key: (nat, nat))
    requires IdsBelow(db) && Enabled(db, e) && !e.Report? && !e.StageOne?
    ensures ItemKept(db, After(db, e), key)
  {
    if IsSeeding(e) {
      SeedingKeepsItems(db, e);
    } else if e.Recrawl? {
      RecrawlEvolves(db, e);
    } else if e.ApplyItem? || e.ApplyStops? {
      ApplyKeepsItems(db, e);
    } else {
      StatusEventKeepsItem(db, e, key);
    }
  }

  /** The other events write at most an item's status. */
  lemma StatusEventKeepsItem(db: Db, e: Event, key: (nat, nat))
    requires !IsSeeding(e) && !e.Recrawl? && !e.Report? && !e.StageOne? && !e.ApplyItem? && !e.ApplyStops?
    ensures ItemKept(db, After(db, e), key)
  {
    if TakesBack(e) {
      TakingBackIsReturn(db, e);
    }
  }

  lemma SeedingKeepsItems(db: Db, e: Event)
    requires IdsBelow(db) && IsSeeding(e)
    ensures After(db, e).items == db.items
  {
    SeedingIsEnqueue(db, e);
    var (open, req, links) := SeedParts(db, e);
    EnqueueFromEffect(open, req, links, |BudgetJobs(open, req.owner, req.budget)|, e.blacklist, e.stamps);
  }

  lemma ApplyKeepsItems(db: Db, e: Event)
    requires IdsBelow(db) && (e.ApplyItem? || e.ApplyStops?) && CanApply(db, e.key)
    ensures After(db, e).items == db.items
  {
    ApplyAfterSpread(db, e);
    var j := db.jobs[e.key.1];
    var written := WriteStatus(db, e.key, e.clock, e.blacklist);
    EnqueueFromEffect(written, ChildRequest(j), AppliedLinks(db, e),
                      |BudgetJobs(written, ChildRequest(j).owner, ChildRequest(j).budget)|, e.blacklist, e.stamps);
  }

  /** An item holds one of the results of a report, for its own job. */
  predicate StagedBy(item: Item, id: nat, owner: string, crawler: string, results: seq<CrawlResult>) {
    item.owner == owner && item.crawler == crawler && item.result.jobId == id && item.result in results
  }

  /** Staging touches only items of its own lease, and gives them results of the report. */
  lemma StageLoopItems(db: Db, owner: string, crawler: string, lease: nat, results: seq<CrawlResult>)
    ensures var after := StageLoop(db, owner, crawler, lease, results).db;
      forall key <- after.items ::
        (key in db.items && after.items[key] == db.items[key])
        || (key.0 == lease && StagedBy(after.items[key], key.1, owner, crawler, results))
  {
    forall key | key in StageLoop(db, owner, crawler, lease, results).db.items
      ensures var after := StageLoop(db, owner, crawler, lease, results).db;
        (key in db.items && after.items[key] == db.items[key])
        || (key.0 == lease && StagedBy(after.items[key], key.1, owner, crawler, results))
    {
      StageLoopItem(db, owner, crawler, lease, results, key);
    }
  }

  lemma {:induction false} StageLoopItem(db: Db, owner: string, crawler: string, lease: nat, results: seq<CrawlResult>,
      key: (nat, nat))
    requires key in StageLoop(db, owner, crawler, lease, results).db.items
    ensures var after := StageLoop(db, owner, crawler, lease, results).db;
      (key in db.items && after.items[key] == db.items[key])
      || (key.0 == lease && StagedBy(after.items[key], key.1, owner, crawler, results))
    decreases |results|
  {
    if results != [] && ReportAllowed(db, owner, crawler, lease, results[0]) {
      StageLoopItem(StageItem(db, owner, crawler, lease, results[0]), owner, crawler, lease, results[1..], key);
      assert results == [results[0]] + results[1..];
    }
  }

  /** A lease that was issued can be reported on; others have no items and no holders. */
  lemma {:induction false} StageLoopLease(db: Db, owner: string, crawler: string, lease: nat, results: seq<CrawlResult>)
    requires JobsOk(db) && forall key <- db.items :: key.0 < db.nextLease
    ensures StageLoop(db, owner, crawler, lease, results).db != db ==> lease < db.nextLease
  {
    if results != [] && ReportAllowed(db, owner, crawler, lease, results[0]) {
      assert lease < db.nextLease;
    }
  }

  lemma StepKeepsJsOk(db: Db, e: Event)
    requires JobsOk(db) && JsOk(db) && Enabled(db, e) && WorkerRule(db, e)
    ensures JsOk(After(db, e))
  {
    StepEvolves(db, e);
    StepJsRows(db, e);
    StepJsItems(db, e);
  }

  lemma StepJsRows(db: Db, e: Event)
    requires JobsOk(db) && JsOk(db) && Enabled(db, e) && Evolves(db, e, After(db, e))
    ensures forall id <- After(db, e).jobs :: JsRow(After(db, e).jobs[id])
  {
    forall id | id in After(db, e).jobs
      ensures JsRow(After(db, e).jobs[id])
    {
      if id in db.jobs && JsRequeueMove(db.jobs[id], After(db, e).jobs[id]) {
        assert MoveAllowed(e, db.jobs[id], After(db, e).jobs[id], db.nextLease);
        JsRequeueIsHonest(db, e, id);
      }
      StepJsRow(db, e, After(db, e), id);
    }
  }

  lemma StepJsRow(db: Db, e: Event, after: Db, id: nat)
    requires JsOk(db) && Evolves(db, e, after) && id in after.jobs
    requires id in db.jobs && JsRequeueMove(db.jobs[id], after.jobs[id]) ==> !db.jobs[id].requiresJs
    ensures JsRow(after.jobs[id])
  {
    if id in db.jobs {
      JsRowMove(db.jobs[id], after.jobs[id], db.nextLease);
    }
  }

  lemma JsRowMove(j: Job, k: Job, lease: nat)
    requires JsRow(j) && JobMove(j, k, lease)
    requires JsRequeueMove(j, k) ==> !j.requiresJs
    ensures JsRow(k)
  {
  }

  /** A job asks for a renderer only if it did not already have one: its staged report came from a crawler without. */
  lemma JsRequeueIsHonest(db: Db, e: Event, id: nat)
    requires JobsOk(db) && JsOk(db) && (e.ApplyItem? || e.ApplyStops?) && CanApply(db, e.key)
    requires id in db.jobs && id in After(db, e).jobs && JsRequeueMove(db.jobs[id], After(db, e).jobs[id])
    ensures !db.jobs[id].requiresJs
  {
    ApplyTouchesOne(db, e, id);
    var j, r := db.jobs[e.key.1], db.items[e.key].result;
    JsRequeueReported(j, r, OutcomeOf(j, r, e.clock, e.blacklist), e.clock, e.blacklist);
    assert ResultHonest(db, e.key.0, ItemResult(db, e.key));
    assert JsRow(j);
  }

  lemma JsRequeueReported(j: Job, r: CrawlResult, o: JobOutcome, clock: Time, blacklist: seq<string>)
    requires o == OutcomeOf(j, r, clock, blacklist) && JsRequeueMove(j, WriteOutcome(j, r, o))
    ensures r.errorKind == Some(RequiresJsRender)
  {
    RetryOnlyWithAttemptsLeft(r, j, clock);
  }

  /** An apply writes one existing job row. */
  lemma ApplyTouchesOne(db: Db, e: Event, id: nat)
    requires IdsBelow(db) && (e.ApplyItem? || e.ApplyStops?) && CanApply(db, e.key) && id in db.jobs
    ensures id in After(db, e).jobs
    ensures var j, r := db.jobs[e.key.1], db.items[e.key].result;
      After(db, e).jobs[id] == if id == e.key.1 then WriteOutcome(j, r, OutcomeOf(j, r, e.clock, e.blacklist))
          else db.jobs[id]
  {
    ApplyAfterSpread(db, e);
    var j := db.jobs[e.key.1];
    var written := WriteStatus(db, e.key, e.clock, e.blacklist);
    EnqueueFromEffect(written, ChildRequest(j), AppliedLinks(db, e),
                      |BudgetJobs(written, ChildRequest(j).owner, ChildRequest(j).budget)|, e.blacklist, e.stamps);
  }

  lemma StepJsItems(db: Db, e: Event)
    requires JobsOk(db) && JsOk(db) && Enabled(db, e) && WorkerRule(db, e) && Evolves(db, e, After(db, e))
    ensures forall key <- After(db, e).items ::
              key.0 < After(db, e).nextLease && ResultHonest(After(db, e), key.0, ItemResult(After(db, e), key))
  {
    var after := After(db, e);
    forall key | key in after.items
      ensures key.0 < after.nextLease && ResultHonest(after, key.0, ItemResult(after, key))
    {
      ItemOrigin(db, e, key);
      HonestResultKept(db, e, after, key, ItemResult(after, key));
    }
  }

  /** Every item after a step carries the result it had, or one the step reported honestly. */
  lemma ItemOrigin(db: Db, e: Event, key: (nat, nat))
    requires JobsOk(db) && JsOk(db) && Enabled(db, e) && WorkerRule(db, e) && key in After(db, e).items
    ensures key.0 < db.nextLease && ResultHonest(db, key.0, ItemResult(After(db, e), key))
  {
    if e.Report? {
      StageLoopItems(db, e.owner, e.crawler, e.lease, e.results);
      StageLoopEffect(db, e.owner, e.crawler, e.lease, e.results);
      StageLoopLease(db, e.owner, e.crawler, e.lease, e.results);
    } else if !e.StageOne? {
      ItemsKept(db, e, key);
    }
  }

  lemma HonestResultKept(db: Db, e: Event, after: Db, key: (nat, nat), r: CrawlResult)
    requires JobsOk(db) && Evolves(db, e, after) && key.0 < db.nextLease && r.jobId == key.1
    requires ResultHonest(db, key.0, r)
    ensures ResultHonest(after, key.0, r)
  {
    HonestyKept(db, e, after, key);
  }

  /** A pair that is active after a step was active before it with the same renderer flag, or is brand new. */
  lemma HonestyKept(db: Db, e: Event, after: Db, key: (nat, nat))
    requires JobsOk(db) && Evolves(db, e, after)
    ensures IsActivePair(after, key) && key.0 < db.nextLease ==>
              IsActivePair(db, key) && after.jobs[key.1].claimJs == db.jobs[key.1].claimJs
  {
    if IsActivePair(after, key) && key.0 < db.nextLease {
      assert key.1 in db.jobs;
      ActiveMove(db.jobs[key.1], after.jobs[key.1], db.nextLease);
    }
  }

  lemma ActiveMove(j: Job, k: Job, lease: nat)
    requires JobMove(j, k, lease) && Active(k) && k.lease != Some(lease)
    ensures Active(j) && j.lease == k.lease && j.claimJs == k.claimJs
  {
  }

  lemma {:induction false} RunKeepsJsOk(states: seq<Db>, events: seq<Event>, i: nat)
    requires IsRun(states, events) && i < |states|
    requires forall k :: 0 <= k < |events| ==> WorkerRule(states[k], events[k])
    ensures JsOk(states[i])
  {
    if i > 0 {
      RunKeepsJsOk(states, events, i - 1);
      assert WorkerRule(states[i - 1], events[i - 1]);
      StateKeepsJsOk(states, events, i - 1);
    }
  }

  lemma StateKeepsJsOk(states: seq<Db>, events: seq<Event>, k: nat)
    requires IsRun(states, events) && k < |events| && JsOk(states[k]) && WorkerRule(states[k], events[k])
    ensures JsOk(states[k + 1])
  {
    RunKeepsJobsOk(states, events, k);
    assert StepAt(states, events, k);
    StepKeepsJsOk(states[k], events[k]);
  }

  /** Over any run a job is tried at most its limit plus its requeues and revivals, with one try to spare while
      queued; if crawlers follow the worker's rule there is at most one JavaScript requeue. */
  lemma AttemptsBounded(states: seq<Db>, events: seq<Event>, i: nat, id: nat)
    requires IsRun(states, events) && i < |states| && id in states[i].jobs
    ensures AttemptBound(states[i].jobs[id])
    ensures (forall k :: 0 <= k < |events| ==> WorkerRule(states[k], events[k])) ==> states[i].jobs[id].jsRequeues <= 1
  {
    RunKeepsJobsOk(states, events, i);
    if forall k :: 0 <= k < |events| ==> WorkerRule(states[k], events[k]) {
      RunKeepsJsOk(states, events, i);
      assert JsRow(states[i].jobs[id]);
    }
  }
}
