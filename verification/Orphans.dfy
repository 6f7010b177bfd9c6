/** Whether every ingesting job has an item that some projector will still handle. */
module Orphans {
  import opened Wrappers
  import opened Tables
  import opened Frontier
  import opened Enqueue
  import opened Ingest
  import opened Projection
  import opened Recovery
  import opened Protocol
  import opened JobInvariants
  import opened Fencing

  // ---- an item always exists --------------------------------------------

  predicate HasItem(db: Db, id: nat)
    requires id in db.jobs
  {
    db.jobs[id].status.Ingesting? && db.jobs[id].lease.Some? ==> (db.jobs[id].lease.value, id) in db.items
  }

  ghost predicate ItemsExist(db: Db) {
    forall id <- db.jobs :: HasItem(db, id)
  }

  lemma ItemKeysGrow(db: Db, e: Event)
    requires IdsBelow(db) && Enabled(db, e)
    ensures db.items.Keys <= After(db, e).items.Keys
  {
    if e.Report? {
      StageLoopEffect(db, e.owner, e.crawler, e.lease, e.results);
    } else if !e.StageOne? {
      forall key: (nat, nat)
        ensures ItemKept(db, After(db, e), key)
      {
        ItemsKept(db, e, key);
      }
      forall key | key in db.items
        ensures key in After(db, e).items
      {
        assert ItemKept(db, After(db, e), key);
      }
    }
  }

  /** The results a report gets to before it stops. */
  function Reached(db: Db, owner: string, crawler: string, lease: nat, results: seq<CrawlResult>): seq<CrawlResult>
    decreases |results|
  {
    if results == [] || !ReportAllowed(db, owner, crawler, lease, results[0]) then []
    else [results[0]] + Reached(StageItem(db, owner, crawler, lease, results[0]), owner, crawler, lease, results[1..])
  }

  /** How staging some results treats one item. */
  ghost predicate StagedKey(db: Db, after: Db, owner: string, crawler: string, staged: bool, key: (nat, nat)) {
    && (key in after.items <==> key in db.items || staged)
    && (staged ==> after.items[key].owner == owner && after.items[key].crawler == crawler
                   && after.items[key].status == (if key in db.items then db.items[key].status else Pending))
    && (!staged && key in db.items ==> after.items[key] == db.items[key])
  }

  lemma {:induction false} ReachedStagedKey(db: Db, owner: string, crawler: string, lease: nat,
      results: seq<CrawlResult>, key: (nat, nat))
    ensures StagedKey(db, StageLoop(db, owner, crawler, lease, results).db, owner, crawler,
                      key.0 == lease && key.1 in ReportedIds(Reached(db, owner, crawler, lease, results)), key)
    decreases |results|
  {
    if results != [] && ReportAllowed(db, owner, crawler, lease, results[0]) {
      var mid := StageItem(db, owner, crawler, lease, results[0]);
      ReachedStagedKey(mid, owner, crawler, lease, results[1..], key);
      IdsOfCons(results[0], Reached(mid, owner, crawler, lease, results[1..]));
    }
  }

  lemma IdsOfCons(r: CrawlResult, rest: seq<CrawlResult>)
    ensures ReportedIds([r] + rest) == {r.jobId} + ReportedIds(rest)
  {
    assert forall x :: x in [r] + rest <==> x == r || x in rest;
  }

  lemma {:induction false} ReachedPrefix(db: Db, owner: string, crawler: string, lease: nat, results: seq<CrawlResult>)
    ensures var staged, reached := StageLoop(db, owner, crawler, lease, results),
        Reached(db, owner, crawler, lease, results);
      reached <= results && (staged.ok <==> reached == results) && staged.db == db.(items := staged.db.items)
    decreases |results|
  {
    if results != [] && ReportAllowed(db, owner, crawler, lease, results[0]) {
      ReachedPrefix(StageItem(db, owner, crawler, lease, results[0]), owner, crawler, lease, results[1..]);
      assert results == [results[0]] + results[1..];
    }
  }

  /** The last of the results for a job. */
  function LastFor(results: seq<CrawlResult>, id: nat): (r: CrawlResult)
    requires id in ReportedIds(results)
    ensures r in results && r.jobId == id
  {
    if id in ReportedIds(results[1..]) then LastFor(results[1..], id)
    else
      assert results == [results[0]] + results[1..];
      IdsOfCons(results[0], results[1..]);
      results[0]
  }

  lemma {:induction false} ReachedResult(db: Db, owner: string, crawler: string, lease: nat, results: seq<CrawlResult>,
      id: nat)
    requires id in ReportedIds(Reached(db, owner, crawler, lease, results))
    ensures var after := StageLoop(db, owner, crawler, lease, results).db;
      (lease, id) in after.items && after.items[(lease, id)].result
          == LastFor(Reached(db, owner, crawler, lease, results), id)
    decreases |results|
  {
    var mid := StageItem(db, owner, crawler, lease, results[0]);
    var rest := Reached(mid, owner, crawler, lease, results[1..]);
    assert ([results[0]] + rest)[1..] == rest;
    IdsOfCons(results[0], rest);
    if id in ReportedIds(rest) {
      ReachedResult(mid, owner, crawler, lease, results[1..], id);
    } else {
      ReachedStagedKey(mid, owner, crawler, lease, results[1..], (lease, id));
    }
  }

  /** Exactly the items of the reached results are staged, all by the caller, each with the last result for its job;
      other items stay as they are. */
  lemma ReachedStaged(db: Db, owner: string, crawler: string, lease: nat, results: seq<CrawlResult>)
    ensures var staged, reached := StageLoop(db, owner, crawler, lease, results),
        Reached(db, owner, crawler, lease, results);
      && reached <= results && (staged.ok <==> reached == results)
      && staged.db == db.(items := staged.db.items)
      && (forall key: (nat, nat) ::
          StagedKey(db, staged.db, owner, crawler, key.0 == lease && key.1 in ReportedIds(reached), key))
      && (forall id <- ReportedIds(reached) ::
            (lease, id) in staged.db.items && staged.db.items[(lease, id)].result == LastFor(reached, id))
  {
    ReachedPrefix(db, owner, crawler, lease, results);
    forall key: (nat, nat)
      ensures StagedKey(db, StageLoop(db, owner, crawler, lease, results).db, owner, crawler,
                        key.0 == lease && key.1 in ReportedIds(Reached(db, owner, crawler, lease, results)), key)
    {
      ReachedStagedKey(db, owner, crawler, lease, results, key);
    }
    forall id | id in ReportedIds(Reached(db, owner, crawler, lease, results))
      ensures var staged, reached := StageLoop(db, owner, crawler, lease, results),
          Reached(db, owner, crawler, lease, results);
        (lease, id) in staged.db.items && staged.db.items[(lease, id)].result == LastFor(reached, id)
    {
      ReachedResult(db, owner, crawler, lease, results, id);
    }
  }

  lemma IngestingMove(j: Job, k: Job, lease: nat)
    requires JobMove(j, k, lease) && k.status.Ingesting?
    ensures Active(j) && k.lease == j.lease && (j.status.Ingesting? ==> k == j)
  {
  }

  /** Only accepting a report makes a job ingesting. */
  lemma IngestingOnlyByReport(db: Db, e: Event, after: Db, id: nat)
    requires after == After(db, e) && Evolves(db, e, after) && Enabled(db, e) && IdsBelow(db)
    requires id in after.jobs && after.jobs[id].status.Ingesting?
    ensures id in db.jobs && Active(db.jobs[id]) && after.jobs[id].lease == db.jobs[id].lease
    ensures !e.Report? && !e.AcceptStaged? ==> after.jobs[id] == db.jobs[id]
  {
    IngestingWasActive(db, e, after, id);
    if !e.Report? && !e.AcceptStaged? {
      NoOtherAccept(db, e, id);
    }
  }

  lemma IngestingWasActive(db: Db, e: Event, after: Db, id: nat)
    requires Evolves(db, e, after) && id in after.jobs && after.jobs[id].status.Ingesting?
    ensures id in db.jobs && Active(db.jobs[id]) && after.jobs[id].lease == db.jobs[id].lease
    ensures db.jobs[id].status.Ingesting? ==> after.jobs[id] == db.jobs[id]
  {
    assert id in db.jobs;
    IngestingMove(db.jobs[id], after.jobs[id], db.nextLease);
  }

  lemma NoOtherAccept(db: Db, e: Event, id: nat)
    requires Enabled(db, e) && IdsBelow(db) && !e.Report? && !e.AcceptStaged?
    requires id in db.jobs && id in After(db, e).jobs && After(db, e).jobs[id].status.Ingesting?
    ensures db.jobs[id].status.Ingesting?
  {
    if IsSeeding(e) {
      SeedingIsEnqueue(db, e);
      var (open, req, links) := SeedParts(db, e);
      EnqueueFromEffect(open, req, links, |BudgetJobs(open, req.owner, req.budget)|, e.blacklist, e.stamps);
    } else if e.Recrawl? {
      RecrawlEvolves(db, e);
    } else if e.ApplyItem? || e.ApplyStops? {
      ApplyTouchesOne(db, e, id);
    } else if TakesBack(e) {
      TakingBackIsReturn(db, e);
    } else {
      OtherEventsDoNotAccept(db, e, id);
    }
  }

  lemma OtherEventsDoNotAccept(db: Db, e: Event, id: nat)
    requires id in db.jobs && id in After(db, e).jobs && After(db, e).jobs[id].status.Ingesting?
    requires e.Claim? || e.FailJob? || e.RetryFailed? || WritesItems(e) || WritesOrigins(e) || DeletesJobs(e)
    ensures db.jobs[id].status.Ingesting?
  {
    if WritesItems(e) || WritesOrigins(e) {
      JobsUntouched(db, e);
    } else if DeletesJobs(e) {
      DeletionShape(db, e);
    }
  }

  lemma StepKeepsItemsExist(db: Db, e: Event)
    requires IdsBelow(db) && ItemsExist(db) && Enabled(db, e)
    ensures ItemsExist(After(db, e))
  {
    StepEvolves(db, e);
    ItemKeysGrow(db, e);
    var after := After(db, e);
    forall id | id in after.jobs
      ensures HasItem(after, id)
    {
      if after.jobs[id].status.Ingesting? {
        IngestingOnlyByReport(db, e, after, id);
        assert HasItem(db, id);
        if e.Report? {
          ReachedStaged(db, e.owner, e.crawler, e.lease, e.results);
        }
      }
    }
  }

  /** In every reachable state, even when reports are interrupted between their statements, a job that is ingesting
      under a lease has an item of that lease. */
  lemma {:induction false} RunKeepsItemsExist(states: seq<Db>, events: seq<Event>, i: nat)
    requires IsRun(states, events) && i < |states|
    ensures ItemsExist(states[i])
  {
    if i > 0 {
      RunKeepsItemsExist(states, events, i - 1);
      RunKeepsJobsOk(states, events, i - 1);
      assert StepAt(states, events, i - 1);
      StepKeepsItemsExist(states[i - 1], events[i - 1]);
    }
  }

  // ---- and it is live, if reports are whole -----------------------------

  /** A claimed job has no item yet; an ingesting job has one of its own holder that is pending or processing. */
  predicate ItemLive(db: Db, id: nat)
    requires id in db.jobs
  {
    var j := db.jobs[id];
    Active(j) && j.lease.Some? ==>
      var key := (j.lease.value, id);
      if j.status.Claimed? then key !in db.items
      else key in db.items && (db.items[key].status.Pending? || db.items[key].status.Processing?)
           && db.items[key].owner == j.owner && j.claimedBy == Some(db.items[key].crawler)
  }

  ghost predicate ItemsLive(db: Db) {
    && (forall id <- db.jobs :: ItemLive(db, id))
    && (forall key <- db.items :: key.0 < db.nextLease)
  }

  predicate Holds(db: Db, owner: string, crawler: string, id: nat)
    requires id in db.jobs
  {
    db.jobs[id].owner == owner && db.jobs[id].claimedBy == Some(crawler)
  }

  /** A report is sound when the results it reaches are for jobs its sender holds, or that are settled, and, if it
      stops early, none of them was still waiting for its first report. */
  ghost predicate SoundReport(db: Db, e: Event)
    requires e.Report?
  {
    var reached := Reached(db, e.owner, e.crawler, e.lease, e.results);
    forall id <- ReportedIds(reached) :: IsActivePair(db, (e.lease, id)) ==>
      Holds(db, e.owner, e.crawler, id) && (reached != e.results ==> db.jobs[id].status.Ingesting?)
  }

  /** What a report does to one job and its item, given the results it reaches. */
  ghost predicate ReportedRow(db: Db, after: Db, e: Event, reached: seq<CrawlResult>, id: nat)
    requires e.Report? && id in db.jobs
  {
    var j := db.jobs[id];
    && id in after.jobs
    && after.jobs[id] == (if reached == e.results && id in ReportedIds(reached) && j.lease == Some(e.lease) && Active(j)
                             && Holds(db, e.owner, e.crawler, id)
                          then j.(status := Ingesting) else j)
    && forall lease ::
        StagedKey(db, after, e.owner, e.crawler, lease == e.lease && id in ReportedIds(reached), (lease, id))
  }

  lemma ReportRows(db: Db, e: Event, after: Db, reached: seq<CrawlResult>, id: nat)
    requires e.Report? && after == StageReport(db, e.owner, e.crawler, e.lease, e.results).db && id in db.jobs
    requires reached == Reached(db, e.owner, e.crawler, e.lease, e.results)
    ensures ReportedRow(db, after, e, reached, id)
  {
    var staged := StageLoop(db, e.owner, e.crawler, e.lease, e.results);
    ReachedPrefix(db, e.owner, e.crawler, e.lease, e.results);
    assert after.items == staged.db.items;
    forall lease
      ensures StagedKey(db, after, e.owner, e.crawler, lease == e.lease && id in ReportedIds(reached), (lease, id))
    {
      ReachedStagedKey(db, e.owner, e.crawler, e.lease, e.results, (lease, id));
      SameItems(db, staged.db, after, e.owner, e.crawler, lease == e.lease && id in ReportedIds(reached), (lease, id));
    }
    if staged.ok {
      AcceptedRow(staged.db, e.owner, e.crawler, e.lease, ReportedIds(e.results), id);
    }
  }

  lemma SameItems(db: Db, a: Db, b: Db, owner: string, crawler: string, staged: bool, key: (nat, nat))
    requires StagedKey(db, a, owner, crawler, staged, key) && a.items == b.items
    ensures StagedKey(db, b, owner, crawler, staged, key)
  {
  }

  lemma AcceptedRow(db: Db, owner: string, crawler: string, lease: nat, ids: set<nat>, id: nat)
    requires id in db.jobs
    ensures var after, j := AcceptReport(db, owner, crawler, lease, ids), db.jobs[id];
      id in after.jobs
      && after.jobs[id] == (if id in ids && j.lease == Some(lease) && Active(j) && Holds(db, owner, crawler, id)
                            then j.(status := Ingesting) else j)
  {
  }

  /** One job's item stays live exactly if the job's share of the report is sound. */
  lemma ReportedRowLiveIff(db: Db, after: Db, e: Event, reached: seq<CrawlResult>, id: nat)
    requires e.Report? && id in db.jobs && ItemLive(db, id) && ReportedRow(db, after, e, reached, id)
    ensures ItemLive(after, id) <==>
      (id in ReportedIds(reached) && IsActivePair(db, (e.lease, id)) ==>
         Holds(db, e.owner, e.crawler, id) && (reached != e.results ==> db.jobs[id].status.Ingesting?))
  {
    var j := db.jobs[id];
    if Active(j) && j.lease.Some? {
      assert StagedKey(db, after, e.owner, e.crawler, j.lease.value == e.lease
          && id in ReportedIds(reached), (j.lease.value, id));
    }
  }

  /** The condition is exact: a report keeps every active job's item live if and only if it is sound. */
  lemma ReportKeepsLiveIffSound(db: Db, e: Event)
    requires JobsOk(db) && ItemsLive(db) && e.Report?
    ensures ItemsLive(After(db, e)) <==> SoundReport(db, e)
  {
    var after := After(db, e);
    var reached := Reached(db, e.owner, e.crawler, e.lease, e.results);
    StageLoopEffect(db, e.owner, e.crawler, e.lease, e.results);
    assert after.jobs.Keys == db.jobs.Keys && after.nextLease == db.nextLease;
    ReportedLeases(db, e, after);
    forall id | id in db.jobs
      ensures ItemLive(after, id) <==>
        (id in ReportedIds(reached) && IsActivePair(db, (e.lease, id)) ==>
           Holds(db, e.owner, e.crawler, id) && (reached != e.results ==> db.jobs[id].status.Ingesting?))
    {
      ReportRows(db, e, after, reached, id);
      ReportedRowLiveIff(db, after, e, reached, id);
    }
  }

  lemma ReportedLeases(db: Db, e: Event, after: Db)
    requires JobsOk(db) && ItemsLive(db) && e.Report? && after == After(db, e)
    ensures forall key <- after.items :: key.0 < db.nextLease
  {
    StageLoopItems(db, e.owner, e.crawler, e.lease, e.results);
    StageLoopLease(db, e.owner, e.crawler, e.lease, e.results);
  }

  /** A report with one result, as the worker sends it, never stops after staging something. */
  lemma SingleReportSound(db: Db, e: Event)
    requires e.Report? && |e.results| == 1
    requires IsActivePair(db, (e.lease, e.results[0].jobId)) ==> Holds(db, e.owner, e.crawler, e.results[0].jobId)
    ensures SoundReport(db, e)
  {
    ReachedStaged(db, e.owner, e.crawler, e.lease, e.results);
  }

  /** Reports run as one step and are sound; the items settled are of claims that have ended. */
  ghost predicate Orderly(db: Db, e: Event) {
    && !e.StageOne? && !e.AcceptStaged?
    && (e.FailItem? || e.CompleteItem? ==> !IsActivePair(db, e.key))
    && (e.Report? ==> SoundReport(db, e))
  }

  lemma StepKeepsItemsLive(db: Db, e: Event)
    requires JobsOk(db) && ItemsLive(db) && Enabled(db, e) && Orderly(db, e)
    ensures ItemsLive(After(db, e))
  {
    if e.Report? {
      ReportKeepsLiveIffSound(db, e);
    } else {
      StepEvolves(db, e);
      var after := After(db, e);
      forall id | id in after.jobs
        ensures ItemLive(after, id)
      {
        if Active(after.jobs[id]) && after.jobs[id].lease.Some? {
          StepItemLive(db, e, after, id);
        }
      }
      forall key | key in after.items
        ensures key.0 < after.nextLease
      {
        ItemsKept(db, e, key);
      }
    }
  }

  /** One job of a step that is not a report: its item keeps a live status while the job is ingesting. */
  lemma StepItemLive(db: Db, e: Event, after: Db, id: nat)
    requires JobsOk(db) && ItemsLive(db) && Enabled(db, e) && Orderly(db, e) && !e.Report?
    requires after == After(db, e) && Evolves(db, e, after) && id in after.jobs
    requires Active(after.jobs[id]) && after.jobs[id].lease.Some?
    ensures ItemLive(after, id)
  {
    var key := (after.jobs[id].lease.value, id);
    ItemsKept(db, e, key);
    if after.jobs[id].status.Ingesting? {
      IngestingOnlyByReport(db, e, after, id);
      LiveStatusKept(db, e, key);
    }
    MovedItemLive(db, e, after, id, key);
  }

  lemma MovedItemLive(db: Db, e: Event, after: Db, id: nat, key: (nat, nat))
    requires ItemsLive(db) && Evolves(db, e, after) && id in after.jobs && Active(after.jobs[id])
    requires after.jobs[id].lease.Some? && key == (after.jobs[id].lease.value, id) && ItemKept(db, after, key)
    requires after.jobs[id].status.Ingesting? ==>
      id in db.jobs && after.jobs[id] == db.jobs[id] && key in after.items
      && (after.items[key].status.Pending? || after.items[key].status.Processing?)
    ensures ItemLive(after, id)
  {
    assert id in db.jobs;
    assert ItemLive(db, id);
    if after.jobs[id].status.Claimed? {
      ClaimedOnlyByClaim(db.jobs[id], after.jobs[id], db.nextLease);
    }
  }

  lemma ClaimedOnlyByClaim(j: Job, k: Job, lease: nat)
    requires JobMove(j, k, lease) && k.status.Claimed?
    ensures k == j || k.lease == Some(lease)
  {
  }

  lemma EnqueuingKeepsItems(db: Db, e: Event)
    requires JobsOk(db) && Enabled(db, e) && (IsSeeding(e) || e.Recrawl? || e.ApplyItem? || e.ApplyStops?)
    ensures After(db, e).items == db.items
  {
    if IsSeeding(e) {
      SeedingKeepsItems(db, e);
    } else if e.Recrawl? {
      RecrawlEvolves(db, e);
    } else {
      ApplyKeepsItems(db, e);
    }
  }

  /** Whatever happens to an item while its pair is and stays active leaves it pending or processing. */
  lemma LiveStatusKept(db: Db, e: Event, key: (nat, nat))
    requires JobsOk(db) && key.1 in db.jobs && ItemLive(db, key.1) && Enabled(db, e) && Orderly(db, e) && !e.Report?
    requires IsActivePair(db, key) && IsActivePair(After(db, e), key) && db.jobs[key.1].status.Ingesting?
    ensures key in After(db, e).items
    ensures After(db, e).items[key].status.Pending? || After(db, e).items[key].status.Processing?
  {
    if IsSeeding(e) || e.Recrawl? || e.ApplyItem? || e.ApplyStops? {
      EnqueuingKeepsItems(db, e);
    } else if TakesBack(e) {
      TakenBackItem(db, e, key);
    } else {
      LiveStatusEvent(db, e, key, db.items[key]);
    }
  }

  lemma LiveStatusEvent(db: Db, e: Event, key: (nat, nat), item: Item)
    requires Enabled(db, e) && key in db.items && item == db.items[key]
        && (item.status.Pending? || item.status.Processing?)
    requires key.1 in db.jobs && db.jobs[key.1].status.Ingesting? && IsActivePair(db, key)
    requires e.Claim? || e.FailJob? || e.RetryFailed? || WritesItems(e) || WritesOrigins(e) || DeletesJobs(e)
    requires !e.StageOne? && (e.FailItem? || e.CompleteItem? ==> !IsActivePair(db, e.key))
    ensures key in After(db, e).items
    ensures After(db, e).items[key].status.Pending? || After(db, e).items[key].status.Processing?
  {
    if !WritesItems(e) {
      ItemsUntouched(db, e);
    }
  }

  lemma TakenBackItem(db: Db, e: Event, key: (nat, nat))
    requires TakesBack(e) && IsActivePair(db, key) && IsActivePair(After(db, e), key) && key in db.items
    ensures key in After(db, e).items && After(db, e).items[key] == db.items[key]
  {
    TakingBackIsReturn(db, e);
    if e.RecoverIngesting? {
      var stale := StaleIngests(db, e.now - e.timeout);
      assert key.1 !in stale;
      assert After(db, e) == RecoverStaleIngestingJobs(db, e.now, e.timeout);
    }
  }

  /** The order of the projector's own statements: an item is completed after it was applied, and failed after its job
      was (or found to be no longer ingesting for it). Reports run as one step and are sound. */
  ghost predicate Disciplined(states: seq<Db>, events: seq<Event>, k: nat)
    requires |states| == |events| + 1 && k < |events|
  {
    var e := events[k];
    && !e.StageOne? && !e.AcceptStaged?
    && (e.CompleteItem? ==> exists j :: 0 <= j < k && events[j].ApplyItem? && events[j].key == e.key)
    && (e.FailItem? ==> exists j :: 0 <= j < k && events[j].FailJob? && events[j].key == e.key)
    && (e.Report? ==> SoundReport(states[k], e))
  }

  /** After either of them the claim has ended: by the event itself, or before it. */
  lemma TriedIsInactive(db: Db, e: Event)
    requires JobsOk(db) && ItemsLive(db) && Enabled(db, e) && (e.ApplyItem? || e.FailJob?)
    ensures !IsActivePair(After(db, e), e.key) && e.key.0 < After(db, e).nextLease
  {
    StepEvolves(db, e);
    if e.ApplyItem? {
      ApplySettles(db, e);
    } else if IsActivePair(db, e.key) {
      assert ItemLive(db, e.key.1);
      assert Projectable(db, e.key);
    }
  }

  lemma EndedBefore(states: seq<Db>, events: seq<Event>, j: nat, k: nat)
    requires IsRun(states, events) && j < k < |events| && ItemsLive(states[j])
    requires events[j].ApplyItem? || events[j].FailJob?
    ensures !IsActivePair(states[k], events[j].key)
  {
    RunKeepsJobsOk(states, events, j);
    assert StepAt(states, events, j);
    TriedIsInactive(states[j], events[j]);
    InactiveStays(states, events, j + 1, k, events[j].key);
  }

  /** In every reachable state of a disciplined run an ingesting job's item is pending or processing. */
  lemma {:induction false} RunKeepsItemsLive(states: seq<Db>, events: seq<Event>, i: nat)
    requires IsRun(states, events) && i < |states|
    requires forall k :: 0 <= k < |events| ==> Disciplined(states, events, k)
    ensures ItemsLive(states[i])
    decreases i
  {
    if i > 0 {
      var k := i - 1;
      RunKeepsItemsLive(states, events, k);
      RunKeepsJobsOk(states, events, k);
      assert StepAt(states, events, k) && Disciplined(states, events, k);
      if j :| 0 <= j < k && (events[j].ApplyItem? || events[j].FailJob?)
              && (events[k].CompleteItem? || events[k].FailItem?) && events[j].key == events[k].key {
        RunKeepsItemsLive(states, events, j);
        EndedBefore(states, events, j, k);
      }
      StepKeepsItemsLive(states[k], events[k]);
    }
  }

  // ---- how a job is orphaned otherwise ----------------------------------

  /** A report of two results that fails on the second leaves the first job claimed with a pending item; after the
      projector has rejected that item, reporting again makes the job ingesting with a failed item. */
  lemma PartialReportOrphans(db: Db, owner: string, crawler: string, lease: nat, good: CrawlResult, bad: CrawlResult,
      now: Time)
    requires ReportedUrl(db, owner, crawler, lease, good.jobId) == Some(good.url)
    requires db.jobs[good.jobId].status.Claimed? && (lease, good.jobId) !in db.items
    requires bad.jobId != good.jobId && !ReportAllowed(db, owner, crawler, lease, bad)
    ensures var key := (lease, good.jobId);
      var failed := StageReport(db, owner, crawler, lease, [good, bad]);
      var rejected := FailProjection(ClaimItems(failed.db, {key}, now), key);
      var again := StageReport(rejected, owner, crawler, lease, [good]);
      && !failed.ok && again.ok && good.jobId in again.db.jobs && key in again.db.items
      && again.db.jobs[good.jobId].status.Ingesting? && again.db.jobs[good.jobId].lease == Some(lease)
      && again.db.items[key].status.ItemFailed?
  {
    var key := (lease, good.jobId);
    var staged := StageItem(db, owner, crawler, lease, good);
    assert [good, bad][1..] == [bad];
    assert StageLoop(staged, owner, crawler, lease, [bad]) == Staged(staged, false);
    var failed := StageReport(db, owner, crawler, lease, [good, bad]);
    assert failed == Staged(staged, false);
    var rejected := FailProjection(ClaimItems(staged, {key}, now), key);
    assert rejected.jobs == db.jobs && rejected.items[key].status.ItemFailed?;
    var restaged := StageItem(rejected, owner, crawler, lease, good);
    assert [good][1..] == [];
    assert StageLoop(restaged, owner, crawler, lease, []) == Staged(restaged, true);
    assert StageLoop(rejected, owner, crawler, lease, [good]) == Staged(restaged, true);
  }

  /** Another crawler that reports a staged pair again takes the item over, so the projector no longer finds the job
      and fails the item while the job keeps ingesting. */
  lemma ForeignReportOrphans(db: Db, owner: string, crawler: string, lease: nat, r: CrawlResult, now: Time)
    requires IsActivePair(db, (lease, r.jobId)) && db.jobs[r.jobId].status.Ingesting? && (lease, r.jobId) in db.items
    requires db.jobs[r.jobId].claimedBy != Some(crawler)
    ensures var key := (lease, r.jobId);
      var taken := StageReport(db, owner, crawler, lease, [r]);
      var rejected := FailProjection(ClaimItems(taken.db, {key}, now), key);
      taken.ok && r.jobId in rejected.jobs && key in rejected.items
      && rejected.jobs[r.jobId] == db.jobs[r.jobId] && rejected.items[key].status.ItemFailed?
  {
    var staged := StageItem(db, owner, crawler, lease, r);
    assert [r][1..] == [];
    assert StageLoop(staged, owner, crawler, lease, []) == Staged(staged, true);
    assert StageLoop(db, owner, crawler, lease, [r]) == Staged(staged, true);
  }
}
