/** Concurrency per origin over whole runs: the layered cap, and the counter that must agree with the job rows. */
module Capacity {
  import opened Wrappers
  import opened Urls
  import opened Tables
  import opened Counting
  import opened Frontier
  import opened Enqueue
  import opened Ingest
  import opened Outcome
  import opened Projection
  import opened Recovery
  import opened Protocol
  import opened JobInvariants

  // ---- the layered cap --------------------------------------------------

  lemma StepKeepsCap(db: Db, e: Event)
    requires IdsBelow(db) && LayeredCap(db) && Enabled(db, e)
    ensures LayeredCap(After(db, e))
  {
    if e.Claim? {
      ClaimKeepsCap(db, e.owner, e.crawler, e.js, e.now, e.rank, e.picked);
    } else {
      StepEvolves(db, e);
      forall row, c: int | c >= 1
        ensures |Narrow(After(db, e), row, c)| <= c
      {
        NoClaimNoGrowth(db, e, After(db, e), row);
        assert Narrow(After(db, e), row, c) <= Narrow(db, row, c);
        SubsetCard(Narrow(After(db, e), row, c), Narrow(db, row, c));
      }
    }
  }

  /** Without a claim no job becomes active, and an active job keeps its row and limit. */
  lemma NoClaimNoGrowth(db: Db, e: Event, after: Db, row: (string, OriginKey))
    requires !e.Claim? && Evolves(db, e, after)
    ensures ActiveOn(after, row) <= ActiveOn(db, row)
    ensures forall id <- ActiveOn(after, row) :: after.jobs[id].concurrency == db.jobs[id].concurrency
  {
    forall id | id in ActiveOn(after, row)
      ensures id in ActiveOn(db, row) && after.jobs[id].concurrency == db.jobs[id].concurrency
    {
      assert id in db.jobs;
      assert MoveAllowed(e, db.jobs[id], after.jobs[id], db.nextLease);
    }
  }

  /** In every reachable state, at every level c, at most c active jobs of an origin have a limit of c or less. */
  lemma {:induction false} RunKeepsCap(states: seq<Db>, events: seq<Event>, i: nat)
    requires IsRun(states, events) && i < |states|
    ensures LayeredCap(states[i])
  {
    if i > 0 {
      RunKeepsCap(states, events, i - 1);
      RunKeepsJobsOk(states, events, i - 1);
      assert StepAt(states, events, i - 1);
      StepKeepsCap(states[i - 1], events[i - 1]);
    } else {
      forall row, c: int | c >= 1
        ensures |Narrow(states[0], row, c)| <= c
      {
        assert Narrow(EMPTY_DB, row, c) == {};
      }
    }
  }

  // ---- the counter ------------------------------------------------------

  /** A counter is the number of active jobs plus the slots that were lost and those still to be given back. */
  predicate RowCounts(db: Db, row: (string, OriginKey)) {
    if row in db.origins then db.origins[row].inFlight == |ActiveOn(db, row)| + db.origins[row].leaked + db.owed[row]
    else row !in db.owed
  }

  ghost predicate CounterOk(db: Db) {
    && (forall row :: RowCounts(db, row))
    && (forall id <- db.jobs :: Active(db.jobs[id]) ==> OriginRow(db.jobs[id]) in db.origins)
  }

  /** Steps that leave the active jobs and all counters alone keep the agreement. */
  lemma SameCountersKeep(db: Db, after: Db)
    requires CounterOk(db) && after.owed == db.owed && db.origins.Keys <= after.origins.Keys
    requires forall row :: ActiveOn(after, row) == ActiveOn(db, row)
    requires forall row <- after.origins ::
      if row in db.origins
      then after.origins[row].inFlight == db.origins[row].inFlight
          && after.origins[row].leaked == db.origins[row].leaked
      else after.origins[row].inFlight == 0 && after.origins[row].leaked == 0
    requires forall id <- after.jobs :: Active(after.jobs[id]) ==> OriginRow(after.jobs[id]) in after.origins
    ensures CounterOk(after)
  {
    forall row
      ensures RowCounts(after, row)
    {
      assert RowCounts(db, row);
      if row !in db.origins {
        assert ActiveOn(db, row) == {};
      }
    }
  }

  lemma EnqueuedKeepsCounters(db: Db, after: Db, req: EnqueueRequest)
    requires CounterOk(db) && IdsBelow(db) && Enqueued(db, after, req)
    ensures CounterOk(after)
  {
    forall row
      ensures ActiveOn(after, row) == ActiveOn(db, row)
    {
      forall id | id in after.jobs && id !in db.jobs
        ensures !Active(after.jobs[id])
      {
        assert IsNewRow(after.jobs[id], req);
      }
    }
    SameCountersKeep(db, after);
  }

  lemma SeedKeepsCounter(db: Db, e: Event)
    requires CounterOk(db) && IdsBelow(db) && IsSeeding(e)
    ensures CounterOk(After(db, e))
  {
    SeedingIsEnqueue(db, e);
    var (open, req, links) := SeedParts(db, e);
    if After(db, e) != db {
      EnqueueFromEffect(open, req, links, |BudgetJobs(open, req.owner, req.budget)|, e.blacklist, e.stamps);
      assert CounterOk(open) by {
        forall row
          ensures ActiveOn(open, row) == ActiveOn(db, row)
        {
        }
        SameCountersKeep(db, open);
      }
      EnqueuedKeepsCounters(open, After(db, e), req);
    }
  }

  lemma ClaimedActive(db: Db, owner: string, crawler: string, js: bool, now: Time, picked: set<nat>,
      row: (string, OriginKey), id: nat)
    requires forall id <- picked :: id in db.jobs && db.jobs[id].owner == owner && !Active(db.jobs[id])
    ensures id in ActiveOn(ClaimPicked(db, owner, crawler, js, now, picked), row)
        <==> id in ActiveOn(db, row) || id in OnRow(db, picked, row)
    ensures id in OnRow(db, picked, row) ==> id !in ActiveOn(db, row) && row.0 == owner
  {
  }

  lemma ClaimedRow(db: Db, owner: string, crawler: string, js: bool, now: Time, picked: set<nat>,
      row: (string, OriginKey))
    requires forall id <- picked :: id in db.jobs && db.jobs[id].owner == owner && !Active(db.jobs[id])
    ensures |ActiveOn(ClaimPicked(db, owner, crawler, js, now, picked), row)|
         == |ActiveOn(db, row)| + (if row.0 == owner then |OnRow(db, picked, row)| else 0)
  {
    var active := ActiveOn(ClaimPicked(db, owner, crawler, js, now, picked), row);
    forall id
      ensures id in active <==> id in ActiveOn(db, row) || id in OnRow(db, picked, row)
      ensures id in OnRow(db, picked, row) ==> id !in ActiveOn(db, row) && row.0 == owner
    {
      ClaimedActive(db, owner, crawler, js, now, picked, row, id);
    }
    DisjointCount(active, ActiveOn(db, row), OnRow(db, picked, row));
  }

  lemma DisjointCount(all: set<nat>, a: set<nat>, b: set<nat>)
    requires forall id :: id in all <==> id in a || id in b
    requires forall id <- b :: id !in a
    ensures |all| == |a| + |b|
  {
    assert all == a + b && a !! b;
  }

  lemma ClaimPickedKeepsCounter(db: Db, owner: string, crawler: string, js: bool, now: Time, picked: set<nat>)
    requires CounterOk(db) && picked <= EligibleJobs(db, owner, now, js)
    ensures CounterOk(ClaimPicked(db, owner, crawler, js, now, picked))
  {
    var after := ClaimPicked(db, owner, crawler, js, now, picked);
    forall id | id in picked
      ensures id in db.jobs && db.jobs[id].owner == owner && !Active(db.jobs[id])
    {
      assert Eligible(db, owner, now, js, db.jobs[id]);
    }
    forall row
      ensures RowCounts(after, row)
    {
      assert RowCounts(db, row);
      ClaimedRow(db, owner, crawler, js, now, picked, row);
    }
    forall id | id in after.jobs && Active(after.jobs[id])
      ensures OriginRow(after.jobs[id]) in after.origins
    {
      assert Active(db.jobs[id]) || Eligible(db, owner, now, js, db.jobs[id]);
    }
  }

  lemma ClaimKeepsCounter(db: Db, e: Event)
    requires CounterOk(db) && e.Claim? && Enabled(db, e)
    ensures CounterOk(After(db, e))
  {
    assert e.picked <= EligibleJobs(db, e.owner, e.now, e.js);
    ClaimPickedKeepsCounter(db, e.owner, e.crawler, e.js, e.now, e.picked);
  }

  lemma AcceptKeepsCounter(db: Db, e: Event)
    requires CounterOk(db) && (e.Report? || e.AcceptStaged?)
    ensures CounterOk(After(db, e))
  {
    if e.Report? {
      StageLoopEffect(db, e.owner, e.crawler, e.lease, e.results);
    }
    forall row
      ensures ActiveOn(After(db, e), row) == ActiveOn(db, row)
    {
    }
    SameCountersKeep(db, After(db, e));
  }

  lemma ReturnedRow(db: Db, ids: set<nat>, now: Time, row: (string, OriginKey))
    requires ids <= db.jobs.Keys && forall id <- ids :: Active(db.jobs[id])
    ensures OnRow(db, ids, row) <= ActiveOn(db, row)
    ensures |OnRow(db, ids, row)| <= |ActiveOn(db, row)|
    ensures |ActiveOn(ReturnClaims(db, ids, now), row)| == |ActiveOn(db, row)| - |OnRow(db, ids, row)|
  {
    assert ActiveOn(ReturnClaims(db, ids, now), row) == ActiveOn(db, row) - OnRow(db, ids, row);
    SubsetCard(OnRow(db, ids, row), ActiveOn(db, row));
  }

  /** Giving slots back for jobs that stop being active keeps the agreement, and never needs the floor at zero. */
  lemma ReturnClaimsKeepsCounter(db: Db, ids: set<nat>, now: Time)
    requires CounterOk(db)
    requires ids <= db.jobs.Keys && forall id <- ids :: Active(db.jobs[id])
    ensures CounterOk(ReturnClaims(db, ids, now))
    ensures forall row <- db.origins ::
      ReturnClaims(db, ids, now).origins[row].inFlight == db.origins[row].inFlight - |OnRow(db, ids, row)|
  {
    var after := ReturnClaims(db, ids, now);
    forall row
      ensures RowCounts(after, row)
      ensures row in db.origins ==> after.origins[row].inFlight == db.origins[row].inFlight - |OnRow(db, ids, row)|
    {
      ReturnedRow(db, ids, now, row);
      assert RowCounts(db, row);
    }
  }

  lemma ReturnKeepsCounter(db: Db, e: Event)
    requires CounterOk(db) && TakesBack(e)
    ensures CounterOk(After(db, e))
  {
    TakingBackIsReturn(db, e);
    TakenBackActive(db, e);
    var returned := ReturnClaims(db, TakenBack(db, e), e.now);
    ReturnClaimsKeepsCounter(db, TakenBack(db, e), e.now);
    SameRowsKeepCounter(returned, After(db, e));
  }

  lemma SameRowsKeepCounter(db: Db, after: Db)
    requires CounterOk(db) && after.jobs == db.jobs && after.origins == db.origins && after.owed == db.owed
    ensures CounterOk(after)
  {
    forall row
      ensures ActiveOn(after, row) == ActiveOn(db, row)
    {
    }
    SameCountersKeep(db, after);
  }

  /** Once the status is written the job's origin counts one slot too many, as a leaked slot would. */
  lemma WriteOwesOneSlot(db: Db, e: Event)
    requires CounterOk(db) && (e.ApplyItem? || e.ApplyStops?) && CanApply(db, e.key)
    ensures CounterOk(Leak(WriteStatus(db, e.key, e.clock, e.blacklist), OriginRow(db.jobs[e.key.1])))
  {
    var j, r := db.jobs[e.key.1], db.items[e.key].result;
    WriteMoves(j, r, OutcomeOf(j, r, e.clock, e.blacklist), db.nextLease, e);
    var owed := Leak(WriteStatus(db, e.key, e.clock, e.blacklist), OriginRow(j));
    forall row
      ensures RowCounts(owed, row)
    {
      SettledRow(db, owed, e.key.1, row);
    }
  }

  /** One job of an origin stops being active, and the origin has lost a slot. */
  lemma SettledRow(db: Db, owed: Db, id: nat, row: (string, OriginKey))
    requires CounterOk(db) && id in db.jobs && Active(db.jobs[id]) && id in owed.jobs && !Active(owed.jobs[id])
    requires owed.jobs == db.jobs[id := owed.jobs[id]] && owed.owed == db.owed
    requires owed.origins == Leak(db, OriginRow(db.jobs[id])).origins
    ensures RowCounts(owed, row)
  {
    assert RowCounts(db, row);
    if row == OriginRow(db.jobs[id]) {
      assert ActiveOn(db, row) == ActiveOn(owed, row) + {id};
    } else {
      assert ActiveOn(db, row) == ActiveOn(owed, row);
    }
  }

  /** The children do not change that. */
  lemma SpreadOwesOneSlot(db: Db, e: Event)
    requires CounterOk(db) && IdsBelow(db) && (e.ApplyItem? || e.ApplyStops?) && CanApply(db, e.key)
    ensures CounterOk(Leak(Spread(db, e), OriginRow(db.jobs[e.key.1])))
    ensures OriginRow(db.jobs[e.key.1]) in Spread(db, e).origins
  {
    WriteOwesOneSlot(db, e);
    var j := db.jobs[e.key.1];
    var home := OriginRow(j);
    var written := WriteStatus(db, e.key, e.clock, e.blacklist);
    var req := ChildRequest(j);
    SpreadIsEnqueue(db, e);
    EnqueuedKeepsCounters(Leak(written, home), Leak(Spread(db, e), home), req);
  }

  lemma SpreadIsEnqueue(db: Db, e: Event)
    requires IdsBelow(db) && (e.ApplyItem? || e.ApplyStops?) && CanApply(db, e.key)
    ensures Enqueued(WriteStatus(db, e.key, e.clock, e.blacklist), Spread(db, e), ChildRequest(db.jobs[e.key.1]))
  {
    var written := WriteStatus(db, e.key, e.clock, e.blacklist);
    var req := ChildRequest(db.jobs[e.key.1]);
    EnqueueFromEffect(written, req, AppliedLinks(db, e), |BudgetJobs(written, req.owner, req.budget)|, e.blacklist,
        e.stamps);
    EnqueuedReflexive(written, req);
  }

  lemma EnqueuedReflexive(db: Db, req: EnqueueRequest)
    ensures Enqueued(db, db, req)
  {
  }

  /** Giving one slot back settles what was owed. */
  lemma RequestedSettles(mid: Db, home: (string, OriginKey), ready: Time)
    requires home in mid.origins && CounterOk(Leak(mid, home))
    ensures CounterOk(UpdateRequested(mid, home, ready))
    ensures UpdateRequested(mid, home, ready).origins[home].inFlight == mid.origins[home].inFlight - 1
  {
    var owed, after := Leak(mid, home), UpdateRequested(mid, home, ready);
    assert RowCounts(owed, home);
    forall row
      ensures ActiveOn(after, row) == ActiveOn(owed, row)
    {
    }
    forall row
      ensures RowCounts(after, row)
    {
      assert RowCounts(owed, row);
    }
  }

  lemma FinalKeeps(db: Db, row: (string, OriginKey), ready: Time)
    requires CounterOk(db)
    ensures CounterOk(UpdateFinal(db, row, ready))
  {
    forall r
      ensures ActiveOn(UpdateFinal(db, row, ready), r) == ActiveOn(db, r)
    {
    }
    SameCountersKeep(db, UpdateFinal(db, row, ready));
  }

  lemma ApplyKeepsCounter(db: Db, e: Event)
    requires CounterOk(db) && IdsBelow(db) && (e.ApplyItem? || e.ApplyStops?) && CanApply(db, e.key)
    ensures CounterOk(After(db, e))
  {
    SpreadOwesOneSlot(db, e);
    var mid := Spread(db, e);
    var j, r := db.jobs[e.key.1], db.items[e.key].result;
    var ready := OriginReadyAt(e.now, r);
    if LosesSlot(e) {
      assert After(db, e) == Leak(mid, OriginRow(j));
    } else {
      RequestedSettles(mid, OriginRow(j), ready);
      if e.ApplyItem? && FinalRow(j, r).Some? {
        FinalKeeps(UpdateRequested(mid, OriginRow(j), ready), FinalRow(j, r).value, ready);
      }
      AppliedOrigins(db, e);
    }
  }

  /** The last part of an apply that gives its slot back. */
  lemma AppliedOrigins(db: Db, e: Event)
    requires (e.ApplyItem? || e.ApplyStops?) && CanApply(db, e.key) && !LosesSlot(e)
    ensures var j, r := db.jobs[e.key.1], db.items[e.key].result;
      var requested := UpdateRequested(Spread(db, e), OriginRow(j), OriginReadyAt(e.now, r));
      After(db, e) == if e.ApplyItem? && FinalRow(j, r).Some?
                      then UpdateFinal(requested, FinalRow(j, r).value, OriginReadyAt(e.now, r)) else requested
  {
  }

  /** The first statement of a projection failure turns the job's slot into one that is owed. */
  lemma FailKeepsCounter(db: Db, e: Event)
    requires CounterOk(db) && e.FailJob?
    ensures CounterOk(After(db, e))
  {
    var after := After(db, e);
    if Projectable(db, e.key) {
      var home := OriginRow(db.jobs[e.key.1]);
      forall row
        ensures RowCounts(after, row)
      {
        assert RowCounts(db, row);
        if row == home {
          assert ActiveOn(db, row) == ActiveOn(after, row) + {e.key.1};
        } else {
          assert ActiveOn(db, row) == ActiveOn(after, row);
        }
      }
    }
  }

  /** The second gives exactly that slot back; the floor at zero is not needed. */
  lemma ReturnSlotKeepsCounter(db: Db, row: (string, OriginKey))
    requires CounterOk(db) && row in db.owed
    ensures CounterOk(ReturnSlot(db, row))
    ensures row in db.origins && ReturnSlot(db, row).origins[row].inFlight == db.origins[row].inFlight - 1
  {
    var after := ReturnSlot(db, row);
    forall r
      ensures RowCounts(after, r)
    {
      assert RowCounts(db, r);
      assert ActiveOn(after, r) == ActiveOn(db, r);
    }
    assert RowCounts(db, row);
  }

  /** The first statement of a stop leaves the slots of the deleted active jobs counted. */
  lemma StopJobsKeepsCounter(db: Db, e: Event)
    requires CounterOk(db) && e.StopJobs?
    ensures CounterOk(After(db, e))
  {
    var after := After(db, e);
    forall row
      ensures RowCounts(after, row)
    {
      assert RowCounts(db, row);
      if row.0 == e.owner {
        assert ActiveOn(after, row) == {};
        assert row !in db.origins ==> ActiveOn(db, row) == {};
      } else {
        assert ActiveOn(after, row) == ActiveOn(db, row);
      }
    }
  }

  // ---- the statements that can break it ---------------------------------

  /** The owner has no active job and is owed no slot. */
  ghost predicate Idle(db: Db, owner: string) {
    && (forall id <- db.jobs :: Active(db.jobs[id]) ==> db.jobs[id].owner != owner)
    && (forall row <- db.owed :: row.0 != owner)
  }

  /** Resetting an owner's counters keeps the agreement if and only if the owner is idle at that moment. */
  lemma ResetKeepsCounterIff(db: Db, owner: string, now: Time)
    requires CounterOk(db)
    ensures CounterOk(ResetOrigins(db, owner, now)) <==> Idle(db, owner)
  {
    var after := ResetOrigins(db, owner, now);
    forall row
      ensures RowCounts(after, row) <==> (row in db.origins && row.0 == owner
          ==> ActiveOn(db, row) == {} && row !in db.owed)
    {
      assert RowCounts(db, row);
      assert ActiveOn(after, row) == ActiveOn(db, row);
    }
    if CounterOk(after) {
      forall id | id in db.jobs && Active(db.jobs[id])
        ensures db.jobs[id].owner != owner
      {
        assert RowCounts(after, OriginRow(db.jobs[id]));
        assert id in ActiveOn(db, OriginRow(db.jobs[id]));
      }
      forall row | row in db.owed
        ensures row.0 != owner
      {
        assert RowCounts(db, row) && RowCounts(after, row);
      }
    }
    if Idle(db, owner) {
      forall row: (string, OriginKey) | row.0 == owner
        ensures ActiveOn(db, row) == {}
      {
      }
    }
  }

  /** The origins a blacklisting removes. */
  predicate Dropped(db: Db, domain: string, row: (string, OriginKey)) {
    row in db.origins && row !in DropUnusedOrigins(db, domain).origins
  }

  /** Removing unused origins keeps the agreement if and only if none of them is owed a slot. */
  lemma DropKeepsCounterIff(db: Db, domain: string)
    requires CounterOk(db)
    ensures CounterOk(DropUnusedOrigins(db, domain)) <==> forall row <- db.owed :: !Dropped(db, domain, row)
  {
    var after := DropUnusedOrigins(db, domain);
    forall row
      ensures RowCounts(after, row) <==> (row in db.owed ==> !Dropped(db, domain, row))
    {
      assert RowCounts(db, row);
      assert ActiveOn(after, row) == ActiveOn(db, row);
    }
    if row :| row in db.owed && Dropped(db, domain, row) {
      assert !RowCounts(after, row);
    }
  }

  /** What the reset of a stop and the removal of origins need. */
  ghost predicate Clean(db: Db, e: Event) {
    && (e.StopOrigins? ==> Idle(db, e.owner))
    && (e.BlacklistOrigins? ==> forall row <- db.owed :: !Dropped(db, e.domain, row))
  }

  /** The events that neither start nor end a claim nor touch an origin. */
  predicate IsQuiet(e: Event) {
    WritesItems(e) || e.RetryFailed? || e.CleanupCompleted? || e.CleanupFailed? || e.BlacklistJobs?
  }

  lemma QuietRow(db: Db, e: Event, row: (string, OriginKey), id: nat)
    requires IsQuiet(e)
    ensures id in ActiveOn(After(db, e), row) <==> id in ActiveOn(db, row)
  {
    if WritesItems(e) {
      JobsUntouched(db, e);
    }
  }

  lemma QuietOrigins(db: Db, e: Event)
    requires CounterOk(db) && IsQuiet(e)
    ensures After(db, e).origins == db.origins && After(db, e).owed == db.owed
    ensures forall id <- After(db, e).jobs ::
        Active(After(db, e).jobs[id]) ==> OriginRow(After(db, e).jobs[id]) in After(db, e).origins
  {
    OriginsUntouched(db, e);
    forall id | id in After(db, e).jobs && Active(After(db, e).jobs[id])
      ensures OriginRow(After(db, e).jobs[id]) in db.origins
    {
      var row := OriginRow(After(db, e).jobs[id]);
      QuietRow(db, e, row, id);
      assert id in ActiveOn(db, row);
    }
  }

  lemma QuietKeepsCounter(db: Db, e: Event)
    requires CounterOk(db) && IsQuiet(e)
    ensures CounterOk(After(db, e))
  {
    forall row
      ensures ActiveOn(After(db, e), row) == ActiveOn(db, row)
    {
      forall id
        ensures id in ActiveOn(After(db, e), row) <==> id in ActiveOn(db, row)
      {
        QuietRow(db, e, row, id);
      }
    }
    QuietOrigins(db, e);
    SameCountersKeep(db, After(db, e));
  }

  /** One event keeps the agreement if and only if it is clean. */
  lemma StepKeepsCounterIff(db: Db, e: Event)
    requires CounterOk(db) && IdsBelow(db) && Enabled(db, e)
    ensures CounterOk(After(db, e)) <==> Clean(db, e)
  {
    if IsSeeding(e) {
      SeedKeepsCounter(db, e);
    } else if e.Recrawl? {
      RecrawlEvolves(db, e);
    } else if e.Claim? {
      ClaimKeepsCounter(db, e);
    } else if e.Report? || e.AcceptStaged? {
      AcceptKeepsCounter(db, e);
    } else if e.ApplyItem? || e.ApplyStops? {
      ApplyKeepsCounter(db, e);
    } else if e.FailJob? {
      FailKeepsCounter(db, e);
    } else if TakesBack(e) {
      ReturnKeepsCounter(db, e);
    } else if e.StopJobs? {
      StopJobsKeepsCounter(db, e);
    } else if WritesOrigins(e) {
      OriginEventKeepsCounterIff(db, e);
    } else {
      QuietKeepsCounter(db, e);
    }
  }

  lemma OriginEventKeepsCounterIff(db: Db, e: Event)
    requires CounterOk(db) && Enabled(db, e) && WritesOrigins(e)
    ensures CounterOk(After(db, e)) <==> Clean(db, e)
  {
    match e
    case GiveBack(row) => ReturnSlotKeepsCounter(db, row);
    case StopOrigins(owner, now) => ResetKeepsCounterIff(db, owner, now);
    case BlacklistOrigins(domain) => DropKeepsCounterIff(db, domain);
  }

  ghost predicate CleanRun(states: seq<Db>, events: seq<Event>, i: nat)
    requires |states| == |events| + 1 && i <= |events|
  {
    forall k :: 0 <= k < i ==> CleanAt(states, events, k)
  }

  ghost predicate CleanAt(states: seq<Db>, events: seq<Event>, k: nat)
    requires |states| == |events| + 1 && k < |events|
  {
    Clean(states[k], events[k])
  }

  /** As long as every reset finds its owner idle, each origin's counter is exactly its active jobs plus the slots
      lost and owed. The first reset that does not breaks it. */
  lemma {:induction false} RunKeepsCounter(states: seq<Db>, events: seq<Event>, i: nat)
    requires IsRun(states, events) && i < |states|
    ensures CleanRun(states, events, i) ==> CounterOk(states[i])
    ensures i > 0 && CleanRun(states, events, i - 1) && !CleanAt(states, events, i - 1) ==> !CounterOk(states[i])
  {
    if i > 0 && CleanRun(states, events, i - 1) {
      RunKeepsCounter(states, events, i - 1);
      RunKeepsJobsOk(states, events, i - 1);
      assert StepAt(states, events, i - 1);
      StepKeepsCounterIff(states[i - 1], events[i - 1]);
      assert CleanRun(states, events, i) ==> CleanAt(states, events, i - 1);
    } else if i > 0 {
      assert !CleanRun(states, events, i);
    }
  }

  // ---- where lost slots come from ---------------------------------------

  /** An apply that stops before its counter update. */
  predicate LosesSlot(e: Event) {
    e.ApplyStops? && e.fault.AfterChildren?
  }

  /** The slots of an origin that an event loses: those of an apply that stops before its counter update, and those of
      active jobs that the first statement of a stop deletes. */
  function LostBy(db: Db, e: Event, row: (string, OriginKey)): nat {
    if LosesSlot(e) && CanApply(db, e.key) && OriginRow(db.jobs[e.key.1]) == row then 1
    else if e.StopJobs? && row.0 == e.owner then |ActiveOn(db, row)|
    else 0
  }

  /** The events after which an origin starts anew. */
  predicate Renews(db: Db, e: Event, row: (string, OriginKey)) {
    (e.StopOrigins? && row.0 == e.owner) || (e.BlacklistOrigins? && Dropped(db, e.domain, row))
  }

  /** The slots of an origin lost in the first i events, since it last started anew. */
  function LostSince(states: seq<Db>, events: seq<Event>, i: nat, row: (string, OriginKey)): nat
    requires |states| == |events| + 1 && i <= |events|
  {
    if i == 0 || Renews(states[i - 1], events[i - 1], row) then 0
    else LostSince(states, events, i - 1, row) + LostBy(states[i - 1], events[i - 1], row)
  }

  /** One event and one origin: the lost slots grow by what the event loses, and an origin that is new or renewed has
      lost none. */
  predicate LeakStep(db: Db, after: Db, e: Event, row: (string, OriginKey)) {
    if row in db.origins && !Renews(db, e, row)
    then row in after.origins && after.origins[row].leaked == db.origins[row].leaked + LostBy(db, e, row)
    else row in after.origins ==> after.origins[row].leaked == 0
  }

  lemma EnqueuedLeaks(db: Db, after: Db, req: EnqueueRequest, row: (string, OriginKey))
    requires Enqueued(db, after, req)
    ensures SameLeaks(db, after, row)
  {
  }

  lemma ApplyLeaks(db: Db, e: Event, row: (string, OriginKey))
    requires IdsBelow(db) && (e.ApplyItem? || e.ApplyStops?) && CanApply(db, e.key)
        && OriginRow(db.jobs[e.key.1]) in db.origins
    ensures LeakStep(db, After(db, e), e, row)
  {
    var mid, home := Spread(db, e), OriginRow(db.jobs[e.key.1]);
    SpreadIsEnqueue(db, e);
    EnqueuedLeaks(WriteStatus(db, e.key, e.clock, e.blacklist), mid, ChildRequest(db.jobs[e.key.1]), row);
    if LosesSlot(e) {
      assert After(db, e) == Leak(mid, home);
    } else {
      var j, r := db.jobs[e.key.1], db.items[e.key].result;
      var ready := OriginReadyAt(e.now, r);
      AppliedOrigins(db, e);
      UpdatesLeak(mid, home, ready, row);
      if FinalRow(j, r).Some? {
        UpdatesLeak(UpdateRequested(mid, home, ready), FinalRow(j, r).value, ready, row);
      }
    }
  }

  predicate SameLeaks(db: Db, after: Db, row: (string, OriginKey)) {
    if row in db.origins then row in after.origins && after.origins[row].leaked == db.origins[row].leaked
    else row in after.origins ==> after.origins[row].leaked == 0
  }

  lemma UpdatesLeak(db: Db, other: (string, OriginKey), ready: Time, row: (string, OriginKey))
    ensures SameLeaks(db, UpdateRequested(db, other, ready), row)
    ensures SameLeaks(db, UpdateFinal(db, other, ready), row)
  {
  }

  lemma SeedLeaks(db: Db, e: Event, row: (string, OriginKey))
    requires IdsBelow(db) && IsSeeding(e)
    ensures LeakStep(db, After(db, e), e, row)
  {
    SeedingIsEnqueue(db, e);
    var (open, req, links) := SeedParts(db, e);
    EnqueueFromEffect(open, req, links, |BudgetJobs(open, req.owner, req.budget)|, e.blacklist, e.stamps);
    EnqueuedReflexive(open, req);
    if After(db, e) != db {
      EnqueuedLeaks(open, After(db, e), req, row);
    }
  }

  lemma StepLeaks(db: Db, e: Event, row: (string, OriginKey))
    requires IdsBelow(db) && Enabled(db, e) && ActiveHaveOrigins(db) && (row in db.origins || !Renews(db, e, row))
    ensures LeakStep(db, After(db, e), e, row)
  {
    if IsSeeding(e) {
      SeedLeaks(db, e, row);
    } else if e.Recrawl? {
      RecrawlEvolves(db, e);
    } else if e.Report? {
      StageLoopEffect(db, e.owner, e.crawler, e.lease, e.results);
    } else if e.ApplyItem? || e.ApplyStops? {
      ApplyLeaks(db, e, row);
    } else if TakesBack(e) {
      TakingBackIsReturn(db, e);
    } else {
      OtherEventsLeak(db, e, row);
    }
  }

  lemma OtherEventsLeak(db: Db, e: Event, row: (string, OriginKey))
    requires e.Claim? || e.AcceptStaged? || e.FailJob? || IsQuiet(e) || WritesOrigins(e) || e.StopJobs?
    requires row in db.origins || !Renews(db, e, row)
    ensures LeakStep(db, After(db, e), e, row)
  {
    if e.GiveBack? {
      assert SameLeaks(db, ReturnSlot(db, e.row), row);
    } else if e.StopOrigins? {
      ResetLeaks(db, e);
    } else if e.BlacklistOrigins? {
      DropLeaks(db, e, row);
    } else if e.StopJobs? {
      StopLeaks(db, e, row);
    } else {
      OriginRowsKept(db, e, row);
    }
  }

  lemma OriginRowsKept(db: Db, e: Event, row: (string, OriginKey))
    requires e.Claim? || e.AcceptStaged? || e.FailJob? || IsQuiet(e)
    ensures SameLeaks(db, After(db, e), row)
  {
    if IsQuiet(e) {
      OriginsUntouched(db, e);
    }
  }

  lemma ResetLeaks(db: Db, e: Event)
    requires e.StopOrigins?
    ensures forall row: (string, OriginKey) :: LeakStep(db, ResetOrigins(db, e.owner, e.now), e, row)
  {
  }

  lemma DropLeaks(db: Db, e: Event, row: (string, OriginKey))
    requires e.BlacklistOrigins?
    ensures LeakStep(db, DropUnusedOrigins(db, e.domain), e, row)
  {
  }

  lemma StopLeaks(db: Db, e: Event, row: (string, OriginKey))
    requires e.StopJobs?
    ensures LeakStep(db, DeleteUnfinished(db, e.owner), e, row)
  {
  }

  /** A job that is active counts against an origin that exists. */
  ghost predicate ActiveHaveOrigins(db: Db) {
    forall id <- db.jobs :: Active(db.jobs[id]) ==> OriginRow(db.jobs[id]) in db.origins
  }

  lemma StepKeepsActiveOrigins(db: Db, e: Event)
    requires IdsBelow(db) && Enabled(db, e) && ActiveHaveOrigins(db)
    ensures ActiveHaveOrigins(After(db, e))
  {
    var after := After(db, e);
    StepEvolves(db, e);
    forall id | id in after.jobs && Active(after.jobs[id])
      ensures OriginRow(after.jobs[id]) in after.origins
    {
      var row := OriginRow(after.jobs[id]);
      WasActiveOrClaimed(db, e, after, id);
      assert row in db.origins;
      StepLeaks(db, e, row);
      UsedOriginStays(db, e, id);
    }
  }

  lemma WasActiveOrClaimed(db: Db, e: Event, after: Db, id: nat)
    requires after == After(db, e) && Evolves(db, e, after) && Enabled(db, e) && ActiveHaveOrigins(db)
    requires id in after.jobs && Active(after.jobs[id])
    ensures id in db.jobs && OriginRow(db.jobs[id]) == OriginRow(after.jobs[id]) && OriginRow(db.jobs[id]) in db.origins
  {
    assert id in db.jobs;
    assert MoveAllowed(e, db.jobs[id], after.jobs[id], db.nextLease);
    if !Active(db.jobs[id]) {
      assert id in EligibleJobs(db, e.owner, e.now, e.js);
    }
  }

  lemma UsedOriginStays(db: Db, e: Event, id: nat)
    requires id in db.jobs
    ensures e.BlacklistOrigins? ==> !Dropped(db, e.domain, OriginRow(db.jobs[id]))
    ensures e.StopOrigins? ==> After(db, e).origins.Keys == db.origins.Keys
  {
  }

  /** In every run, clean or not, an origin's lost slots are those of the events since it last started anew. */
  lemma {:induction false} RunCountsLosses(states: seq<Db>, events: seq<Event>, i: nat, row: (string, OriginKey))
    requires IsRun(states, events) && i < |states|
    ensures ActiveHaveOrigins(states[i])
    ensures row in states[i].origins ==> states[i].origins[row].leaked == LostSince(states, events, i, row)
    ensures row !in states[i].origins ==> LostSince(states, events, i, row) == 0
  {
    if i > 0 {
      RunCountsLosses(states, events, i - 1, row);
      RunKeepsJobsOk(states, events, i - 1);
      LossesStep(states, events, i - 1, row);
    }
  }

  lemma LossesStep(states: seq<Db>, events: seq<Event>, k: nat, row: (string, OriginKey))
    requires IsRun(states, events) && k < |events| && IdsBelow(states[k]) && ActiveHaveOrigins(states[k])
    requires if row in states[k].origins then states[k].origins[row].leaked == LostSince(states, events, k, row)
             else LostSince(states, events, k, row) == 0
    ensures ActiveHaveOrigins(states[k + 1])
    ensures if row in states[k + 1].origins
        then states[k + 1].origins[row].leaked == LostSince(states, events, k + 1, row)
            else LostSince(states, events, k + 1, row) == 0
  {
    var db, e := states[k], events[k];
    assert StepAt(states, events, k);
    StepKeepsActiveOrigins(db, e);
    if row in db.origins || !Renews(db, e, row) {
      StepLeaks(db, e, row);
    }
    if row !in db.origins {
      LossNeedsOrigin(db, e, row);
    }
  }

  lemma LossNeedsOrigin(db: Db, e: Event, row: (string, OriginKey))
    requires ActiveHaveOrigins(db) && row !in db.origins
    ensures LostBy(db, e, row) == 0
    ensures Renews(db, e, row) ==> row !in After(db, e).origins
  {
    assert ActiveOn(db, row) == {};
  }

  /** The counter in full: as long as every reset finds its owner idle, it is the active jobs plus the slots lost since
      the origin last started anew plus those still to be given back. */
  lemma CounterExplained(states: seq<Db>, events: seq<Event>, i: nat, row: (string, OriginKey))
    requires IsRun(states, events) && i < |states| && CleanRun(states, events, i) && row in states[i].origins
    ensures states[i].origins[row].inFlight
         == |ActiveOn(states[i], row)| + LostSince(states, events, i, row) + states[i].owed[row]
  {
    RunKeepsCounter(states, events, i);
    RunCountsLosses(states, events, i, row);
    assert RowCounts(states[i], row);
  }

  /** So it never falls below the active jobs, and equals them exactly when nothing was lost and nothing is owed. */
  lemma CounterNeverLow(states: seq<Db>, events: seq<Event>, i: nat, row: (string, OriginKey))
    requires IsRun(states, events) && i < |states| && CleanRun(states, events, i) && row in states[i].origins
    ensures |ActiveOn(states[i], row)| <= states[i].origins[row].inFlight
    ensures states[i].origins[row].inFlight == |ActiveOn(states[i], row)|
       <==> LostSince(states, events, i, row) == 0 && row !in states[i].owed
  {
    CounterExplained(states, events, i, row);
  }

  /** Nothing is lost on the origin by the events from m on. */
  ghost predicate LosesNothing(states: seq<Db>, events: seq<Event>, m: nat, i: nat, row: (string, OriginKey))
    requires |states| == |events| + 1 && i <= |events|
  {
    forall k :: m <= k < i ==> LostAt(states, events, k, row) == 0
  }

  function LostAt(states: seq<Db>, events: seq<Event>, k: nat, row: (string, OriginKey)): nat
    requires |states| == |events| + 1 && k < |events|
  {
    LostBy(states[k], events[k], row)
  }

  lemma {:induction false} NothingLost(states: seq<Db>, events: seq<Event>, m: nat, i: nat, row: (string, OriginKey))
    requires |states| == |events| + 1 && m <= i <= |events| && LosesNothing(states, events, m, i, row)
    requires m == 0 || Renews(states[m - 1], events[m - 1], row)
    ensures LostSince(states, events, i, row) == 0
    decreases i
  {
    if m < i {
      NothingLost(states, events, m, i - 1, row);
      assert LostAt(states, events, i - 1, row) == 0;
    }
  }

  /** If no event has lost a slot of the origin since the run began or the origin last started anew, its counter is
      exactly its active jobs whenever no projection failure is between its two statements. */
  lemma CounterExactWithoutFaults(states: seq<Db>, events: seq<Event>, m: nat, i: nat, row: (string, OriginKey))
    requires IsRun(states, events) && m <= i < |states| && CleanRun(states, events, i) && row in states[i].origins
    requires m == 0 || Renews(states[m - 1], events[m - 1], row)
    requires LosesNothing(states, events, m, i, row)
    ensures states[i].origins[row].inFlight == |ActiveOn(states[i], row)| <==> row !in states[i].owed
  {
    NothingLost(states, events, m, i, row);
    CounterNeverLow(states, events, i, row);
  }
}
