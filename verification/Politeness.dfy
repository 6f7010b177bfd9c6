/** Politeness over whole runs: the wait a result imposes on an origin is honoured by every later claim. */
module Politeness {
  import opened Wrappers
  import opened Urls
  import opened Tables
  import opened Frontier
  import opened Enqueue
  import opened Ingest
  import opened Outcome
  import opened Projection
  import opened Recovery
  import opened Protocol
  import opened JobInvariants
  import opened Capacity

  /** The events that forget what an origin asked for: stopping all of its owner's jobs, and blacklisting its domain. */
  predicate Resets(e: Event, row: (string, OriginKey)) {
    || (e.StopOrigins? && e.owner == row.0)
    || (e.BlacklistOrigins? && HostMatchesScope(row.1.host, e.domain, SameDomain))
  }

  /** No claim may use the origin before t. */
  predicate ClosedUntil(db: Db, row: (string, OriginKey), t: Time) {
    row in db.origins && db.origins[row].nextAllowedAt >= t
  }

  lemma EnqueueKeepsClosed(db: Db, after: Db, req: EnqueueRequest, row: (string, OriginKey), t: Time)
    requires ClosedUntil(db, row, t) && Enqueued(db, after, req)
    ensures ClosedUntil(after, row, t)
  {
  }

  lemma SeedKeepsClosed(db: Db, e: Event, row: (string, OriginKey), t: Time)
    requires ClosedUntil(db, row, t) && IdsBelow(db) && IsSeeding(e)
    ensures ClosedUntil(After(db, e), row, t)
  {
    SeedingIsEnqueue(db, e);
    var (open, req, links) := SeedParts(db, e);
    EnqueueFromEffect(open, req, links, |BudgetJobs(open, req.owner, req.budget)|, e.blacklist, e.stamps);
  }

  lemma UpdatesKeepClosed(db: Db, other: (string, OriginKey), ready: Time, row: (string, OriginKey), t: Time)
    requires ClosedUntil(db, row, t)
    ensures ClosedUntil(UpdateRequested(db, other, ready), row, t) && ClosedUntil(UpdateFinal(db, other, ready), row, t)
  {
  }

  lemma ApplyKeepsClosed(db: Db, e: Event, row: (string, OriginKey), t: Time)
    requires ClosedUntil(db, row, t) && IdsBelow(db) && (e.ApplyItem? || e.ApplyStops?) && CanApply(db, e.key)
    ensures ClosedUntil(After(db, e), row, t)
  {
    SpreadIsEnqueue(db, e);
    var j, r := db.jobs[e.key.1], db.items[e.key].result;
    var mid, ready := Spread(db, e), OriginReadyAt(e.now, r);
    EnqueueKeepsClosed(WriteStatus(db, e.key, e.clock, e.blacklist), mid, ChildRequest(j), row, t);
    if LosesSlot(e) {
      assert After(db, e) == Leak(mid, OriginRow(j));
    } else {
      UpdatesKeepClosed(mid, OriginRow(j), ready, row, t);
      if FinalRow(j, r).Some? {
        UpdatesKeepClosed(UpdateRequested(mid, OriginRow(j), ready), FinalRow(j, r).value, ready, row, t);
      }
      AppliedOrigins(db, e);
    }
  }

  lemma StepKeepsClosed(db: Db, e: Event, row: (string, OriginKey), t: Time)
    requires ClosedUntil(db, row, t) && IdsBelow(db) && Enabled(db, e) && !Resets(e, row)
    ensures ClosedUntil(After(db, e), row, t)
  {
    if IsSeeding(e) {
      SeedKeepsClosed(db, e, row, t);
    } else if e.Recrawl? {
      RecrawlEvolves(db, e);
    } else if e.Report? {
      StageLoopEffect(db, e.owner, e.crawler, e.lease, e.results);
    } else if e.ApplyItem? || e.ApplyStops? {
      ApplyKeepsClosed(db, e, row, t);
    } else if TakesBack(e) {
      TakingBackIsReturn(db, e);
    } else if IsQuiet(e) {
      OriginsUntouched(db, e);
    } else {
      OriginWriteKeepsClosed(db, e, row, t);
    }
  }

  lemma OriginWriteKeepsClosed(db: Db, e: Event, row: (string, OriginKey), t: Time)
    requires ClosedUntil(db, row, t) && Enabled(db, e) && !Resets(e, row)
    requires e.Claim? || e.AcceptStaged? || e.FailJob? || e.StopJobs? || WritesOrigins(e)
    ensures ClosedUntil(After(db, e), row, t)
  {
  }

  /** The origins that learn the wait of an applied result: the requested one, and the redirect's when all writes
      succeed. */
  predicate Learns(db: Db, e: Event, row: (string, OriginKey))
    requires (e.ApplyItem? || e.ApplyStops?) && CanApply(db, e.key)
  {
    var j, r := db.jobs[e.key.1], db.items[e.key].result;
    !LosesSlot(e) && (row == OriginRow(j) || (e.ApplyItem? && FinalRow(j, r) == Some(row)))
  }

  lemma ApplyCloses(db: Db, e: Event, row: (string, OriginKey))
    requires IdsBelow(db) && (e.ApplyItem? || e.ApplyStops?) && CanApply(db, e.key) && Learns(db, e, row)
    ensures ClosedUntil(After(db, e), row, OriginReadyAt(e.now, db.items[e.key].result))
  {
    AppliedOrigins(db, e);
  }

  lemma {:induction false} StaysClosed(states: seq<Db>, events: seq<Event>, i: nat, k: nat, row: (string, OriginKey),
      t: Time)
    requires IsRun(states, events) && i <= k < |states| && ClosedUntil(states[i], row, t)
    requires forall m :: i <= m < k ==> !Resets(events[m], row)
    ensures ClosedUntil(states[k], row, t)
    decreases k
  {
    if i < k {
      StaysClosed(states, events, i, k - 1, row, t);
      RunKeepsJobsOk(states, events, k - 1);
      assert StepAt(states, events, k - 1);
      StepKeepsClosed(states[k - 1], events[k - 1], row, t);
    }
  }

  lemma ClaimedWasOpen(db: Db, e: Event, id: nat)
    requires e.Claim? && Enabled(db, e) && id in e.picked
    ensures id in db.jobs && OriginRow(db.jobs[id]) in db.origins
        && db.origins[OriginRow(db.jobs[id])].nextAllowedAt <= e.now
  {
    assert id in EligibleJobs(db, e.owner, e.now, e.js);
  }

  /** After a result is applied at time t with wait w, no later claim takes a job of the requested origin, or of the
      redirect's, before t + w, unless a stop-all or a blacklisting came between. */
  lemma ClaimsWait(states: seq<Db>, events: seq<Event>, i: nat, k: nat, row: (string, OriginKey), id: nat)
    requires IsRun(states, events) && i < k < |events|
    requires (events[i].ApplyItem? || events[i].ApplyStops?) && CanApply(states[i], events[i].key)
    requires Learns(states[i], events[i], row)
    requires forall m :: i < m < k ==> !Resets(events[m], row)
    requires events[k].Claim? && id in events[k].picked && id in states[k].jobs && OriginRow(states[k].jobs[id]) == row
    ensures events[k].now >= events[i].now + OriginWait(states[i].items[events[i].key].result)
  {
    ApplyClosesAt(states, events, i, row);
    StaysClosed(states, events, i + 1, k, row, OriginReadyAt(events[i].now, states[i].items[events[i].key].result));
    ClaimAfterClosed(states, events, k, row, id);
  }

  lemma ApplyClosesAt(states: seq<Db>, events: seq<Event>, i: nat, row: (string, OriginKey))
    requires IsRun(states, events) && i < |events|
    requires (events[i].ApplyItem? || events[i].ApplyStops?) && CanApply(states[i], events[i].key)
    requires Learns(states[i], events[i], row)
    ensures ClosedUntil(states[i + 1], row, OriginReadyAt(events[i].now, states[i].items[events[i].key].result))
  {
    RunKeepsJobsOk(states, events, i);
    assert StepAt(states, events, i);
    ApplyCloses(states[i], events[i], row);
  }

  lemma ClaimAfterClosed(states: seq<Db>, events: seq<Event>, k: nat, row: (string, OriginKey), id: nat)
    requires IsRun(states, events) && k < |events| && events[k].Claim? && id in events[k].picked
    requires id in states[k].jobs && OriginRow(states[k].jobs[id]) == row
    ensures row in states[k].origins && states[k].origins[row].nextAllowedAt <= events[k].now
  {
    assert StepAt(states, events, k);
    ClaimedWasOpen(states[k], events[k], id);
  }

  lemma TakingBackCloses(db: Db, e: Event, row: (string, OriginKey))
    requires TakesBack(e) && row in db.origins && OnRow(db, TakenBack(db, e), row) != {}
    ensures ClosedUntil(After(db, e), row, e.now + RETRY_DELAY_SECS)
  {
    TakingBackIsReturn(db, e);
  }

  /** A taken-back claim also keeps its origin closed for a while. */
  lemma ClaimsWaitAfterRecovery(states: seq<Db>, events: seq<Event>, i: nat, k: nat, row: (string, OriginKey), id: nat)
    requires IsRun(states, events) && i < k < |events|
    requires TakesBack(events[i]) && row in states[i].origins
        && OnRow(states[i], TakenBack(states[i], events[i]), row) != {}
    requires forall m :: i < m < k ==> !Resets(events[m], row)
    requires events[k].Claim? && id in events[k].picked && id in states[k].jobs && OriginRow(states[k].jobs[id]) == row
    ensures events[k].now >= events[i].now + RETRY_DELAY_SECS
  {
    TakingBackClosesAt(states, events, i, row);
    StaysClosed(states, events, i + 1, k, row, events[i].now + RETRY_DELAY_SECS);
    ClaimAfterClosed(states, events, k, row, id);
  }

  lemma TakingBackClosesAt(states: seq<Db>, events: seq<Event>, i: nat, row: (string, OriginKey))
    requires IsRun(states, events) && i < |events|
    requires TakesBack(events[i]) && row in states[i].origins
        && OnRow(states[i], TakenBack(states[i], events[i]), row) != {}
    ensures ClosedUntil(states[i + 1], row, events[i].now + RETRY_DELAY_SECS)
  {
    assert StepAt(states, events, i);
    TakingBackCloses(states[i], events[i], row);
  }
}
