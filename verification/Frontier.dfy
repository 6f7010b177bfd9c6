/** Claiming jobs from the frontier and accepting reports for a lease. */
module Frontier {
  import opened Wrappers
  import opened Urls
  import opened Tables
  import opened Counting

  /** A queued job the claim query ranks. */
  predicate Eligible(db: Db, owner: string, now: Time, js: bool, j: Job) {
    && j.owner == owner
    && j.status.Queued?
    && (j.nextRetryAt.Some? ==> j.nextRetryAt.value <= now)
    && OriginRow(j) in db.origins
    && db.origins[OriginRow(j)].nextAllowedAt <= now
    && (js || !j.requiresJs)
  }

  function EligibleJobs(db: Db, owner: string, now: Time, js: bool): set<nat> {
    set id | id in db.jobs && Eligible(db, owner, now, js, db.jobs[id])
  }

  /** The ranking order within an origin: priority first, then age. */
  predicate Sooner(a: Job, b: Job) {
    a.priority > b.priority || (a.priority == b.priority && a.discoveredAt < b.discoveredAt)
  }

  /** The members of an origin's partition that a ranking puts before `id`. */
  function RankedBefore(db: Db, rank: map<nat, nat>, id: nat): set<nat>
    requires rank.Keys <= db.jobs.Keys && id in rank
  {
    set k | k in rank && db.jobs[k].origin == db.jobs[id].origin && rank[k] < rank[id]
  }

  /** `rank` is a row_number() over the eligible jobs, partitioned by origin and ordered by `Sooner`.
      Ties may be broken either way, as in the query. */
  ghost predicate IsRowNumber(db: Db, eligible: set<nat>, rank: map<nat, nat>) {
    && rank.Keys == eligible
    && eligible <= db.jobs.Keys
    && (forall a <- rank, b <- rank ::
          a != b && db.jobs[a].origin == db.jobs[b].origin ==> rank[a] != rank[b])
    && (forall a <- rank, b <- rank ::
          db.jobs[a].origin == db.jobs[b].origin && Sooner(db.jobs[a], db.jobs[b]) ==> rank[a] < rank[b])
    && (forall a <- rank :: rank[a] == 1 + |RankedBefore(db, rank, a)|)
  }

  /** The ranked jobs whose rank still fits under their own concurrency limit. */
  function Candidates(db: Db, rank: map<nat, nat>): set<nat>
    requires rank.Keys <= db.jobs.Keys
  {
    set id | id in rank && |ActiveOn(db, OriginRow(db.jobs[id]))| + rank[id] <= EffectiveLimit(db.jobs[id])
  }

  /** The order in which candidates are taken when there are more than the limit. */
  predicate TakenBefore(db: Db, a: Job, b: Job)
    requires OriginRow(a) in db.origins && OriginRow(b) in db.origins
  {
    var ra, rb := db.origins[OriginRow(a)].nextAllowedAt, db.origins[OriginRow(b)].nextAllowedAt;
    ra < rb || (ra == rb && Sooner(a, b))
  }

  /** `picked` is what the claim query locks: a first part of the candidates that are not locked elsewhere. */
  ghost predicate IsPick(db: Db, eligible: set<nat>, rank: map<nat, nat>, locked: set<nat>, limit: nat,
      picked: set<nat>)
    requires IsRowNumber(db, eligible, rank)
    requires forall id <- eligible :: OriginRow(db.jobs[id]) in db.origins
  {
    var free := Candidates(db, rank) - locked;
    && picked <= free
    && |picked| <= Max(limit, 1)
    && (|picked| < Max(limit, 1) ==> picked == free)
    && forall p <- picked, q <- free - picked :: !TakenBefore(db, db.jobs[q], db.jobs[p])
  }

  function ClaimedJob(j: Job, lease: nat, crawler: string, js: bool, now: Time): Job {
    j.(status := Claimed, claimedBy := Some(crawler), claimedAt := Some(now), lease := Some(lease),
       attempts := j.attempts + 1, claimJs := js)
  }

  /** The jobs of `ids` that belong to an origin row. */
  function OnRow(db: Db, ids: set<nat>, row: (string, OriginKey)): set<nat> {
    set id | id in ids && id in db.jobs && OriginRow(db.jobs[id]) == row
  }

  /** One claim: the picked rows get a fresh lease and their origins count them. */
  function ClaimPicked(db: Db, owner: string, crawler: string, js: bool, now: Time, picked: set<nat>): Db {
    db.(jobs := map id | id in db.jobs ::
          if id in picked then ClaimedJob(db.jobs[id], db.nextLease, crawler, js, now) else db.jobs[id],
        origins := map row | row in db.origins ::
          if row.0 == owner
          then db.origins[row].(inFlight := db.origins[row].inFlight + |OnRow(db, picked, row)|)
          else db.origins[row],
        nextLease := db.nextLease + 1)
  }

  /** A report moves the lease's claimed jobs to ingesting. */
  function AcceptReport(db: Db, owner: string, crawler: string, lease: nat, ids: set<nat>): Db {
    db.(jobs := map id | id in db.jobs ::
          var j := db.jobs[id];
          if id in ids && j.owner == owner && j.claimedBy == Some(crawler) && j.lease == Some(lease) && Active(j)
          then j.(status := Ingesting) else j)
  }

  // ---- the layered concurrency cap --------------------------------------

  /** The active jobs of an origin whose own limit is at most c. */
  function Narrow(db: Db, row: (string, OriginKey), c: int): set<nat> {
    set id | id in ActiveOn(db, row) && EffectiveLimit(db.jobs[id]) <= c
  }

  /** At every level c, at most c active jobs of an origin have a limit of c or less. */
  ghost predicate LayeredCap(db: Db) {
    forall row, c: int :: c >= 1 ==> |Narrow(db, row, c)| <= c
  }

  /** So an origin never has more active jobs than the largest limit among them. */
  lemma CapBoundsActive(db: Db, row: (string, OriginKey), c: int)
    requires LayeredCap(db) && c >= 1
    requires forall id <- ActiveOn(db, row) :: db.jobs[id].concurrency <= c
    ensures |ActiveOn(db, row)| <= c
  {
    assert Narrow(db, row, c) == ActiveOn(db, row);
  }

  /** The taken jobs of an origin whose own limit is at most c. */
  function NarrowTaken(db: Db, taken: set<nat>, row: (string, OriginKey), c: int): set<nat> {
    set id | id in OnRow(db, taken, row) && EffectiveLimit(db.jobs[id]) <= c
  }

  lemma TakenRanks(db: Db, eligible: set<nat>, rank: map<nat, nat>, taken: set<nat>, row: (string, OriginKey), c: int,
      a: nat)
    requires IsRowNumber(db, eligible, rank) && taken <= Candidates(db, rank) && a in NarrowTaken(db, taken, row, c)
    ensures a in rank && 1 <= rank[a] <= c - |ActiveOn(db, row)|
    ensures forall b <- NarrowTaken(db, taken, row, c) :: b in rank && (a != b ==> rank[a] != rank[b])
  {
    assert a in Candidates(db, rank);
    forall b | b in NarrowTaken(db, taken, row, c)
      ensures b in rank && (a != b ==> rank[a] != rank[b])
    {
      assert b in Candidates(db, rank) && db.jobs[a].origin == db.jobs[b].origin;
    }
  }

  /** Any set of ranked candidates, whoever takes them, fits under the cap together with the jobs already active. */
  lemma CandidatesFit(db: Db, owner: string, eligible: set<nat>, rank: map<nat, nat>, taken: set<nat>,
                      row: (string, OriginKey), c: int)
    requires LayeredCap(db) && c >= 1
    requires IsRowNumber(db, eligible, rank)
    requires forall id <- eligible :: db.jobs[id].owner == owner && !Active(db.jobs[id])
    requires taken <= Candidates(db, rank)
    ensures |Narrow(db, row, c) + NarrowTaken(db, taken, row, c)| <= c
  {
    var added := NarrowTaken(db, taken, row, c);
    if added == {} {
      assert Narrow(db, row, c) + added == Narrow(db, row, c);
    } else {
      SubsetCard(Narrow(db, row, c), ActiveOn(db, row));
      forall a | a in added
        ensures a in rank && 1 <= rank[a] <= c - |ActiveOn(db, row)|
        ensures forall b <- added :: b in rank && (a != b ==> rank[a] != rank[b])
      {
        TakenRanks(db, eligible, rank, taken, row, c, a);
      }
      RankedCard(added, rank, c - |ActiveOn(db, row)|);
    }
  }

  /** One crawler's share of a round of overlapping claims. */
  datatype ClaimCall = ClaimCall(crawler: string, js: bool, now: Time, picked: set<nat>)

  function ClaimAll(db: Db, owner: string, calls: seq<ClaimCall>): Db
    decreases |calls|
  {
    if calls == [] then db
    else
      var c := calls[0];
      ClaimAll(ClaimPicked(db, owner, c.crawler, c.js, c.now, c.picked), owner, calls[1..])
  }

  function AllPicked(calls: seq<ClaimCall>): set<nat> {
    if calls == [] then {} else calls[0].picked + AllPicked(calls[1..])
  }

  /** What a round of claims does to the rows: picked ones become active, and no other column that matters
      to the cap changes. */
  lemma {:induction false} ClaimAllRows(db: Db, owner: string, calls: seq<ClaimCall>)
    ensures var after := ClaimAll(db, owner, calls);
      && after.jobs.Keys == db.jobs.Keys
      && forall id <- db.jobs ::
           && OriginRow(after.jobs[id]) == OriginRow(db.jobs[id])
           && after.jobs[id].concurrency == db.jobs[id].concurrency
           && (Active(after.jobs[id]) <==> Active(db.jobs[id]) || id in AllPicked(calls))
    decreases |calls|
  {
    if calls != [] {
      var c := calls[0];
      ClaimAllRows(ClaimPicked(db, owner, c.crawler, c.js, c.now, c.picked), owner, calls[1..]);
    }
  }

  lemma NarrowAfterClaims(db: Db, owner: string, calls: seq<ClaimCall>, row: (string, OriginKey), c: int)
    requires AllPicked(calls) <= db.jobs.Keys
    ensures Narrow(ClaimAll(db, owner, calls), row, c)
         == Narrow(db, row, c) + NarrowTaken(db, AllPicked(calls), row, c)
  {
    ClaimAllRows(db, owner, calls);
    var after := ClaimAll(db, owner, calls);
    forall id | id in db.jobs
      ensures EffectiveLimit(after.jobs[id]) == EffectiveLimit(db.jobs[id])
    {
    }
  }

  /** Any number of claims that ranked the same snapshot and took parts of its candidates leave the layered cap
      true, whatever their limits, because the cap already holds for the whole candidate set. */
  lemma OverlappingClaimsKeepCap(db: Db, owner: string, eligible: set<nat>, rank: map<nat, nat>, calls: seq<ClaimCall>)
    requires LayeredCap(db)
    requires IsRowNumber(db, eligible, rank)
    requires forall id <- eligible :: db.jobs[id].owner == owner && !Active(db.jobs[id])
    requires AllPicked(calls) <= Candidates(db, rank)
    ensures LayeredCap(ClaimAll(db, owner, calls))
  {
    forall row, c: int | c >= 1
      ensures |Narrow(ClaimAll(db, owner, calls), row, c)| <= c
    {
      NarrowAfterClaims(db, owner, calls, row, c);
      CandidatesFit(db, owner, eligible, rank, AllPicked(calls), row, c);
    }
  }

  /** A single claim is the case of one call. */
  lemma ClaimKeepsCap(db: Db, owner: string, crawler: string, js: bool, now: Time, rank: map<nat, nat>,
      picked: set<nat>)
    requires LayeredCap(db)
    requires IsRowNumber(db, EligibleJobs(db, owner, now, js), rank)
    requires picked <= Candidates(db, rank)
    ensures LayeredCap(ClaimPicked(db, owner, crawler, js, now, picked))
  {
    var calls := [ClaimCall(crawler, js, now, picked)];
    assert calls[1..] == [];
    assert ClaimAll(db, owner, calls) == ClaimPicked(db, owner, crawler, js, now, picked) by {
      assert ClaimAll(ClaimPicked(db, owner, crawler, js, now, picked), owner, [])
          == ClaimPicked(db, owner, crawler, js, now, picked);
    }
    assert AllPicked(calls) == picked;
    OverlappingClaimsKeepCap(db, owner, EligibleJobs(db, owner, now, js), rank, calls);
  }

  /** When no two eligible jobs of an origin tie, the row numbers are determined, so concurrent claims on one
      snapshot do rank alike. */
  lemma RowNumberUnique(db: Db, eligible: set<nat>, r1: map<nat, nat>, r2: map<nat, nat>)
    requires IsRowNumber(db, eligible, r1) && IsRowNumber(db, eligible, r2)
    requires forall a <- eligible, b <- eligible :: a != b && db.jobs[a].origin == db.jobs[b].origin
               ==> Sooner(db.jobs[a], db.jobs[b]) || Sooner(db.jobs[b], db.jobs[a])
    ensures r1 == r2
  {
    forall a <- eligible
      ensures r1[a] == r2[a]
    {
      RankedBeforeIsSooner(db, eligible, r1, a);
      RankedBeforeIsSooner(db, eligible, r2, a);
    }
  }

  lemma RankedBeforeIsSooner(db: Db, eligible: set<nat>, rank: map<nat, nat>, a: nat)
    requires IsRowNumber(db, eligible, rank) && a in eligible
    requires forall b <- eligible :: a != b && db.jobs[a].origin == db.jobs[b].origin
               ==> Sooner(db.jobs[a], db.jobs[b]) || Sooner(db.jobs[b], db.jobs[a])
    ensures RankedBefore(db, rank, a)
         == set k | k in eligible && db.jobs[k].origin == db.jobs[a].origin && Sooner(db.jobs[k], db.jobs[a])
  {
    forall k | k in eligible && db.jobs[k].origin == db.jobs[a].origin
      ensures rank[k] < rank[a] <==> Sooner(db.jobs[k], db.jobs[a])
    {
    }
  }
}
