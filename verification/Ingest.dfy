/** Staging crawl reports and moving ingest items through the projector. */
module Ingest {
  import opened Wrappers
  import opened Urls
  import opened Tables
  import opened Frontier

  /** The URL of a job as the reporting crawler holds it; None when the lease is not (or no longer) its own. */
  function ReportedUrl(db: Db, owner: string, crawler: string, lease: nat, id: nat): Option<Url> {
    if id in db.jobs && db.jobs[id].owner == owner && db.jobs[id].claimedBy == Some(crawler)
        && db.jobs[id].lease == Some(lease)
    then Some(db.jobs[id].url) else None
  }

  /** A result is accepted for a job the crawler holds, with its URL, or for a pair that was staged before. */
  predicate ReportAllowed(db: Db, owner: string, crawler: string, lease: nat, r: CrawlResult) {
    match ReportedUrl(db, owner, crawler, lease, r.jobId)
    case Some(url) => url == r.url
    case None => (lease, r.jobId) in db.items
  }

  /** Inserts a pending item, or replaces reporter and result of the existing one, keeping its status. */
  function StageItem(db: Db, owner: string, crawler: string, lease: nat, r: CrawlResult): Db {
    var key := (lease, r.jobId);
    db.(items := db.items[key :=
          if key in db.items then db.items[key].(owner := owner, crawler := crawler, result := r)
          else Item(owner, crawler, Pending, None, r)])
  }

  datatype Staged = Staged(db: Db, ok: bool)

  /** The staging loop: it stops at the first result that is not allowed and keeps what it inserted. */
  function StageLoop(db: Db, owner: string, crawler: string, lease: nat, results: seq<CrawlResult>): Staged
    decreases |results|
  {
    if results == [] then Staged(db, true)
    else if !ReportAllowed(db, owner, crawler, lease, results[0]) then Staged(db, false)
    else StageLoop(StageItem(db, owner, crawler, lease, results[0]), owner, crawler, lease, results[1..])
  }

  function ReportedIds(results: seq<CrawlResult>): set<nat> {
    set r | r in results :: r.jobId
  }

  /** A whole report: only if every result was staged are its jobs moved to ingesting. */
  function StageReport(db: Db, owner: string, crawler: string, lease: nat, results: seq<CrawlResult>): Staged {
    var staged := StageLoop(db, owner, crawler, lease, results);
    if staged.ok then Staged(AcceptReport(staged.db, owner, crawler, lease, ReportedIds(results)), true) else staged
  }

  /** The projector takes pending items. */
  function ClaimItems(db: Db, picked: set<(nat, nat)>, now: Time): Db {
    db.(items := map key | key in db.items ::
          if key in picked then db.items[key].(status := Processing, startedAt := Some(now)) else db.items[key])
  }

  function SetItemStatus(db: Db, key: (nat, nat), status: ItemStatus): Db {
    if key in db.items then db.(items := db.items[key := db.items[key].(status := status)]) else db
  }

  /** Items whose projector went quiet: replayable while their job is ingesting, failed otherwise.
      An item whose job row is gone is left alone. */
  predicate StaleItem(db: Db, key: (nat, nat), cutoff: Time) {
    && key in db.items
    && db.items[key].status.Processing?
    && db.items[key].startedAt.Some? && db.items[key].startedAt.value < cutoff
    && key.1 in db.jobs && db.jobs[key.1].owner == db.items[key].owner
  }

  /** The first statement of the recovery makes items replayable whose job is still ingesting. */
  function ReplayStaleItems(db: Db, cutoff: Time): Db {
    db.(items := map key | key in db.items ::
          if StaleItem(db, key, cutoff) && db.jobs[key.1].status.Ingesting?
          then db.items[key].(status := Pending, startedAt := None) else db.items[key])
  }

  /** The second fails those whose job has left ingesting. */
  function AbandonStaleItems(db: Db, cutoff: Time): Db {
    db.(items := map key | key in db.items ::
          if StaleItem(db, key, cutoff) && !db.jobs[key.1].status.Ingesting?
          then db.items[key].(status := ItemFailed) else db.items[key])
  }
}
