/** What enqueueing adds, said of the links and the rows alone: which links become rows, how such a row looks, and that
    none is passed over while the budget has room. */
module Discovery {
  import opened Wrappers
  import opened Urls
  import opened Tables
  import opened Enqueue

  // ---- links that may become rows ---------------------------------------

  /** A web address with a host that is on none of the blacklisted domains. */
  predicate Crawlable(l: Link, blacklist: seq<string>) {
    && l.Some? && l.value.scheme in {"http", "https"} && l.value.host.Some?
    && forall d <- blacklist :: !OnDomain(l.value.host.value, d)
  }

  /** The row for a link: its URL in normal form, and its origin. */
  predicate StandsFor(j: Job, l: Link) {
    l.Some? && NormalizeUrl(l.value) == Some(j.url) && OriginOf(l.value) == Some(j.origin)
  }

  lemma AdmittedIff(l: Link, blacklist: seq<string>)
    ensures Admitted(l, blacklist).Some? <==> Crawlable(l, blacklist)
    ensures Admitted(l, blacklist).Some? ==>
      NormalizeUrl(l.value) == Some(Admitted(l, blacklist).value.0)
      && OriginOf(l.value) == Some(Admitted(l, blacklist).value.1)
  {
    if l.Some? && NormalizeUrl(l.value).Some? {
      NormalizeKeepsOrigin(l.value);
      MatchesDomainsIff(NormalizeUrl(l.value), blacklist);
    }
  }

  // ---- what is added ----------------------------------------------------

  /** A new row as the request asks for it: never tried, due at once, and the more urgent the less deep. */
  predicate AsAsked(j: Job, req: EnqueueRequest, now: Time) {
    && j.status.Queued? && j.attempts == 0 && j.nextRetryAt.None? && !j.requiresJs && j.finalUrl.None?
    && j.owner == req.owner && j.budget == req.budget && j.depth == req.depth && j.maxDepth == req.maxDepth
    && j.scope == req.scope && j.discoveredAt == now
    && j.maxPages == Max(req.maxPages, 1) && j.concurrency == Max(req.concurrency, 1)
    && j.maxDiscovered == Max(req.maxDiscovered, 1)
    && j.anchor == (if req.host.Some? then req.host else ExtractHost(j.url))
    && (0 <= j.depth <= 10 ==> j.priority == 80 - 3 * j.depth)
  }

  /** A new row stands for one of the links that may become rows. */
  predicate FromLinks(j: Job, links: seq<Link>, blacklist: seq<string>) {
    exists l <- links :: Crawlable(l, blacklist) && StandsFor(j, l)
  }

  lemma NewRowAsAsked(db: Db, req: EnqueueRequest, link: Link, blacklist: seq<string>, stamps: nat -> Time, id: nat)
    requires var after := EnqueueOne(db, req, link, blacklist, stamps); id in after.jobs && id !in db.jobs
    ensures var j := EnqueueOne(db, req, link, blacklist, stamps).jobs[id];
      id == db.nextJob && AsAsked(j, req, stamps(id)) && FromLinks(j, [link], blacklist)
  {
    AdmittedIff(link, blacklist);
    assert link in [link];
  }

  /** Every row added is as asked and stands for one of the links. */
  lemma {:induction false} AddedRows(db: Db, req: EnqueueRequest, links: seq<Link>, used: int, blacklist: seq<string>,
      stamps: nat -> Time, id: nat)
    requires IdsBelow(db)
    requires id in EnqueueFrom(db, req, links, used, blacklist, stamps).jobs && id !in db.jobs
    ensures var j := EnqueueFrom(db, req, links, used, blacklist, stamps).jobs[id];
      AsAsked(j, req, stamps(id)) && FromLinks(j, links, blacklist)
    decreases |links|
  {
    if links != [] && used < Max(req.maxPages, 1) {
      var mid := EnqueueOne(db, req, links[0], blacklist, stamps);
      var used' := used + (if Accepts(db, req, links[0], blacklist) then 1 else 0);
      EnqueueOneEffect(db, req, links[0], blacklist, stamps);
      if id in mid.jobs {
        NewRowAsAsked(db, req, links[0], blacklist, stamps, id);
        EnqueueFromEffect(mid, req, links[1..], used', blacklist, stamps);
        var l :| l in [links[0]] && Crawlable(l, blacklist) && StandsFor(mid.jobs[id], l);
        assert l in links;
      } else {
        AddedRows(mid, req, links[1..], used', blacklist, stamps, id);
        var j := EnqueueFrom(mid, req, links[1..], used', blacklist, stamps).jobs[id];
        var l :| l in links[1..] && Crawlable(l, blacklist) && StandsFor(j, l);
        assert l in links;
      }
    }
  }

  /** An origin that is new is that of an added row, and open from the moment the row was inserted. */
  predicate OpenedFor(db: Db, after: Db, stamps: nat -> Time, row: (string, OriginKey), id: nat) {
    && id in after.jobs && id !in db.jobs && OriginRow(after.jobs[id]) == row
    && row in after.origins && after.origins[row] == Origin(stamps(id), 0, 0)
  }

  lemma {:induction false} AddedOrigins(db: Db, req: EnqueueRequest, links: seq<Link>, used: int,
      blacklist: seq<string>, stamps: nat -> Time, row: (string, OriginKey))
    requires IdsBelow(db) && row !in db.origins
    requires row in EnqueueFrom(db, req, links, used, blacklist, stamps).origins
    ensures exists id :: OpenedFor(db, EnqueueFrom(db, req, links, used, blacklist, stamps), stamps, row, id)
    decreases |links|
  {
    if links != [] && used < Max(req.maxPages, 1) {
      var mid := EnqueueOne(db, req, links[0], blacklist, stamps);
      var used' := used + (if Accepts(db, req, links[0], blacklist) then 1 else 0);
      var after := EnqueueFrom(mid, req, links[1..], used', blacklist, stamps);
      EnqueueOneEffect(db, req, links[0], blacklist, stamps);
      EnqueueFromEffect(mid, req, links[1..], used', blacklist, stamps);
      if row in mid.origins {
        OriginOpened(db, req, links[0], blacklist, stamps, row);
        OpenedStays(db, mid, after, req, stamps, row, db.nextJob);
      } else {
        AddedOrigins(mid, req, links[1..], used', blacklist, stamps, row);
        var id :| OpenedFor(mid, after, stamps, row, id);
        OpenedLater(db, mid, after, req, stamps, row, id);
      }
    }
  }

  lemma OriginOpened(db: Db, req: EnqueueRequest, link: Link, blacklist: seq<string>, stamps: nat -> Time,
      row: (string, OriginKey))
    requires IdsBelow(db) && row !in db.origins && row in EnqueueOne(db, req, link, blacklist, stamps).origins
    ensures var mid := EnqueueOne(db, req, link, blacklist, stamps);
      OpenedFor(db, mid, stamps, row, db.nextJob) && mid.jobs[db.nextJob].status.Queued?
  {
  }

  lemma OpenedStays(db: Db, mid: Db, after: Db, req: EnqueueRequest, stamps: nat -> Time, row: (string, OriginKey),
      id: nat)
    requires OpenedFor(db, mid, stamps, row, id) && mid.jobs[id].status.Queued? && Enqueued(mid, after, req)
    ensures OpenedFor(db, after, stamps, row, id)
  {
  }

  lemma OpenedLater(db: Db, mid: Db, after: Db, req: EnqueueRequest, stamps: nat -> Time, row: (string, OriginKey),
      id: nat)
    requires OpenedFor(mid, after, stamps, row, id) && Enqueued(db, mid, req) && Enqueued(mid, after, req)
        && IdsBelow(db)
    ensures OpenedFor(db, after, stamps, row, id)
  {
  }

  // ---- nothing is passed over -------------------------------------------

  /** The owner has a row for the link, and, after a revisit, one still to be crawled. */
  ghost predicate Present(db: Db, req: EnqueueRequest, l: Link) {
    exists id :: id in db.jobs && RowPresent(db.jobs[id], req, l)
  }

  predicate RowPresent(j: Job, req: EnqueueRequest, l: Link) {
    && j.owner == req.owner && l.Some? && NormalizeUrl(l.value) == Some(j.url)
    && (req.allowRevisit ==> j.status in {Queued, Claimed, Ingesting})
  }

  lemma TakenIsPresent(db: Db, req: EnqueueRequest, link: Link, blacklist: seq<string>, stamps: nat -> Time)
    requires Crawlable(link, blacklist)
    ensures Present(EnqueueOne(db, req, link, blacklist, stamps), req, link)
  {
    AdmittedIff(link, blacklist);
    var n := Admitted(link, blacklist).value.0;
    var cleared, after := Prepared(db, req, n), EnqueueOne(db, req, link, blacklist, stamps);
    if id :| id in cleared.jobs && cleared.jobs[id].owner == req.owner && cleared.jobs[id].url == n {
      assert RowPresent(after.jobs[id], req, link);
    } else {
      assert RowPresent(after.jobs[db.nextJob], req, link);
    }
  }

  lemma PresentToTheEnd(db: Db, req: EnqueueRequest, links: seq<Link>, used: int, blacklist: seq<string>,
      stamps: nat -> Time, l: Link)
    requires IdsBelow(db) && Present(db, req, l)
    ensures Present(EnqueueFrom(db, req, links, used, blacklist, stamps), req, l)
  {
    var after := EnqueueFrom(db, req, links, used, blacklist, stamps);
    EnqueueFromEffect(db, req, links, used, blacklist, stamps);
    var id :| id in db.jobs && RowPresent(db.jobs[id], req, l);
    assert id in after.jobs && after.jobs[id] == db.jobs[id];
  }

  /** Either every link that may become a row has one, or the rows added have used up the budget. */
  lemma {:induction false} NonePassedOver(db: Db, req: EnqueueRequest, links: seq<Link>, used: int,
      blacklist: seq<string>, stamps: nat -> Time, l: Link)
    requires IdsBelow(db) && l in links && Crawlable(l, blacklist)
    ensures var after := EnqueueFrom(db, req, links, used, blacklist, stamps);
      Present(after, req, l) || used + after.nextJob - db.nextJob >= Max(req.maxPages, 1)
    decreases |links|
  {
    if used < Max(req.maxPages, 1) {
      var mid := EnqueueOne(db, req, links[0], blacklist, stamps);
      var used' := used + (if Accepts(db, req, links[0], blacklist) then 1 else 0);
      EnqueueOneEffect(db, req, links[0], blacklist, stamps);
      if l == links[0] {
        TakenIsPresent(db, req, l, blacklist, stamps);
        PresentToTheEnd(mid, req, links[1..], used', blacklist, stamps, l);
      } else {
        NonePassedOver(mid, req, links[1..], used', blacklist, stamps, l);
      }
    }
  }

  /** Links are taken in their order: if one that may become a row is left out, the rows added stand for earlier
      ones. */
  lemma {:induction false} EarlierFirst(db: Db, req: EnqueueRequest, links: seq<Link>, used: int,
      blacklist: seq<string>, stamps: nat -> Time, i: nat, id: nat)
    requires IdsBelow(db) && i < |links| && Crawlable(links[i], blacklist)
    requires !Present(EnqueueFrom(db, req, links, used, blacklist, stamps), req, links[i])
    requires id in EnqueueFrom(db, req, links, used, blacklist, stamps).jobs && id !in db.jobs
    ensures FromLinks(EnqueueFrom(db, req, links, used, blacklist, stamps).jobs[id], links[..i], blacklist)
    decreases |links|
  {
    assert used < Max(req.maxPages, 1);
    if i == 0 {
      FirstNotLeftOut(db, req, links, used, blacklist, stamps);
      assert false;
    }
    var mid := EnqueueOne(db, req, links[0], blacklist, stamps);
    var used' := used + (if Accepts(db, req, links[0], blacklist) then 1 else 0);
    EnqueueOneEffect(db, req, links[0], blacklist, stamps);
    assert links[1..][i - 1] == links[i];
    if id in mid.jobs {
      FirstRowStays(db, req, links, used, blacklist, stamps, id);
      MoreLinks(mid.jobs[id], [links[0]], links[..i], blacklist);
    } else {
      EarlierFirst(mid, req, links[1..], used', blacklist, stamps, i - 1, id);
      assert links[1..][..i - 1] == links[..i][1..];
      MoreLinks(EnqueueFrom(mid, req, links[1..], used', blacklist, stamps).jobs[id], links[1..][..i - 1], links[..i],
          blacklist);
    }
  }

  lemma MoreLinks(j: Job, few: seq<Link>, many: seq<Link>, blacklist: seq<string>)
    requires FromLinks(j, few, blacklist) && forall l <- few :: l in many
    ensures FromLinks(j, many, blacklist)
  {
  }

  lemma FirstRowStays(db: Db, req: EnqueueRequest, links: seq<Link>, used: int, blacklist: seq<string>,
      stamps: nat -> Time, id: nat)
    requires IdsBelow(db) && links != [] && used < Max(req.maxPages, 1)
    requires id in EnqueueOne(db, req, links[0], blacklist, stamps).jobs && id !in db.jobs
    requires id in EnqueueFrom(db, req, links, used, blacklist, stamps).jobs
    ensures var mid := EnqueueOne(db, req, links[0], blacklist, stamps);
      FromLinks(mid.jobs[id], [links[0]], blacklist)
      && EnqueueFrom(db, req, links, used, blacklist, stamps).jobs[id] == mid.jobs[id]
  {
    var mid := EnqueueOne(db, req, links[0], blacklist, stamps);
    NewRowAsAsked(db, req, links[0], blacklist, stamps, id);
    EnqueueOneEffect(db, req, links[0], blacklist, stamps);
    EnqueueFromEffect(mid, req, links[1..], used + (if Accepts(db, req, links[0], blacklist) then 1 else 0), blacklist,
        stamps);
  }

  lemma FirstNotLeftOut(db: Db, req: EnqueueRequest, links: seq<Link>, used: int, blacklist: seq<string>,
      stamps: nat -> Time)
    requires IdsBelow(db) && links != [] && Crawlable(links[0], blacklist) && used < Max(req.maxPages, 1)
    ensures Present(EnqueueFrom(db, req, links, used, blacklist, stamps), req, links[0])
  {
    TakenIsPresent(db, req, links[0], blacklist, stamps);
    EnqueueOneEffect(db, req, links[0], blacklist, stamps);
    PresentToTheEnd(EnqueueOne(db, req, links[0], blacklist, stamps), req, links[1..],
        used + (if Accepts(db, req, links[0], blacklist) then 1 else 0), blacklist, stamps, links[0]);
  }
}
