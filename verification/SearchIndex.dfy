/** The component that writes documents to the table and keeps the search index in step. */
module SearchIndex {
  import opened Wrappers
  import opened Urls
  import opened Catalog
  import opened Batches

  datatype IngestOutcome = IngestOutcome(accepted: nat, duplicates: nat, skipped: nat)

  /** The original picked for a document may be any one there is. */
  ghost predicate AllOriginals(b: Batch, docs: seq<Document>, originals: seq<Option<nat>>)
    requires |docs| == |originals|
  {
    forall i :: 0 <= i < |docs| && !docs[i].blank ==>
      IsOriginal(UpsertAll(b, docs[..i], originals[..i]).rows, docs[i], originals[i])
  }

  lemma OneMore(b: Batch, docs: seq<Document>, originals: seq<Option<nat>>, i: nat, original: Option<nat>)
    requires i < |docs| && |originals| == i && AllOriginals(b, docs[..i], originals)
    requires !docs[i].blank ==> IsOriginal(UpsertAll(b, docs[..i], originals).rows, docs[i], original)
    ensures AllOriginals(b, docs[..i + 1], originals + [original])
    ensures UpsertAll(b, docs[..i + 1], originals + [original])
         == UpsertOne(UpsertAll(b, docs[..i], originals), docs[i], original)
  {
    var more, most := docs[..i + 1], originals + [original];
    assert more[..i] == docs[..i] && most[..i] == originals;
    forall k | 0 <= k < |more| && !more[k].blank
      ensures IsOriginal(UpsertAll(b, more[..k], most[..k]).rows, more[k], most[k])
    {
      if k < i {
        assert more[..k] == docs[..i][..k] && most[..k] == originals[..k] && more[k] == docs[..i][k];
      }
    }
  }

  /** The state of a batch that started on the given table and index, after some of its documents, none of which was
      stopped by its url. */
  ghost predicate Progress(rows: Rows, index: Rows, docs: seq<Document>, originals: seq<Option<nat>>, b: Batch) {
    var k := |originals|;
    && k <= |docs|
    && BatchSoFar(rows, docs, originals, b)
    && Unique(b.rows)
    && (index == Primaries(rows) ==> Tracks(index, b))
    && TableAt(rows, docs, k, b.rows) && DeletesAt(rows, docs, k, b.toDelete)
    && NoneStops(rows, docs, k)
  }

  /** The batch is what its first documents made of the table, each with an original the database picked. */
  ghost predicate BatchSoFar(rows: Rows, docs: seq<Document>, originals: seq<Option<nat>>, b: Batch)
    requires |originals| <= |docs|
  {
    var start, done := Batch(rows, [], {}), docs[..|originals|];
    AllOriginals(start, done, originals) && b == UpsertAll(start, done, originals)
  }

  lemma BatchOneMore(rows: Rows, docs: seq<Document>, originals: seq<Option<nat>>, b: Batch, original: Option<nat>)
    requires |originals| < |docs| && BatchSoFar(rows, docs, originals, b)
    requires !docs[|originals|].blank ==> IsOriginal(b.rows, docs[|originals|], original)
    ensures BatchSoFar(rows, docs, originals + [original], UpsertOne(b, docs[|originals|], original))
  {
    OneMore(Batch(rows, [], {}), docs, originals, |originals|, original);
  }

  ghost predicate NoneStops(rows: Rows, docs: seq<Document>, k: nat)
    requires k <= |docs|
  {
    forall i :: 0 <= i < k ==> !Stops(rows, docs, i)
  }

  lemma ProgressStart(rows: Rows, index: Rows, docs: seq<Document>)
    requires Unique(rows)
    ensures Progress(rows, index, docs, [], Batch(rows, [], {}))
  {
    assert docs[..0] == [];
    TableStart(rows, docs);
    if index == Primaries(rows) {
      StartTracks(rows);
    }
  }

  lemma ProgressStep(rows: Rows, index: Rows, docs: seq<Document>, originals: seq<Option<nat>>, b: Batch,
      original: Option<nat>)
    requires Progress(rows, index, docs, originals, b) && |originals| < |docs| && !docs[|originals|].blank
    requires IsOriginal(b.rows, docs[|originals|], original) && !UrlTaken(b.rows, docs[|originals|])
    ensures Progress(rows, index, docs, originals + [original], UpsertOne(b, docs[|originals|], original))
    ensures original.None? <==> Prim(rows, docs, |originals|)
  {
    var k, d := |originals|, docs[|originals|];
    BatchOneMore(rows, docs, originals, b, original);
    PersistKeepsUnique(b.rows, d, original);
    if index == Primaries(rows) {
      UpsertOneTracks(index, b, d, original);
    }
    TurnStep(rows, docs, k, b, original);
  }

  lemma TurnStep(rows: Rows, docs: seq<Document>, k: nat, b: Batch, original: Option<nat>)
    requires k < |docs| && TableAt(rows, docs, k, b.rows) && DeletesAt(rows, docs, k, b.toDelete)
        && NoneStops(rows, docs, k)
    requires !docs[k].blank && IsOriginal(b.rows, docs[k], original) && !UrlTaken(b.rows, docs[k])
    ensures original.None? <==> Prim(rows, docs, k)
    ensures var after := UpsertOne(b, docs[k], original);
      TableAt(rows, docs, k + 1, after.rows) && DeletesAt(rows, docs, k + 1, after.toDelete)
          && NoneStops(rows, docs, k + 1)
  {
    StopsIff(rows, docs, k, b.rows);
    TableStep(rows, docs, k, b.rows, original);
    DeletesStep(rows, docs, k, b, original);
  }

  lemma ProgressSkip(rows: Rows, index: Rows, docs: seq<Document>, originals: seq<Option<nat>>, b: Batch,
      original: Option<nat>)
    requires Progress(rows, index, docs, originals, b) && |originals| < |docs| && docs[|originals|].blank
    ensures Progress(rows, index, docs, originals + [original], b)
  {
    var k := |originals|;
    BatchOneMore(rows, docs, originals, b, original);
    TableSkip(rows, docs, k, b.rows);
    DeletesSkip(rows, docs, k, b.toDelete);
  }

  /** The originals the database picks, and so the whole batch, follow from the table and the documents. */
  lemma {:induction false} BatchDetermined(rows: Rows, docs: seq<Document>, o1: seq<Option<nat>>, o2: seq<Option<nat>>,
      n: nat)
    requires Unique(rows) && n <= |docs| == |o1| == |o2|
    requires AllOriginals(Batch(rows, [], {}), docs, o1) && AllOriginals(Batch(rows, [], {}), docs, o2)
    ensures UpsertAll(Batch(rows, [], {}), docs[..n], o1[..n]) == UpsertAll(Batch(rows, [], {}), docs[..n], o2[..n])
    ensures Unique(UpsertAll(Batch(rows, [], {}), docs[..n], o1[..n]).rows)
    decreases n
  {
    if n > 0 {
      var start, i := Batch(rows, [], {}), n - 1;
      BatchDetermined(rows, docs, o1, o2, i);
      assert docs[..n][..i] == docs[..i] && o1[..n][..i] == o1[..i] && o2[..n][..i] == o2[..i];
      var b := UpsertAll(start, docs[..i], o1[..i]);
      if !docs[i].blank {
        OriginalIsUnique(b.rows, docs[i], o1[i], o2[i]);
        PersistKeepsUnique(b.rows, docs[i], o1[i]);
      }
    }
  }

  /** What the loop knows follows from the table, the documents and the originals picked, as long as no url stops it. */
  lemma {:induction false} ProgressHolds(rows: Rows, index: Rows, docs: seq<Document>, originals: seq<Option<nat>>)
    requires Unique(rows) && |originals| <= |docs|
    requires AllOriginals(Batch(rows, [], {}), docs[..|originals|], originals) && NoneStops(rows, docs, |originals|)
    ensures Progress(rows, index, docs, originals, UpsertAll(Batch(rows, [], {}), docs[..|originals|], originals))
    decreases |originals|
  {
    var start, n := Batch(rows, [], {}), |originals|;
    if n == 0 {
      ProgressStart(rows, index, docs);
    } else {
      var k, init := n - 1, originals[..n - 1];
      PrefixOriginals(start, docs, originals);
      ProgressHolds(rows, index, docs, init);
      var b := UpsertAll(start, docs[..k], init);
      assert originals == init + [originals[k]];
      OneMore(start, docs, init, k, originals[k]);
      if docs[k].blank {
        ProgressSkip(rows, index, docs, init, b, originals[k]);
      } else {
        StopsIff(rows, docs, k, b.rows);
        assert !Stops(rows, docs, k);
        ProgressStep(rows, index, docs, init, b, originals[k]);
      }
    }
  }

  /** All but the last of the originals picked are originals too, and so is the last. */
  lemma PrefixOriginals(start: Batch, docs: seq<Document>, originals: seq<Option<nat>>)
    requires 0 < |originals| <= |docs| && AllOriginals(start, docs[..|originals|], originals)
    ensures var k := |originals| - 1;
      && AllOriginals(start, docs[..k], originals[..k])
      && (!docs[k].blank ==> IsOriginal(UpsertAll(start, docs[..k], originals[..k]).rows, docs[k], originals[k]))
  {
    var n, k := |originals|, |originals| - 1;
    assert docs[..n][..k] == docs[..k];
    forall i | 0 <= i < k && !docs[i].blank
      ensures IsOriginal(UpsertAll(start, docs[..k][..i], originals[..k][..i]).rows, docs[..k][i], originals[..k][i])
    {
      assert docs[..k][..i] == docs[..n][..i] && originals[..k][..i] == originals[..i];
      assert docs[..n][i] == docs[i];
    }
  }

  /** A batch that starts in agreement and that no url stops agrees again exactly if it revives no id. */
  lemma FlushAgreesIffNoRevival(rows: Rows, index: Rows, docs: seq<Document>, originals: seq<Option<nat>>)
    requires Unique(rows) && index == Primaries(rows) && Completes(rows, docs)
    requires |originals| == |docs| && AllOriginals(Batch(rows, [], {}), docs, originals)
    ensures var b := UpsertAll(Batch(rows, [], {}), docs, originals);
      DeleteAll(IndexAll(index, b.toIndex), b.toDelete) == Primaries(b.rows) <==> !HasRevival(rows, docs)
  {
    assert docs[..|originals|] == docs;
    ProgressHolds(rows, index, docs, originals);
    FlushOutcome(rows, index, docs, originals, UpsertAll(Batch(rows, [], {}), docs, originals));
  }

  /** One that is stopped at document k leaves the index as it was, which agrees exactly if the primary rows are
      untouched. */
  lemma StopAgreesIffUntouched(rows: Rows, index: Rows, docs: seq<Document>, originals: seq<Option<nat>>, k: nat)
    requires Unique(rows) && index == Primaries(rows) && k < |docs| && NoneStops(rows, docs, k) && Stops(rows, docs, k)
    requires |originals| == k && AllOriginals(Batch(rows, [], {}), docs[..k], originals)
    ensures var b := UpsertAll(Batch(rows, [], {}), docs[..k], originals);
      index == Primaries(b.rows) <==> Untouched(rows, docs, k)
  {
    ProgressHolds(rows, index, docs, originals);
    StopOutcome(rows, index, docs, originals, UpsertAll(Batch(rows, [], {}), docs[..k], originals));
  }

  lemma FlushOutcome(rows: Rows, index: Rows, docs: seq<Document>, originals: seq<Option<nat>>, b: Batch)
    requires Progress(rows, index, docs, originals, b) && |originals| == |docs|
    ensures Completes(rows, docs)
    ensures index == Primaries(rows) ==>
              (DeleteAll(IndexAll(index, b.toIndex), b.toDelete) == Primaries(b.rows) <==> !HasRevival(rows, docs))
  {
    if index == Primaries(rows) {
      FlushAgreesIff(index, b);
      ClashIffRevival(rows, docs, b);
    }
  }

  lemma StopOutcome(rows: Rows, index: Rows, docs: seq<Document>, originals: seq<Option<nat>>, b: Batch)
    requires Progress(rows, index, docs, originals, b) && |originals| < |docs| && Stops(rows, docs, |originals|)
    ensures !Completes(rows, docs)
    ensures index == Primaries(rows) ==> (index == Primaries(b.rows) <==> Untouched(rows, docs, |originals|))
  {
    if index == Primaries(rows) {
      UntouchedIff(rows, docs, |originals|, b.rows);
    }
  }

  /** The document's row holds its columns, and of the other rows exactly the replaced ones went: the primary rows of
      its canonical url, unless it is a duplicate. */
  ghost predicate Written(rows: Rows, after: Rows, d: Document, original: Option<nat>, replaced: set<nat>) {
    && d.id in after && after[d.id].url == d.url && after[d.id].canonical == d.canonical
    && after[d.id].host == d.host && after[d.id].hash == d.hash
    && after[d.id].hasBlob && after[d.id].duplicateOf == original
    && (forall id <- rows :: id != d.id ==>
          (id in after <==> !(original.None? && rows[id].canonical == d.canonical && rows[id].duplicateOf.None?)))
    && (forall id <- after :: id != d.id ==> id in rows && after[id] == rows[id])
    && (forall id :: id in replaced <==> id in rows && id !in after)
  }

  class DocumentStore {
    var rows: Rows
    var index: Rows

    ghost predicate Valid()
      reads this
    {
      Unique(rows)
    }

    constructor ()
      ensures Valid() && rows == map[] && index == map[]
    {
      rows, index := map[], map[];
    }

    /** Writes one document's row; returns the rows it replaced, or None if its url is taken. */
    method PersistDocument(d: Document, original: Option<nat>) returns (replaced: Option<set<nat>>)
      modifies this`rows
      ensures replaced.None? <==> UrlTaken(old(rows), d)
      ensures replaced.None? ==> rows == old(rows)
      ensures replaced.Some? ==> rows == Persist(old(rows), d, original)
      ensures replaced.Some? ==> replaced.value == if original.Some? then {} else Replaced(old(rows), d)
      ensures replaced.Some? ==> Written(old(rows), rows, d, original, replaced.value)
    {
      if exists id :: id in rows && id != d.id && rows[id].url == d.url {
        return None;
      }
      rows := rows[d.id := Row(d.url, d.canonical, d.host, d.hash, true, original)];
      var gone: set<nat> := {};
      if original.None? {
        gone := set id | id in rows && rows[id].canonical == d.canonical && id != d.id && rows[id].duplicateOf.None?;
        assert gone == Replaced(old(rows), d);
        rows := map id | id in rows && id !in gone :: rows[id];
      }
      replaced := Some(gone);
    }

    /** Some primary row with the document's content hash, other than its own. */
    method FindOriginal(d: Document) returns (original: Option<nat>)
      ensures IsOriginal(rows, d, original)
    {
      var same := set id | id in rows && rows[id].hash == d.hash && id != d.id && rows[id].duplicateOf.None?;
      assert same == Originals(rows, d);
      if same == {} {
        return None;
      }
      var some :| some in same;
      original := Some(some);
    }

    /** Index writes, in order. */
    method BulkIndex(entries: seq<(nat, Row)>)
      modifies this`index
      ensures index == IndexAll(old(index), entries)
    {
      var i := 0;
      while i < |entries|
        invariant 0 <= i <= |entries| && index == IndexAll(old(index), entries[..i])
      {
        index := index[entries[i].0 := entries[i].1];
        assert entries[..i + 1][..i] == entries[..i];
        i := i + 1;
      }
      assert entries[..i] == entries;
    }

    /** Takes one document that is not blank: writes its row and notes what the index needs. */
    method TakeDocument(d: Document, toIndex: seq<(nat, Row)>, toDelete: set<nat>)
      returns (ok: bool, duplicate: bool, toIndex': seq<(nat, Row)>, toDelete': set<nat>, ghost original: Option<nat>)
      requires !d.blank
      modifies this`rows
      ensures IsOriginal(old(rows), d, original)
      ensures ok <==> !UrlTaken(old(rows), d)
      ensures !ok ==> rows == old(rows) && toIndex' == toIndex && toDelete' == toDelete
      ensures ok ==> Batch(rows, toIndex', toDelete') == UpsertOne(Batch(old(rows), toIndex, toDelete), d, original)
      ensures ok ==> (duplicate <==> Originals(old(rows), d) != {})
    {
      toIndex', toDelete' := toIndex, toDelete;
      var some := FindOriginal(d);
      original, duplicate := some, some.Some?;
      var replaced := PersistDocument(d, some);
      if replaced.None? {
        ok := false;
        return;
      }
      if duplicate {
        toDelete' := toDelete' + {d.id};
      } else {
        toIndex' := toIndex' + [(d.id, Row(d.url, d.canonical, d.host, d.hash, true, None))];
      }
      toDelete' := toDelete' + replaced.value;
      ok := true;
    }

    /** Writes a list of documents to the table, then brings the index up to date with two bulk requests. A taken url
        ends the batch at once, before any index write. `batch` is the state of its lists when the table writes end,
        after |originals| documents. */
    method UpsertDocuments(docs: seq<Document>)
      returns (outcome: Option<IngestOutcome>, ghost batch: Batch, ghost originals: seq<Option<nat>>)
      requires Valid()
      modifies this
      ensures Valid() && rows == batch.rows && Progress(old(rows), old(index), docs, originals, batch)
      ensures outcome.Some? <==> Completes(old(rows), docs)
      ensures outcome.Some? ==> |originals| == |docs| && outcome.value.accepted + outcome.value.skipped == |docs|
                                && outcome.value.duplicates == Duplicates(old(rows), docs, |docs|)
      ensures outcome.Some? ==> index == DeleteAll(IndexAll(old(index), batch.toIndex), batch.toDelete)
      ensures outcome.None? ==> |originals| < |docs| && Stops(old(rows), docs, |originals|) && index == old(index)
      ensures outcome.Some? && old(index) == Primaries(old(rows)) ==>
                (index == Primaries(rows) <==> !HasRevival(old(rows), docs))
      ensures outcome.None? && old(index) == Primaries(old(rows)) ==>
                (index == Primaries(rows) <==> Untouched(old(rows), docs, |originals|))
    {
      var ok, counts, toIndex, toDelete;
      ok, counts, toIndex, toDelete, originals := WriteDocuments(docs);
      batch := Batch(rows, toIndex, toDelete);
      if !ok {
        StopOutcome(old(rows), old(index), docs, originals, batch);
        return None, batch, originals;
      }
      BulkIndex(toIndex);
      index := map id | id in index && id !in toDelete :: index[id];
      FlushOutcome(old(rows), old(index), docs, originals, batch);
      outcome := Some(counts);
    }

    /** Writes documents to the table until one is stopped by its url, noting what the index needs. */
    method WriteDocuments(docs: seq<Document>)
      returns (ok: bool, counts: IngestOutcome, toIndex: seq<(nat, Row)>, toDelete: set<nat>,
          ghost originals: seq<Option<nat>>)
      requires Valid()
      modifies this`rows
      ensures Progress(old(rows), index, docs, originals, Batch(rows, toIndex, toDelete))
      ensures if ok then |originals| == |docs| else |originals| < |docs| && Stops(old(rows), docs, |originals|)
      ensures counts.accepted + counts.skipped == |originals|
          && counts.duplicates == Duplicates(old(rows), docs, |originals|)
    {
      var accepted: nat, duplicates: nat, skipped: nat := 0, 0, 0;
      toIndex, toDelete, originals := [], {}, [];
      ProgressStart(rows, index, docs);
      for i := 0 to |docs|
        invariant |originals| == i
        invariant Progress(old(rows), index, docs, originals, Batch(rows, toIndex, toDelete))
        invariant accepted + skipped == i && duplicates == Duplicates(old(rows), docs, i)
      {
        if docs[i].blank {
          skipped := skipped + 1;
          ProgressSkip(old(rows), index, docs, originals, Batch(rows, toIndex, toDelete), None);
          originals := originals + [None];
          continue;
        }
        ghost var original, before := None, Batch(rows, toIndex, toDelete);
        StopsIff(old(rows), docs, i, rows);
        var taken, duplicate;
        taken, duplicate, toIndex, toDelete, original := TakeDocument(docs[i], toIndex, toDelete);
        if !taken {
          return false, IngestOutcome(accepted, duplicates, skipped), toIndex, toDelete, originals;
        }
        ProgressStep(old(rows), index, docs, originals, before, original);
        originals := originals + [original];
        accepted := accepted + 1;
        duplicates := duplicates + (if duplicate then 1 else 0);
      }
      return true, IngestOutcome(accepted, duplicates, skipped), toIndex, toDelete, originals;
    }

    /** The import of a document file into an empty table and index. It ends in agreement exactly if no url stops it;
        different urls are enough for that. */
    method Import(docs: seq<Document>) returns (outcome: Option<IngestOutcome>)
      requires Valid() && rows == map[] && index == map[] && DistinctIds(docs)
      modifies this
      ensures Valid()
      ensures index == Primaries(rows) <==> Completes(map[], docs)
      ensures outcome.Some? <==> Completes(map[], docs)
      ensures NewUrls(map[], docs) ==> outcome.Some? && index == Primaries(rows)
    {
      ghost var batch, originals;
      outcome, batch, originals := UpsertDocuments(docs);
      NewIdsNoRevival(map[], docs);
      if outcome.None? {
        StoppedImportDisagrees(docs, |originals|);
      }
      if NewUrls(map[], docs) {
        NewUrlsComplete(map[], docs);
      }
    }

    method DeleteDocument(id: nat) returns (deleted: bool)
      modifies this
      ensures Store(rows, index) == Do(Store(old(rows), old(index)), DeleteDoc(id))
      ensures deleted <==> id in old(rows)
      ensures rows == old(rows) - {id} && (deleted ==> index == old(index) - {id})
    {
      deleted := id in rows;
      rows := rows - {id};
      if deleted {
        index := map k | k in index && k != id :: index[k];
      }
    }

    method PurgeSite(site: string) returns (deleted: nat)
      modifies this
      ensures Store(rows, index) == Do(Store(old(rows), old(index)), Op.PurgeSite(site))
      ensures forall id <- old(rows) :: id in rows <==> !OnDomain(old(rows)[id].host, site)
      ensures forall id <- old(index) :: id in index <==> id !in old(rows) || id in rows
      ensures (forall id <- rows :: id in old(rows) && rows[id] == old(rows)[id])
           && (forall id <- index :: id in old(index) && index[id] == old(index)[id])
      ensures deleted == |old(rows)| - |rows|
    {
      OnSiteIff(rows, site);
      var gone := set id | id in rows && HostMatchesScope(rows[id].host, site, SameDomain);
      assert gone == OnSite(rows, site);
      deleted := |gone|;
      rows := rows - gone;
      RowsLeft(old(rows), gone);
      if gone != {} {
        index := map k | k in index && k !in gone :: index[k];
      }
    }

    // ---- rebuilding the index -------------------------------------------

    /** One keyset page: the first `limit` of the given ids that lie above `last`, in ascending order. `next` is where
        the following page starts. */
    method SelectPage(ids: set<nat>, last: Option<nat>, limit: nat) returns (page: seq<nat>, next: Option<nat>)
      ensures |page| == Min(limit, |Above(ids, last)|)
      ensures PageOk(ids, last, page, next)
    {
      page, next := [], last;
      var rest := Above(ids, last);
      while |page| < limit && rest != {}
        invariant rest == Above(ids, next) && |page| <= limit
        invariant PageOk(ids, last, page, next)
        decreases |rest|
      {
        ghost var some := Least(rest);
        var id :| IsLeast(rest, id);
        PageStep(ids, last, page, next, id);
        page, rest, next := page + [id], rest - {id}, Some(id);
      }
    }

    /** Indexes one page, unless one of its rows has no blob. */
    method IndexPage(page: seq<nat>) returns (ok: bool)
      requires forall id <- page :: id in rows
      modifies this`index
      ensures ok <==> forall id <- page :: rows[id].hasBlob
      ensures index == if ok then IndexAll(old(index), Entries(rows, page)) else old(index)
    {
      if exists id <- page :: !rows[id].hasBlob {
        return false;
      }
      BulkIndex(Entries(rows, page));
      ok := true;
    }

    /** Indexes page after page until none is left or a blob is missing. */
    method IndexAllPages(ids: set<nat>, batchSize: nat) returns (ok: bool, count: nat, ghost written: seq<nat>)
      requires forall id <- ids :: id in rows
      modifies this`index
      ensures written <= Sorted(ids) && count == |written| && (forall id <- written :: id in rows)
      ensures index == IndexAll(old(index), Entries(rows, written))
      ensures ok ==> written == Sorted(ids) && forall id <- written :: rows[id].hasBlob
      ensures !ok ==> exists id <- ids :: !rows[id].hasBlob
    {
      written, count := [], 0;
      var last: Option<nat> := None;
      assert Above(ids, None) == ids;
      while true
        invariant written + Sorted(Above(ids, last)) == Sorted(ids)
        invariant count == |written| && forall id <- written :: id in rows && rows[id].hasBlob
        invariant index == IndexAll(old(index), Entries(rows, written))
        decreases |Above(ids, last)|
      {
        ghost var before := last;
        var page;
        page, last := SelectPage(ids, last, Max(batchSize, 1));
        if page == [] {
          NothingAbove(ids, last);
          return true, count, written;
        }
        var indexed := IndexPage(page);
        if !indexed {
          return false, count, written;
        }
        EntriesAdd(rows, old(index), written, page);
        AppendPage(written, page, Sorted(Above(ids, last)), Sorted(Above(ids, before)));
        count := count + |page|;
        written := written + page;
      }
    }

    /** Writes the primary rows back to an index that holds fewer documents, page by page. None if a row has no blob. */
    method ReindexExisting(batchSize: nat) returns (reindexed: Option<nat>, ghost written: seq<nat>)
      modifies this`index
      ensures |Primaries(rows)| == 0 || |old(index)| >= |Primaries(rows)| ==>
                reindexed == Some(0) && written == [] && index == old(index)
      ensures |old(index)| < |Primaries(rows)| ==>
                && written <= Sorted(Primaries(rows).Keys) && (forall id <- written :: id in rows)
                && index == IndexAll(old(index), Entries(rows, written))
                && (reindexed.Some? <==> forall id <- Primaries(rows) :: rows[id].hasBlob)
                && (reindexed.Some? ==> written == Sorted(Primaries(rows).Keys) && reindexed.value == |Primaries(rows)|)
    {
      var primaries := Primaries(rows);
      if |primaries| == 0 || |index| >= |primaries| {
        return Some(0), [];
      }
      var ok, count;
      ok, count, written := IndexAllPages(primaries.Keys, batchSize);
      SortedIsAscending(primaries.Keys);
      reindexed := if ok then Some(count) else None;
    }
  }

  /** A page holds ids in ascending order from `last` on, and those from `next` on follow it. */
  ghost predicate PageOk(ids: set<nat>, last: Option<nat>, page: seq<nat>, next: Option<nat>) {
    && page + Sorted(Above(ids, next)) == Sorted(Above(ids, last))
    && |page| + |Above(ids, next)| == |Above(ids, last)|
    && (forall id <- page :: id in ids)
    && (if page == [] then next == last else next == Some(page[|page| - 1]))
  }

  lemma PageStep(ids: set<nat>, last: Option<nat>, page: seq<nat>, next: Option<nat>, id: nat)
    requires PageOk(ids, last, page, next) && IsLeast(Above(ids, next), id)
    ensures Above(ids, Some(id)) == Above(ids, next) - {id}
    ensures PageOk(ids, last, page + [id], Some(id))
  {
    LeastIsNext(ids, next, id);
    ExtendPage(page, id, Sorted(Above(ids, Some(id))));
  }

  lemma NothingAbove(ids: set<nat>, last: Option<nat>)
    requires |Above(ids, last)| == 0
    ensures Sorted(Above(ids, last)) == []
  {
  }

  lemma AppendPage(written: seq<nat>, page: seq<nat>, rest: seq<nat>, before: seq<nat>)
    requires page + rest == before
    ensures written + page + rest == written + before
  {
  }

  lemma ExtendPage(page: seq<nat>, id: nat, rest: seq<nat>)
    ensures page + [id] + rest == page + ([id] + rest)
  {
  }

  /** The least id above a mark comes next; what is above it is the rest. */
  lemma LeastIsNext(ids: set<nat>, last: Option<nat>, id: nat)
    requires IsLeast(Above(ids, last), id)
    ensures Above(ids, Some(id)) == Above(ids, last) - {id}
    ensures Sorted(Above(ids, last)) == [id] + Sorted(Above(ids, last) - {id})
  {
    assert Least(Above(ids, last)) == id;
  }

  lemma OnSiteIff(rows: Rows, site: string)
    ensures forall id <- rows :: id in OnSite(rows, site) <==> OnDomain(rows[id].host, site)
  {
    forall id | id in rows
      ensures id in OnSite(rows, site) <==> OnDomain(rows[id].host, site)
    {
      HostMatchesIff(rows[id].host, site, SameDomain);
    }
  }

  lemma RowsLeft(rows: Rows, gone: set<nat>)
    requires gone <= rows.Keys
    ensures |rows - gone| == |rows| - |gone|
  {
    assert (rows - gone).Keys == rows.Keys - gone;
    assert |(rows - gone).Keys| == |rows - gone|;
  }

  /** The index entries for a list of ids. */
  function Entries(rows: Rows, ids: seq<nat>): seq<(nat, Row)>
    requires forall id <- ids :: id in rows
  {
    seq(|ids|, i requires 0 <= i < |ids| => (ids[i], rows[ids[i]]))
  }

  lemma {:induction false} IndexAllAppend(index: Rows, a: seq<(nat, Row)>, b: seq<(nat, Row)>)
    ensures IndexAll(index, a + b) == IndexAll(IndexAll(index, a), b)
    decreases |b|
  {
    if b == [] {
      assert a + b == a;
    } else {
      assert (a + b)[..|a + b| - 1] == a + b[..|b| - 1];
      IndexAllAppend(index, a, b[..|b| - 1]);
    }
  }

  lemma EntriesAdd(rows: Rows, index: Rows, written: seq<nat>, page: seq<nat>)
    requires forall id <- written + page :: id in rows
    ensures IndexAll(index, Entries(rows, written + page))
        == IndexAll(IndexAll(index, Entries(rows, written)), Entries(rows, page))
  {
    assert Entries(rows, written + page) == Entries(rows, written) + Entries(rows, page);
    IndexAllAppend(index, Entries(rows, written), Entries(rows, page));
  }

  lemma {:induction false} EntriesShown(rows: Rows, index: Rows, ids: seq<nat>, id: nat)
    requires forall k <- ids :: k in rows
    ensures var shown := IndexAll(index, Entries(rows, ids));
      (id in shown <==> id in index || id in ids)
          && (id in shown ==> shown[id] == if id in ids then rows[id] else index[id])
  {
    if ids != [] {
      var init := ids[..|ids| - 1];
      assert Entries(rows, ids)[..|ids| - 1] == Entries(rows, init);
      assert ids == init + [ids[|ids| - 1]];
      EntriesShown(rows, index, init, id);
    }
  }

  predicate Overlaid(index: Rows, primaries: Rows, rebuilt: Rows, id: nat) {
    (id in rebuilt <==> id in index || id in primaries) && (id in primaries ==> rebuilt[id] == primaries[id])
  }

  lemma OverlayEqualsIff(index: Rows, primaries: Rows, rebuilt: Rows)
    requires forall id :: Overlaid(index, primaries, rebuilt, id)
    ensures rebuilt == primaries <==> index.Keys <= primaries.Keys
  {
    forall id
      ensures id in rebuilt <==> id in index || id in primaries
      ensures id in primaries ==> rebuilt[id] == primaries[id]
    {
      assert Overlaid(index, primaries, rebuilt, id);
    }
    if index.Keys <= primaries.Keys {
      assert rebuilt.Keys == primaries.Keys;
    }
  }

  /** A complete rebuild leaves the index equal to the primary rows if and only if it held no other ids before. */
  lemma RebuildAgreesIff(rows: Rows, index: Rows)
    ensures forall id <- Sorted(Primaries(rows).Keys) :: id in rows
    ensures IndexAll(index, Entries(rows, Sorted(Primaries(rows).Keys))) == Primaries(rows)
       <==> index.Keys <= Primaries(rows).Keys
  {
    var ids := Sorted(Primaries(rows).Keys);
    SortedIsAscending(Primaries(rows).Keys);
    forall id
      ensures Overlaid(index, Primaries(rows), IndexAll(index, Entries(rows, ids)), id)
    {
      EntriesShown(rows, index, ids, id);
    }
    OverlayEqualsIff(index, Primaries(rows), IndexAll(index, Entries(rows, ids)));
  }

  // ---- a batch that ends in disagreement --------------------------------

  /** A row that is replaced and then written again in one batch ends up primary but not indexed. */
  lemma RevivedRowIsLost(d1: Document, d2: Document, d1again: Document)
    requires !d1.blank && !d2.blank && !d1again.blank && d1.id != d2.id && d1again.id == d1.id
    requires d1.canonical == d2.canonical != d1again.canonical
    requires d1.hash != d2.hash && d2.hash != d1again.hash
    ensures var rows := map[d1.id := RowOf(d1, None)];
      var b := UpsertAll(Batch(rows, [], {}), [d2, d1again], [None, None]);
      && AllOriginals(Batch(rows, [], {}), [d2, d1again], [None, None])
      && IsPrimary(b.rows, d1.id)
      && d1.id !in DeleteAll(IndexAll(Primaries(rows), b.toIndex), b.toDelete)
  {
    var rows := map[d1.id := RowOf(d1, None)];
    var start := Batch(rows, [], {});
    var b1 := UpsertOne(start, d2, None);
    assert Originals(rows, d2) == {} && Replaced(rows, d2) == {d1.id};
    assert b1.rows == map[d2.id := RowOf(d2, None)] && b1.toDelete == {d1.id};
    assert Originals(b1.rows, d1again) == {} && Replaced(b1.rows, d1again) == {};
    var docs: seq<Document>, originals: seq<Option<nat>> := [d2, d1again], [None, None];
    assert docs[..0] == [] && originals[..0] == [] && docs[..1] == [d2] && originals[..1] == [None];
    assert UpsertAll(start, [], []) == start;
    assert UpsertAll(start, [d2], [None]) == b1 by {
      assert [d2][..0] == [] && originals[..1][..0] == [];
    }
  }
}
