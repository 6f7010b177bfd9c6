/** What a batch of documents does, said of the table and the documents alone: which document is taken up as a primary,
    which rows are still there at a later turn, when a url stops the batch, and when the index ends in agreement. */
module Batches {
  import opened Wrappers
  import opened Urls
  import opened Catalog

  // ---- turns ------------------------------------------------------------

  /** Document i is taken up as a primary: no other primary row that is there at its turn has its content hash. */
  ghost predicate Prim(rows: Rows, docs: seq<Document>, i: nat)
    requires i < |docs|
    decreases i, 1
  {
    && !docs[i].blank
    && (forall j | 0 <= j < i :: NewAlive(rows, docs, j, i) && Prim(rows, docs, j) && docs[j].id != docs[i].id
          ==> docs[j].hash != docs[i].hash)
    && (forall x | x in rows :: OldAlive(rows, docs, x, i) && rows[x].duplicateOf.None? && x != docs[i].id
          ==> rows[x].hash != docs[i].hash)
  }

  /** A primary row of this canonical url has to make room for document m. */
  ghost predicate MakesRoom(rows: Rows, docs: seq<Document>, m: nat, canonical: string)
    requires m < |docs|
    decreases m, 2
  {
    Prim(rows, docs, m) && docs[m].canonical == canonical
  }

  /** The row that document j wrote is still there when it is document k's turn: no later one wrote the same id, or, if
      it is a primary row, took its place. */
  ghost predicate NewAlive(rows: Rows, docs: seq<Document>, j: nat, k: nat)
    requires j < k <= |docs|
    decreases k, 0
  {
    !docs[j].blank && forall m | j < m < k && !docs[m].blank ::
      docs[m].id != docs[j].id && !(Prim(rows, docs, j) && MakesRoom(rows, docs, m, docs[j].canonical))
  }

  /** A row of the table the batch started on is still there when it is document k's turn. */
  ghost predicate OldAlive(rows: Rows, docs: seq<Document>, x: nat, k: nat)
    requires x in rows && k <= |docs|
    decreases k, 0
  {
    forall m | 0 <= m < k && !docs[m].blank ::
      docs[m].id != x && !(rows[x].duplicateOf.None? && MakesRoom(rows, docs, m, rows[x].canonical))
  }

  /** Whether a row survives document k's turn. */
  ghost predicate NewSurvives(rows: Rows, docs: seq<Document>, j: nat, k: nat)
    requires j < k < |docs|
  {
    docs[k].blank || (docs[k].id != docs[j].id && !(Prim(rows, docs, j) && MakesRoom(rows, docs, k, docs[j].canonical)))
  }

  ghost predicate OldSurvives(rows: Rows, docs: seq<Document>, x: nat, k: nat)
    requires x in rows && k < |docs|
  {
    docs[k].blank || (docs[k].id != x && !(rows[x].duplicateOf.None? && MakesRoom(rows, docs, k, rows[x].canonical)))
  }

  lemma NewAliveStep(rows: Rows, docs: seq<Document>, j: nat, k: nat)
    requires j < k < |docs|
    ensures NewAlive(rows, docs, j, k + 1) <==> NewAlive(rows, docs, j, k) && NewSurvives(rows, docs, j, k)
  {
  }

  lemma OldAliveStep(rows: Rows, docs: seq<Document>, x: nat, k: nat)
    requires x in rows && k < |docs|
    ensures OldAlive(rows, docs, x, k + 1) <==> OldAlive(rows, docs, x, k) && OldSurvives(rows, docs, x, k)
  {
  }

  // ---- the table they make ----------------------------------------------

  predicate Shows(t: Rows, d: Document, prim: bool) {
    d.id in t && t[d.id].(duplicateOf := None) == RowOf(d, None) && (t[d.id].duplicateOf.None? <==> prim)
  }

  ghost predicate NewShown(rows: Rows, docs: seq<Document>, k: nat, t: Rows, j: nat)
    requires j < k <= |docs|
  {
    NewAlive(rows, docs, j, k) ==> Shows(t, docs[j], Prim(rows, docs, j))
  }

  ghost predicate OldShown(rows: Rows, docs: seq<Document>, k: nat, t: Rows, x: nat)
    requires x in rows && k <= |docs|
  {
    OldAlive(rows, docs, x, k) ==> x in t && t[x] == rows[x]
  }

  /** A row is an old one that is still there, or was written by a document and is still there. */
  ghost predicate HasSource(rows: Rows, docs: seq<Document>, k: nat, id: nat)
    requires k <= |docs|
  {
    (id in rows && OldAlive(rows, docs, id, k)) || exists j :: 0 <= j < k && WroteAlive(rows, docs, j, k, id)
  }

  ghost predicate WroteAlive(rows: Rows, docs: seq<Document>, j: nat, k: nat, id: nat)
    requires j < k <= |docs|
  {
    docs[j].id == id && NewAlive(rows, docs, j, k)
  }

  /** The table when it is document k's turn. */
  ghost predicate TableAt(rows: Rows, docs: seq<Document>, k: nat, t: Rows)
    requires k <= |docs|
  {
    && (forall j :: 0 <= j < k ==> NewShown(rows, docs, k, t, j))
    && (forall x <- rows :: OldShown(rows, docs, k, t, x))
    && (forall id <- t :: HasSource(rows, docs, k, id))
  }

  lemma TableStart(rows: Rows, docs: seq<Document>)
    ensures TableAt(rows, docs, 0, rows)
  {
  }

  /** A document finds no original in the table exactly if it is taken up as a primary. */
  lemma PrimIff(rows: Rows, docs: seq<Document>, k: nat, t: Rows)
    requires k < |docs| && TableAt(rows, docs, k, t) && !docs[k].blank
    ensures Originals(t, docs[k]) == {} <==> Prim(rows, docs, k)
  {
    var d := docs[k];
    if Prim(rows, docs, k) {
      forall id | id in t && id != d.id && t[id].hash == d.hash
        ensures t[id].duplicateOf.Some?
      {
        assert HasSource(rows, docs, k, id);
        if id in rows && OldAlive(rows, docs, id, k) {
          assert OldShown(rows, docs, k, t, id);
        } else {
          var j :| 0 <= j < k && WroteAlive(rows, docs, j, k, id);
          assert NewShown(rows, docs, k, t, j);
        }
      }
    } else if j :|
      0 <= j < k && NewAlive(rows, docs, j, k) && Prim(rows, docs, j) && docs[j].id != d.id && docs[j].hash == d.hash {
      assert NewShown(rows, docs, k, t, j);
      assert docs[j].id in Originals(t, d);
    } else {
      var x :| x in rows && OldAlive(rows, docs, x, k) && rows[x].duplicateOf.None? && x != d.id
          && rows[x].hash == d.hash;
      assert OldShown(rows, docs, k, t, x);
      assert x in Originals(t, d);
    }
  }

  lemma NewShownStep(rows: Rows, docs: seq<Document>, k: nat, t: Rows, original: Option<nat>, j: nat)
    requires j < k < |docs| && NewShown(rows, docs, k, t, j) && !docs[k].blank
    requires original.None? <==> Prim(rows, docs, k)
    ensures NewShown(rows, docs, k + 1, Persist(t, docs[k], original), j)
  {
    NewAliveStep(rows, docs, j, k);
  }

  lemma OldShownStep(rows: Rows, docs: seq<Document>, k: nat, t: Rows, original: Option<nat>, x: nat)
    requires x in rows && k < |docs| && OldShown(rows, docs, k, t, x) && !docs[k].blank
    requires original.None? <==> Prim(rows, docs, k)
    ensures OldShown(rows, docs, k + 1, Persist(t, docs[k], original), x)
  {
    OldAliveStep(rows, docs, x, k);
  }

  lemma WrittenShown(rows: Rows, docs: seq<Document>, k: nat, t: Rows, original: Option<nat>)
    requires k < |docs| && !docs[k].blank && (original.None? <==> Prim(rows, docs, k))
    ensures NewShown(rows, docs, k + 1, Persist(t, docs[k], original), k)
  {
  }

  lemma NewRowsStep(rows: Rows, docs: seq<Document>, k: nat, t: Rows, original: Option<nat>, next: nat)
    requires k < |docs| && TableAt(rows, docs, k, t) && !docs[k].blank && next == k + 1
    requires original.None? <==> Prim(rows, docs, k)
    ensures forall j :: 0 <= j < next ==> NewShown(rows, docs, next, Persist(t, docs[k], original), j)
  {
    forall j | 0 <= j < next
      ensures NewShown(rows, docs, next, Persist(t, docs[k], original), j)
    {
      NewRowStep(rows, docs, k, t, original, j);
    }
  }

  lemma NewRowStep(rows: Rows, docs: seq<Document>, k: nat, t: Rows, original: Option<nat>, j: nat)
    requires k < |docs| && j <= k && TableAt(rows, docs, k, t) && !docs[k].blank
    requires original.None? <==> Prim(rows, docs, k)
    ensures NewShown(rows, docs, k + 1, Persist(t, docs[k], original), j)
  {
    if j < k {
      assert NewShown(rows, docs, k, t, j);
      NewShownStep(rows, docs, k, t, original, j);
    } else {
      WrittenShown(rows, docs, k, t, original);
    }
  }

  lemma OldRowsStep(rows: Rows, docs: seq<Document>, k: nat, t: Rows, original: Option<nat>, next: nat)
    requires k < |docs| && TableAt(rows, docs, k, t) && !docs[k].blank && next == k + 1
    requires original.None? <==> Prim(rows, docs, k)
    ensures forall x <- rows :: OldShown(rows, docs, next, Persist(t, docs[k], original), x)
  {
    forall x | x in rows
      ensures OldShown(rows, docs, next, Persist(t, docs[k], original), x)
    {
      assert OldShown(rows, docs, k, t, x);
      OldShownStep(rows, docs, k, t, original, x);
    }
  }

  /** A turn's writes lead from the table at the turn to the one at the next. */
  lemma TableStep(rows: Rows, docs: seq<Document>, k: nat, t: Rows, original: Option<nat>)
    requires k < |docs| && TableAt(rows, docs, k, t) && !docs[k].blank && IsOriginal(t, docs[k], original)
    ensures original.None? <==> Prim(rows, docs, k)
    ensures TableAt(rows, docs, k + 1, Persist(t, docs[k], original))
  {
    PrimIff(rows, docs, k, t);
    NewRowsStep(rows, docs, k, t, original, k + 1);
    OldRowsStep(rows, docs, k, t, original, k + 1);
    forall id | id in Persist(t, docs[k], original)
      ensures HasSource(rows, docs, k + 1, id)
    {
      SourceStep(rows, docs, k, t, original, id);
    }
  }

  lemma SourceStep(rows: Rows, docs: seq<Document>, k: nat, t: Rows, original: Option<nat>, id: nat)
    requires k < |docs| && TableAt(rows, docs, k, t) && !docs[k].blank && IsOriginal(t, docs[k], original)
    requires original.None? <==> Prim(rows, docs, k)
    requires id in Persist(t, docs[k], original)
    ensures HasSource(rows, docs, k + 1, id)
  {
    if id == docs[k].id {
      assert WroteAlive(rows, docs, k, k + 1, id);
    } else {
      assert id in t && HasSource(rows, docs, k, id);
      if id in rows && OldAlive(rows, docs, id, k) {
        assert OldShown(rows, docs, k, t, id);
        OldAliveStep(rows, docs, id, k);
      } else {
        var j :| 0 <= j < k && WroteAlive(rows, docs, j, k, id);
        assert NewShown(rows, docs, k, t, j);
        NewAliveStep(rows, docs, j, k);
        assert WroteAlive(rows, docs, j, k + 1, id);
      }
    }
  }

  lemma TableSkip(rows: Rows, docs: seq<Document>, k: nat, t: Rows)
    requires k < |docs| && TableAt(rows, docs, k, t) && docs[k].blank
    ensures TableAt(rows, docs, k + 1, t)
  {
    var next := k + 1;
    forall j | 0 <= j < next
      ensures NewShown(rows, docs, next, t, j)
    {
      if j < k {
        NewAliveStep(rows, docs, j, k);
        assert NewShown(rows, docs, k, t, j);
      }
    }
    forall x | x in rows
      ensures OldShown(rows, docs, k + 1, t, x)
    {
      OldAliveStep(rows, docs, x, k);
      assert OldShown(rows, docs, k, t, x);
    }
    forall id | id in t
      ensures HasSource(rows, docs, k + 1, id)
    {
      assert HasSource(rows, docs, k, id);
      if id in rows && OldAlive(rows, docs, id, k) {
        OldAliveStep(rows, docs, id, k);
      } else {
        var j :| 0 <= j < k && WroteAlive(rows, docs, j, k, id);
        NewAliveStep(rows, docs, j, k);
        assert WroteAlive(rows, docs, j, k + 1, id);
      }
    }
  }

  // ---- when a url stops the batch ---------------------------------------

  /** The url of document k belongs to another row that is there at its turn. */
  ghost predicate Stops(rows: Rows, docs: seq<Document>, k: nat)
    requires k < |docs|
  {
    !docs[k].blank &&
    ((exists j :: 0 <= j < k && NewAlive(rows, docs, j, k) && docs[j].id != docs[k].id && docs[j].url == docs[k].url)
     || (exists x :: x in rows && OldAlive(rows, docs, x, k) && x != docs[k].id && rows[x].url == docs[k].url))
  }

  /** No url stops the batch. */
  ghost predicate Completes(rows: Rows, docs: seq<Document>) {
    forall k :: 0 <= k < |docs| ==> !Stops(rows, docs, k)
  }

  lemma StopsIff(rows: Rows, docs: seq<Document>, k: nat, t: Rows)
    requires k < |docs| && TableAt(rows, docs, k, t) && !docs[k].blank
    ensures Stops(rows, docs, k) <==> UrlTaken(t, docs[k])
  {
    var d := docs[k];
    if id :| id in t && id != d.id && t[id].url == d.url {
      assert HasSource(rows, docs, k, id);
      if id in rows && OldAlive(rows, docs, id, k) {
        assert OldShown(rows, docs, k, t, id);
      } else {
        var j :| 0 <= j < k && WroteAlive(rows, docs, j, k, id);
        assert NewShown(rows, docs, k, t, j);
      }
    }
    if Stops(rows, docs, k) {
      if j :| 0 <= j < k && NewAlive(rows, docs, j, k) && docs[j].id != d.id && docs[j].url == d.url {
        assert NewShown(rows, docs, k, t, j);
      } else {
        var x :| x in rows && OldAlive(rows, docs, x, k) && x != d.id && rows[x].url == d.url;
        assert OldShown(rows, docs, k, t, x);
      }
    }
  }

  // ---- the delete list --------------------------------------------------

  /** Document m puts id y on the delete list: its own if it is a duplicate, else those whose place it takes. */
  ghost predicate Removes(rows: Rows, docs: seq<Document>, m: nat, y: nat)
    requires m < |docs|
  {
    !docs[m].blank &&
    if !Prim(rows, docs, m) then y == docs[m].id
    else y != docs[m].id &&
         ((exists j ::
             0 <= j < m && WroteAlive(rows, docs, j, m, y) && Prim(rows, docs, j)
             && docs[j].canonical == docs[m].canonical)
          || (y in rows && OldAlive(rows, docs, y, m) && rows[y].duplicateOf.None?
          && rows[y].canonical == docs[m].canonical))
  }

  lemma ReplacedIff(rows: Rows, docs: seq<Document>, m: nat, t: Rows, y: nat)
    requires m < |docs| && TableAt(rows, docs, m, t) && Prim(rows, docs, m)
    ensures y in Replaced(t, docs[m]) <==> Removes(rows, docs, m, y)
  {
    var d := docs[m];
    if y in Replaced(t, d) {
      assert HasSource(rows, docs, m, y);
      if y in rows && OldAlive(rows, docs, y, m) {
        assert OldShown(rows, docs, m, t, y);
      } else {
        var j :| 0 <= j < m && WroteAlive(rows, docs, j, m, y);
        assert NewShown(rows, docs, m, t, j);
      }
    }
    if Removes(rows, docs, m, y) {
      if j :| 0 <= j < m && WroteAlive(rows, docs, j, m, y) && Prim(rows, docs, j) && docs[j].canonical == d.canonical {
        assert NewShown(rows, docs, m, t, j);
      } else {
        assert OldShown(rows, docs, m, t, y);
      }
    }
  }

  /** The delete list after the first k turns. */
  ghost predicate DeletesAt(rows: Rows, docs: seq<Document>, k: nat, toDelete: set<nat>)
    requires k <= |docs|
  {
    forall y: nat :: y in toDelete <==> RemovedBefore(rows, docs, k, y)
  }

  ghost predicate RemovedBefore(rows: Rows, docs: seq<Document>, k: nat, y: nat)
    requires k <= |docs|
  {
    exists m :: 0 <= m < k && Removes(rows, docs, m, y)
  }

  lemma RemovedStep(rows: Rows, docs: seq<Document>, k: nat, y: nat)
    requires k < |docs|
    ensures RemovedBefore(rows, docs, k + 1, y) <==> RemovedBefore(rows, docs, k, y) || Removes(rows, docs, k, y)
  {
    if m :| 0 <= m < k && Removes(rows, docs, m, y) {
      assert 0 <= m < k + 1 && Removes(rows, docs, m, y);
    }
  }

  lemma DeletesStep(rows: Rows, docs: seq<Document>, k: nat, b: Batch, original: Option<nat>)
    requires k < |docs| && TableAt(rows, docs, k, b.rows) && DeletesAt(rows, docs, k, b.toDelete)
    requires !docs[k].blank && IsOriginal(b.rows, docs[k], original)
    ensures DeletesAt(rows, docs, k + 1, UpsertOne(b, docs[k], original).toDelete)
  {
    PrimIff(rows, docs, k, b.rows);
    forall y: nat
      ensures y in UpsertOne(b, docs[k], original).toDelete <==> RemovedBefore(rows, docs, k + 1, y)
    {
      RemovedStep(rows, docs, k, y);
      if original.None? {
        ReplacedIff(rows, docs, k, b.rows, y);
      }
    }
  }

  lemma DeletesSkip(rows: Rows, docs: seq<Document>, k: nat, toDelete: set<nat>)
    requires k < |docs| && DeletesAt(rows, docs, k, toDelete) && docs[k].blank
    ensures DeletesAt(rows, docs, k + 1, toDelete)
  {
    forall y: nat
      ensures y in toDelete <==> RemovedBefore(rows, docs, k + 1, y)
    {
      RemovedStep(rows, docs, k, y);
    }
  }

  // ---- when a batch that completes ends in agreement --------------------

  /** Document k is a primary row at the end, and an earlier document had put its id on the delete list. */
  ghost predicate Revives(rows: Rows, docs: seq<Document>, m: nat, k: nat)
    requires m < k < |docs|
  {
    Removes(rows, docs, m, docs[k].id) && NewAlive(rows, docs, k, |docs|) && Prim(rows, docs, k)
  }

  ghost predicate HasRevival(rows: Rows, docs: seq<Document>) {
    exists m, k :: 0 <= m < k < |docs| && Revives(rows, docs, m, k)
  }

  /** An old row that is still there at the end was never put on the delete list. */
  lemma OldNotRemoved(rows: Rows, docs: seq<Document>, x: nat, m: nat)
    requires x in rows && m < |docs| && OldAlive(rows, docs, x, |docs|)
    ensures !Removes(rows, docs, m, x)
  {
    assert MakesRoom(rows, docs, m, rows[x].canonical)
        <==> Prim(rows, docs, m) && docs[m].canonical == rows[x].canonical;
  }

  /** Nor was a new one by a later document. */
  lemma NewNotRemoved(rows: Rows, docs: seq<Document>, k: nat, m: nat)
    requires k <= m < |docs| && NewAlive(rows, docs, k, |docs|) && Prim(rows, docs, k)
    ensures !Removes(rows, docs, m, docs[k].id)
  {
    assert MakesRoom(rows, docs, m, docs[k].canonical)
        <==> Prim(rows, docs, m) && docs[m].canonical == docs[k].canonical;
    forall j | 0 <= j < m && j != k && docs[j].id == docs[k].id
      ensures k < m ==> !NewAlive(rows, docs, j, m)
    {
    }
  }

  /** The delete list holds a primary row at the end exactly if the batch revives an id. */
  lemma ClashIffRevival(rows: Rows, docs: seq<Document>, b: Batch)
    requires TableAt(rows, docs, |docs|, b.rows) && DeletesAt(rows, docs, |docs|, b.toDelete)
    ensures (exists id <- b.toDelete :: IsPrimary(b.rows, id)) <==> HasRevival(rows, docs)
  {
    var n := |docs|;
    if id :| id in b.toDelete && IsPrimary(b.rows, id) {
      assert RemovedBefore(rows, docs, n, id);
      var m :| 0 <= m < n && Removes(rows, docs, m, id);
      assert HasSource(rows, docs, n, id);
      if id in rows && OldAlive(rows, docs, id, n) {
        OldNotRemoved(rows, docs, id, m);
      }
      var k :| 0 <= k < n && WroteAlive(rows, docs, k, n, id);
      assert NewShown(rows, docs, n, b.rows, k);
      if k <= m {
        NewNotRemoved(rows, docs, k, m);
      }
      assert m < k && Revives(rows, docs, m, k);
    }
    if HasRevival(rows, docs) {
      var m, k :| 0 <= m < k < n && Revives(rows, docs, m, k);
      assert NewShown(rows, docs, n, b.rows, k);
      assert RemovedBefore(rows, docs, n, docs[k].id);
      assert docs[k].id in b.toDelete && IsPrimary(b.rows, docs[k].id);
    }
  }

  // ---- when a batch that stops leaves agreement -------------------------

  /** The primary rows at document k's turn are those of the table the batch started on, each as it was. */
  ghost predicate Untouched(rows: Rows, docs: seq<Document>, k: nat)
    requires k <= |docs|
  {
    && (forall j :: 0 <= j < k && NewAlive(rows, docs, j, k) && Prim(rows, docs, j)
          ==> docs[j].id in rows && rows[docs[j].id] == RowOf(docs[j], None))
    && (forall x <- rows :: rows[x].duplicateOf.None? ==> OldAlive(rows, docs, x, k) || Rewritten(rows, docs, k, x))
  }

  ghost predicate Rewritten(rows: Rows, docs: seq<Document>, k: nat, x: nat)
    requires k <= |docs|
  {
    exists j :: 0 <= j < k && WroteAlive(rows, docs, j, k, x) && Prim(rows, docs, j)
  }

  lemma UntouchedIff(rows: Rows, docs: seq<Document>, k: nat, t: Rows)
    requires k <= |docs| && TableAt(rows, docs, k, t)
    ensures Primaries(rows) == Primaries(t) <==> Untouched(rows, docs, k)
  {
    if Untouched(rows, docs, k) {
      forall id
        ensures id in Primaries(t) <==> id in Primaries(rows)
        ensures id in Primaries(t) ==> Primaries(t)[id] == Primaries(rows)[id]
      {
        UntouchedRow(rows, docs, k, t, id);
      }
      assert Primaries(t) == Primaries(rows);
    } else if Primaries(rows) == Primaries(t) {
      forall j | 0 <= j < k && NewAlive(rows, docs, j, k) && Prim(rows, docs, j)
        ensures docs[j].id in rows && rows[docs[j].id] == RowOf(docs[j], None)
      {
        assert NewShown(rows, docs, k, t, j);
        assert docs[j].id in Primaries(t);
      }
      forall x | x in rows && rows[x].duplicateOf.None?
        ensures OldAlive(rows, docs, x, k) || Rewritten(rows, docs, k, x)
      {
        assert x in Primaries(rows) && x in t && HasSource(rows, docs, k, x);
        if !OldAlive(rows, docs, x, k) {
          var j :| 0 <= j < k && WroteAlive(rows, docs, j, k, x);
          assert NewShown(rows, docs, k, t, j);
        }
      }
    }
  }

  lemma UntouchedRow(rows: Rows, docs: seq<Document>, k: nat, t: Rows, id: nat)
    requires k <= |docs| && TableAt(rows, docs, k, t) && Untouched(rows, docs, k)
    ensures id in Primaries(t) <==> id in Primaries(rows)
    ensures id in Primaries(t) ==> Primaries(t)[id] == Primaries(rows)[id]
  {
    if id in Primaries(t) {
      assert HasSource(rows, docs, k, id);
      if id in rows && OldAlive(rows, docs, id, k) {
        assert OldShown(rows, docs, k, t, id);
      } else {
        var j :| 0 <= j < k && WroteAlive(rows, docs, j, k, id);
        assert NewShown(rows, docs, k, t, j);
      }
    }
    if id in Primaries(rows) {
      if OldAlive(rows, docs, id, k) {
        assert OldShown(rows, docs, k, t, id);
      } else {
        var j :| 0 <= j < k && WroteAlive(rows, docs, j, k, id) && Prim(rows, docs, j);
        assert NewShown(rows, docs, k, t, j);
      }
    }
  }

  // ---- duplicates -------------------------------------------------------

  /** The documents among the first k that were neither blank nor taken up as primaries. */
  ghost function Duplicates(rows: Rows, docs: seq<Document>, k: nat): nat
    requires k <= |docs|
  {
    if k == 0 then 0
    else Duplicates(rows, docs, k - 1) + (if docs[k - 1].blank || Prim(rows, docs, k - 1) then 0 else 1)
  }

  // ---- two families of batches ------------------------------------------

  /** Different ids for all documents that are not blank. */
  predicate DistinctIds(docs: seq<Document>) {
    forall i, k :: 0 <= i < k < |docs| && !docs[i].blank && !docs[k].blank ==> docs[i].id != docs[k].id
  }

  predicate NewIds(rows: Rows, docs: seq<Document>) {
    DistinctIds(docs) && forall d <- docs :: !d.blank ==> d.id !in rows
  }

  predicate NewUrls(rows: Rows, docs: seq<Document>) {
    && (forall i, k :: 0 <= i < k < |docs| && !docs[i].blank && !docs[k].blank ==> docs[i].url != docs[k].url)
    && (forall d <- docs, x <- rows :: !d.blank ==> rows[x].url != d.url)
  }

  /** Different urls, all new, let a batch through. */
  lemma NewUrlsComplete(rows: Rows, docs: seq<Document>)
    requires NewUrls(rows, docs)
    ensures Completes(rows, docs)
  {
    forall k | 0 <= k < |docs|
      ensures !Stops(rows, docs, k)
    {
      assert docs[k] in docs;
    }
  }

  /** Different ids, all new, revive nothing. */
  lemma NewIdsNoRevival(rows: Rows, docs: seq<Document>)
    requires NewIds(rows, docs)
    ensures !HasRevival(rows, docs)
  {
    forall m, k | 0 <= m < k < |docs|
      ensures !Revives(rows, docs, m, k)
    {
      assert docs[k] in docs;
    }
  }

  /** An import into an empty table that has written anything has written a primary row. */
  lemma {:induction false} SomePrimary(docs: seq<Document>, k: nat, i: nat)
    requires i < k <= |docs| && !docs[i].blank
    ensures exists j :: 0 <= j < k && NewAlive(map[], docs, j, k) && Prim(map[], docs, j)
    decreases k
  {
    var rows: Rows := map[];
    var last := k - 1;
    if Prim(rows, docs, last) {
      assert NewAlive(rows, docs, last, k);
    } else if docs[last].blank {
      SomePrimary(docs, last, i);
      var j :| 0 <= j < last && NewAlive(rows, docs, j, last) && Prim(rows, docs, j);
      NewAliveStep(rows, docs, j, last);
      assert NewAlive(rows, docs, j, k);
    } else {
      var j :| 0 <= j < last && NewAlive(rows, docs, j, last) && Prim(rows, docs, j) && docs[j].id != docs[last].id
               && docs[j].hash == docs[last].hash;
      NewAliveStep(rows, docs, j, last);
      assert NewAlive(rows, docs, j, k);
    }
  }

  /** So an import into an empty table that stops leaves a primary row that is not indexed. */
  lemma StoppedImportDisagrees(docs: seq<Document>, k: nat)
    requires k < |docs| && Stops(map[], docs, k)
    ensures !Untouched(map[], docs, k)
  {
    var i :| 0 <= i < k && NewAlive(map[], docs, i, k);
    SomePrimary(docs, k, i);
  }

  /** Two documents with different ids and one url: the import stops at the second. */
  lemma SameUrlStops(d1: Document, d2: Document)
    requires !d1.blank && !d2.blank && d1.id != d2.id && d1.url == d2.url
    ensures Stops(map[], [d1, d2], 1) && !Completes(map[], [d1, d2])
    ensures !Untouched(map[], [d1, d2], 1)
  {
    assert NewAlive(map[], [d1, d2], 0, 1);
    StoppedImportDisagrees([d1, d2], 1);
  }

  /** No document repeats the content of another or of a row. */
  predicate NewHashes(rows: Rows, docs: seq<Document>) {
    && (forall i, k :: 0 <= i < k < |docs| && !docs[i].blank && !docs[k].blank ==> docs[i].hash != docs[k].hash)
    && (forall d <- docs, x <- rows :: !d.blank && x != d.id ==> rows[x].hash != d.hash)
  }

  lemma NewHashesPrim(rows: Rows, docs: seq<Document>, k: nat)
    requires NewHashes(rows, docs) && k < |docs| && !docs[k].blank
    ensures Prim(rows, docs, k)
  {
    assert docs[k] in docs;
  }

  /** Document i takes the place of the primary row that document k, later and to stay, has the id of. */
  predicate ReplacesThenRewrites(rows: Rows, docs: seq<Document>, i: int, k: int) {
    && 0 <= i < k < |docs| && !docs[i].blank && !docs[k].blank && IsPrimary(rows, docs[k].id)
    && rows[docs[k].id].canonical == docs[i].canonical
    && forall m :: k < m < |docs| && !docs[m].blank ==> docs[m].canonical != docs[k].canonical
  }

  /** With different ids and new content, a batch revives an id exactly if it replaces a row and later writes it again
      under a canonical url that stays. */
  lemma DistinctBatchRevivesIff(rows: Rows, docs: seq<Document>)
    requires DistinctIds(docs) && NewHashes(rows, docs)
    ensures HasRevival(rows, docs) <==> exists i, k :: ReplacesThenRewrites(rows, docs, i, k)
  {
    if HasRevival(rows, docs) {
      var m, k :| 0 <= m < k < |docs| && Revives(rows, docs, m, k);
      NewHashesPrim(rows, docs, m);
      assert ReplacesThenRewrites(rows, docs, m, k) by {
        forall l | k < l < |docs| && !docs[l].blank
          ensures docs[l].canonical != docs[k].canonical
        {
          NewHashesPrim(rows, docs, l);
          assert !MakesRoom(rows, docs, l, docs[k].canonical);
        }
      }
    }
    if i, k :| ReplacesThenRewrites(rows, docs, i, k) {
      FirstReplacement(rows, docs, i, k);
    }
  }

  lemma {:induction false} FirstReplacement(rows: Rows, docs: seq<Document>, i: nat, k: nat)
    requires DistinctIds(docs) && NewHashes(rows, docs) && ReplacesThenRewrites(rows, docs, i, k)
    ensures HasRevival(rows, docs)
    decreases i
  {
    var y := docs[k].id;
    if e :| 0 <= e < i && !docs[e].blank && docs[e].canonical == docs[i].canonical {
      FirstReplacement(rows, docs, e, k);
    } else {
      NewHashesPrim(rows, docs, i);
      NewHashesPrim(rows, docs, k);
      assert OldAlive(rows, docs, y, i);
      assert NewAlive(rows, docs, k, |docs|);
      assert Revives(rows, docs, i, k);
    }
  }
}
