/** The document table and its search index: when the index holds exactly the primary rows. */
module Catalog {
  import opened Wrappers
  import opened Urls

  /** A normalised document. `blank` says that its title or body is empty after trimming. */
  datatype Document = Document(id: nat, url: string, canonical: string, host: string, hash: string, blank: bool)

  datatype Row = Row(url: string, canonical: string, host: string, hash: string, hasBlob: bool,
      duplicateOf: Option<nat>)

  type Rows = map<nat, Row>

  predicate IsPrimary(rows: Rows, id: nat) {
    id in rows && rows[id].duplicateOf.None?
  }

  /** What the index should hold: the rows that are nobody's duplicate. */
  function Primaries(rows: Rows): Rows {
    map id | id in rows && rows[id].duplicateOf.None? :: rows[id]
  }

  /** The rows whose content an upserted document repeats. */
  function Originals(rows: Rows, d: Document): set<nat> {
    set id | id in rows && rows[id].hash == d.hash && id != d.id && rows[id].duplicateOf.None?
  }

  function RowOf(d: Document, duplicateOf: Option<nat>): Row {
    Row(d.url, d.canonical, d.host, d.hash, true, duplicateOf)
  }

  /** The table's unique constraint on urls, for a row written under the document's id. */
  predicate UrlTaken(rows: Rows, d: Document) {
    exists id :: id in rows && id != d.id && rows[id].url == d.url
  }

  /** The primary rows a new primary document takes the place of: those of its canonical url. */
  function Replaced(rows: Rows, d: Document): set<nat> {
    set id | id in rows && rows[id].canonical == d.canonical && id != d.id && rows[id].duplicateOf.None?
  }

  /** The table after a document is written, given the original it duplicates, if any. */
  function Persist(rows: Rows, d: Document, original: Option<nat>): Rows {
    var written := rows[d.id := RowOf(d, original)];
    if original.Some? then written
    else map id | id in written && id !in Replaced(rows, d) :: written[id]
  }

  /** The database may pick any original when there are several. */
  predicate IsOriginal(rows: Rows, d: Document, original: Option<nat>) {
    match original
    case Some(o) => o in Originals(rows, d)
    case None => Originals(rows, d) == {}
  }

  /** No two primary rows share a content hash or a canonical url. */
  ghost predicate Unique(rows: Rows) {
    forall a <- rows, b <- rows :: IsPrimary(rows, a) && IsPrimary(rows, b) && a != b
      ==> rows[a].hash != rows[b].hash && rows[a].canonical != rows[b].canonical
  }

  lemma PersistKeepsUnique(rows: Rows, d: Document, original: Option<nat>)
    requires Unique(rows) && IsOriginal(rows, d, original)
    ensures Unique(Persist(rows, d, original))
  {
    var after := Persist(rows, d, original);
    forall a <- after, b <- after | IsPrimary(after, a) && IsPrimary(after, b) && a != b
      ensures after[a].hash != after[b].hash && after[a].canonical != after[b].canonical
    {
      assert a != d.id ==>
        IsPrimary(rows, a) && (original.None? ==> a !in Originals(rows, d) && a !in Replaced(rows, d));
      assert b != d.id ==>
        IsPrimary(rows, b) && (original.None? ==> b !in Originals(rows, d) && b !in Replaced(rows, d));
    }
  }

  /** With unique primaries there is only one original to pick. */
  lemma OriginalIsUnique(rows: Rows, d: Document, o1: Option<nat>, o2: Option<nat>)
    requires Unique(rows) && IsOriginal(rows, d, o1) && IsOriginal(rows, d, o2)
    ensures o1 == o2
  {
    if o1.Some? && o2.Some? {
      assert IsPrimary(rows, o1.value) && IsPrimary(rows, o2.value);
    }
  }

  // ---- a batch and its two pending lists --------------------------------

  /** The state of an upsert in progress: the table, the entries still to be indexed, in order, and the ids to be
      deleted from the index after that. */
  datatype Batch = Batch(rows: Rows, toIndex: seq<(nat, Row)>, toDelete: set<nat>)

  /** One document, whose url is free, goes through. */
  function UpsertOne(b: Batch, d: Document, original: Option<nat>): Batch {
    if d.blank then b
    else Batch(Persist(b.rows, d, original),
               if original.Some? then b.toIndex else b.toIndex + [(d.id, RowOf(d, None))],
               b.toDelete + (if original.Some? then {d.id} else Replaced(b.rows, d)))
  }

  /** All documents of a list, each with the original picked for it. */
  function UpsertAll(b: Batch, docs: seq<Document>, originals: seq<Option<nat>>): Batch
    requires |docs| == |originals|
  {
    var n := |docs|;
    if n == 0 then b
    else UpsertOne(UpsertAll(b, docs[..n - 1], originals[..n - 1]), docs[n - 1], originals[n - 1])
  }

  /** Index writes of a batch, in order. */
  function IndexAll(index: Rows, entries: seq<(nat, Row)>): Rows {
    if entries == [] then index
    else IndexAll(index, entries[..|entries| - 1])[entries[|entries| - 1].0 := entries[|entries| - 1].1]
  }

  function DeleteAll(index: Rows, ids: set<nat>): Rows {
    map id | id in index && id !in ids :: index[id]
  }

  /** While a batch runs: indexing what is pending would show every primary row as it is, and nothing else but rows
      that are about to be deleted. */
  ghost predicate Tracks(index: Rows, b: Batch) {
    var shown := IndexAll(index, b.toIndex);
    && (forall id <- b.rows :: IsPrimary(b.rows, id) ==> id in shown && shown[id] == b.rows[id])
    && (forall id <- shown :: IsPrimary(b.rows, id) || id in b.toDelete)
  }

  lemma UpsertOneTracks(index: Rows, b: Batch, d: Document, original: Option<nat>)
    requires Tracks(index, b) && IsOriginal(b.rows, d, original)
    ensures Tracks(index, UpsertOne(b, d, original))
  {
    if !d.blank && original.None? {
      var after := UpsertOne(b, d, original);
      assert after.toIndex[..|after.toIndex| - 1] == b.toIndex;
      var shown, shown' := IndexAll(index, b.toIndex), IndexAll(index, after.toIndex);
      assert shown' == shown[d.id := RowOf(d, None)];
      forall id | id in shown'
        ensures IsPrimary(after.rows, id) || id in after.toDelete
      {
        assert id == d.id || IsPrimary(b.rows, id) || id in b.toDelete;
      }
    }
  }

  /** The index that results shows exactly the primary rows if and only if none of them is on the delete list. */
  lemma FlushAgreesIff(index: Rows, b: Batch)
    requires Tracks(index, b)
    ensures DeleteAll(IndexAll(index, b.toIndex), b.toDelete) == Primaries(b.rows)
       <==> forall id <- b.toDelete :: !IsPrimary(b.rows, id)
  {
    var flushed := DeleteAll(IndexAll(index, b.toIndex), b.toDelete);
    if forall id <- b.toDelete :: !IsPrimary(b.rows, id) {
      assert flushed == Primaries(b.rows);
    } else {
      var id :| id in b.toDelete && IsPrimary(b.rows, id);
      assert id in Primaries(b.rows) && id !in flushed;
    }
  }

  /** One document leaves no primary row on the delete list. */
  lemma SingleNoClash(rows: Rows, d: Document, original: Option<nat>)
    requires IsOriginal(rows, d, original)
    ensures var b := UpsertOne(Batch(rows, [], {}), d, original); forall id <- b.toDelete :: !IsPrimary(b.rows, id)
  {
  }

  // ---- single operations over whole runs --------------------------------

  datatype Store = Store(rows: Rows, index: Rows)

  /** One-document operations, with all index writes succeeding. */
  datatype Op =
    | UpsertDoc(document: Document, original: Option<nat>)
    | DeleteDoc(id: nat)
    | PurgeSite(site: string)

  predicate OpEnabled(s: Store, op: Op) {
    op.UpsertDoc? ==> IsOriginal(s.rows, op.document, op.original)
  }

  function OnSite(rows: Rows, site: string): set<nat> {
    set id | id in rows && HostMatchesScope(rows[id].host, site, SameDomain)
  }

  function Do(s: Store, op: Op): Store {
    match op
    case UpsertDoc(d, original) =>
      if !d.blank && UrlTaken(s.rows, d) then s   // the insert is refused and nothing is indexed
      else
        var b := UpsertOne(Batch(s.rows, [], {}), d, original);
        Store(b.rows, DeleteAll(IndexAll(s.index, b.toIndex), b.toDelete))
    case DeleteDoc(id) => if id in s.rows then Store(s.rows - {id}, DeleteAll(s.index, {id})) else s
    case PurgeSite(site) => Store(s.rows - OnSite(s.rows, site), DeleteAll(s.index, OnSite(s.rows, site)))
  }

  /** The index holds exactly the primary rows, and these are unique. */
  ghost predicate Agrees(s: Store) {
    s.index == Primaries(s.rows) && Unique(s.rows)
  }

  lemma StartTracks(rows: Rows)
    ensures Tracks(Primaries(rows), Batch(rows, [], {}))
  {
  }

  lemma RemovalKeepsUnique(rows: Rows, ids: set<nat>)
    requires Unique(rows)
    ensures Unique(rows - ids) && Primaries(rows - ids) == DeleteAll(Primaries(rows), ids)
  {
    forall a <- rows - ids, b <- rows - ids | IsPrimary(rows - ids, a) && IsPrimary(rows - ids, b) && a != b
      ensures rows[a].hash != rows[b].hash && rows[a].canonical != rows[b].canonical
    {
      assert IsPrimary(rows, a) && IsPrimary(rows, b);
    }
  }

  lemma OpKeepsAgreement(s: Store, op: Op)
    requires Agrees(s) && OpEnabled(s, op)
    ensures Agrees(Do(s, op))
  {
    match op
    case UpsertDoc(d, original) =>
      if d.blank || !UrlTaken(s.rows, d) {
        var start := Batch(s.rows, [], {});
        StartTracks(s.rows);
        UpsertOneTracks(s.index, start, d, original);
        SingleNoClash(s.rows, d, original);
        FlushAgreesIff(s.index, UpsertOne(start, d, original));
        PersistKeepsUnique(s.rows, d, original);
      }
    case DeleteDoc(id) =>
      RemovalKeepsUnique(s.rows, {id});
    case PurgeSite(site) =>
      RemovalKeepsUnique(s.rows, OnSite(s.rows, site));
  }

  ghost predicate IsOpRun(states: seq<Store>, ops: seq<Op>) {
    && |states| == |ops| + 1
    && states[0] == Store(map[], map[])
    && forall i :: 0 <= i < |ops| ==> OpEnabled(states[i], ops[i]) && states[i + 1] == Do(states[i], ops[i])
  }

  /** Over every run of one-document upserts, deletions and purges the index holds exactly the primary rows, each with
      its current content, and no two of them share a hash or a canonical url. */
  lemma {:induction false} RunKeepsAgreement(states: seq<Store>, ops: seq<Op>, i: nat)
    requires IsOpRun(states, ops) && i < |states|
    ensures Agrees(states[i])
  {
    if i > 0 {
      RunKeepsAgreement(states, ops, i - 1);
      OpKeepsAgreement(states[i - 1], ops[i - 1]);
    }
  }

  // ---- ascending ids ----------------------------------------------------

  predicate IsLeast(s: set<nat>, m: nat) {
    m in s && forall x <- s :: m <= x
  }

  lemma {:induction false} LeastFrom(s: set<nat>, low: nat, some: nat)
    requires some in s && forall x <- s :: low <= x
    ensures exists m :: IsLeast(s, m)
    decreases some - low
  {
    if low in s {
      assert IsLeast(s, low);
    } else {
      LeastFrom(s, low + 1, some);
    }
  }

  ghost function Least(s: set<nat>): (m: nat)
    requires s != {}
    ensures IsLeast(s, m)
  {
    var some :| some in s;
    LeastFrom(s, 0, some);
    var m :| IsLeast(s, m);
    m
  }

  /** A set of ids in ascending order. */
  ghost function Sorted(s: set<nat>): (ids: seq<nat>)
    ensures |ids| == |s|
    decreases |s|
  {
    if s == {} then [] else [Least(s)] + Sorted(s - {Least(s)})
  }

  /** Every id of the set once, in ascending order. */
  lemma {:induction false} SortedIsAscending(s: set<nat>)
    ensures forall id :: id in Sorted(s) <==> id in s
    ensures forall i, k :: 0 <= i < k < |Sorted(s)| ==> Sorted(s)[i] < Sorted(s)[k]
    decreases |s|
  {
    if s != {} {
      var rest := s - {Least(s)};
      SortedIsAscending(rest);
      assert forall id <- Sorted(rest) :: Least(s) < id;
      forall i, k | 0 <= i < k < |Sorted(s)|
        ensures Sorted(s)[i] < Sorted(s)[k]
      {
        assert Sorted(rest)[k - 1] in rest;
      }
    }
  }

  /** The ids a keyset page may still return. */
  function Above(ids: set<nat>, last: Option<nat>): set<nat> {
    set id | id in ids && (last.Some? ==> id > last.value)
  }
}
