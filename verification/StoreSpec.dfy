/** The vector store as a value: what each operation does to the map of collections. */
module StoreSpec {
  import opened Numeric
  import opened Record
  import opened Similarity
  import opened TopKSpec

  datatype Option<+T> = None | Some(value: T)

  datatype Result<+T> = Ok(value: T) | Err(error: StoreError)

  datatype StoreError =
    | CollectionExists(name: string)
    | CollectionNotFound(name: string)
    | DimensionMismatch(expected: nat, actual: nat)

  type Vectors = map<U64, StoredVector>

  datatype Collection = Collection(dim: nat, shardCount: nat, vectors: Vectors)

  type Collections = map<string, Collection>

  // ---- Invariant ----

  /** Keys are record ids, cached norms are the norms, and dimensions match. */
  ghost predicate VectorsOk(fp: Arith, dim: nat, vectors: Vectors) {
    forall id :: id in vectors ==>
      && vectors[id].record.id == id
      && vectors[id].normSq == NormSq(fp, vectors[id].record.embedding)
      && |vectors[id].record.embedding| == dim
  }

  ghost predicate StoreOk(fp: Arith, st: Collections) {
    forall name :: name in st ==> st[name].shardCount >= 1 && VectorsOk(fp, st[name].dim, st[name].vectors)
  }

  // ---- Operations ----

  function CreateIn(st: Collections, name: string, dim: nat, shardCount: nat): (Collections, Result<()>) {
    if name in st then (st, Err(CollectionExists(name)))
    else (st[name := Collection(dim, if shardCount == 0 then 1 else shardCount, map[])], Ok(()))
  }

  function Stored(fp: Arith, r: VectorRecord): StoredVector {
    StoredVector(r, NormSq(fp, r.embedding))
  }

  function UpsertAll(fp: Arith, vectors: Vectors, records: seq<VectorRecord>): Vectors {
    if records == [] then vectors else
      var last := records[|records| - 1];
      UpsertAll(fp, vectors, records[..|records| - 1])[last.id := Stored(fp, last)]
  }

  predicate DimsOk(dim: nat, records: seq<VectorRecord>) {
    forall i :: 0 <= i < |records| ==> |records[i].embedding| == dim
  }

  /** The dimension of the first record that does not fit. */
  function FirstBadDim(dim: nat, records: seq<VectorRecord>): (actual: nat)
    requires !DimsOk(dim, records)
    ensures actual != dim
  {
    if |records[0].embedding| != dim then |records[0].embedding| else FirstBadDim(dim, records[1..])
  }

  function InsertInto(fp: Arith, st: Collections, name: string, records: seq<VectorRecord>)
    : (Collections, Result<nat>)
  {
    if name !in st then (st, Err(CollectionNotFound(name)))
    else if !DimsOk(st[name].dim, records) then
      (st, Err(DimensionMismatch(st[name].dim, FirstBadDim(st[name].dim, records))))
    else
      (st[name := st[name].(vectors := UpsertAll(fp, st[name].vectors, records))], Ok(|records|))
  }

  function DeleteAll(vectors: Vectors, ids: seq<U64>): Vectors {
    map id | id in vectors && id !in ids :: vectors[id]
  }

  function DeleteFrom(st: Collections, name: string, ids: seq<U64>): (Collections, Result<nat>) {
    if name !in st then (st, Err(CollectionNotFound(name)))
    else
      var left := DeleteAll(st[name].vectors, ids);
      DeleteShrinks(st[name].vectors, ids);
      (st[name := st[name].(vectors := left)], Ok(|st[name].vectors| - |left|))
  }

  lemma DeleteShrinks(vectors: Vectors, ids: seq<U64>)
    ensures |DeleteAll(vectors, ids)| <= |vectors|
  {
    SubsetCardinality(DeleteAll(vectors, ids).Keys, vectors.Keys);
  }

  lemma SubsetCardinality<T>(a: set<T>, b: set<T>)
    requires a <= b
    ensures |a| <= |b|
    ensures |a| == |b| ==> a == b
  {
    assert b == a + (b - a);
  }

  /** Scores computed from scratch for a set of stored ids. */
  ghost function ScoresOn(fp: Arith, vectors: Vectors, ids: set<U64>, query: seq<F32>): set<ScoredId>
    requires ids <= vectors.Keys
  {
    set id | id in ids :: ScoredId(id, Cosine(fp, vectors[id].record.embedding, query))
  }

  /** The reference search: score every record from scratch, sort, keep k. */
  ghost function Ranked(fp: Arith, vectors: Vectors, query: seq<F32>, k: nat): seq<ScoredId> {
    SortTruncate(multiset(ScoresOn(fp, vectors, vectors.Keys, query)), k)
  }

  ghost function SearchStore(fp: Arith, st: Collections, name: string, query: seq<F32>, k: nat): Result<seq<ScoredId>> {
    if name !in st then Err(CollectionNotFound(name))
    else if |query| != st[name].dim then Err(DimensionMismatch(st[name].dim, |query|))
    else Ok(Ranked(fp, st[name].vectors, query, k))
  }

  // ---- Snapshots ----

  datatype CollectionSnapshot = CollectionSnapshot(dim: nat, shardCount: nat, vectors: map<U64, VectorRecord>)

  type Snapshot = map<string, CollectionSnapshot>

  function RecordsOf(vectors: Vectors): map<U64, VectorRecord> {
    map id | id in vectors :: vectors[id].record
  }

  function TakeSnapshot(st: Collections): Snapshot {
    map name | name in st :: CollectionSnapshot(st[name].dim, st[name].shardCount, RecordsOf(st[name].vectors))
  }

  function Restored(fp: Arith, records: map<U64, VectorRecord>): Vectors {
    map id | id in records :: Stored(fp, records[id])
  }

  function Restore(fp: Arith, snap: Snapshot): Collections {
    map name | name in snap :: Collection(snap[name].dim, snap[name].shardCount, Restored(fp, snap[name].vectors))
  }

  /** A snapshot some well-formed store could have produced. */
  ghost predicate SnapshotOk(snap: Snapshot) {
    forall name :: name in snap ==>
      && snap[name].shardCount >= 1
      && forall id :: id in snap[name].vectors ==>
           snap[name].vectors[id].id == id && |snap[name].vectors[id].embedding| == snap[name].dim
  }

  /** Restoring what was snapshotted gives back the store, cached norms included. */
  lemma SnapshotRoundTrip(fp: Arith, st: Collections)
    requires StoreOk(fp, st)
    ensures SnapshotOk(TakeSnapshot(st)) && Restore(fp, TakeSnapshot(st)) == st
  {
    forall name | name in st ensures Restored(fp, RecordsOf(st[name].vectors)) == st[name].vectors {
      var vectors := st[name].vectors;
      assert forall id :: id in vectors ==> Stored(fp, vectors[id].record) == vectors[id];
    }
  }

  // ---- Counting ----

  /** How many records the store holds over all collections. */
  ghost function TotalSize(st: Collections): nat {
    if st == map[] then 0 else
      var name :| name in st;
      |st[name].vectors| + TotalSize(st - {name})
  }

  lemma RemoveBoth(st: Collections, a: string, b: string)
    requires a in st && b in st && a != b
    ensures st - {a} - {b} == st - {b} - {a}
    ensures b in st - {a} && (st - {a})[b] == st[b] && |st - {a}| < |st|
    ensures a in st - {b} && (st - {b})[a] == st[a] && |st - {b}| < |st|
  {
    assert (st - {a}).Keys == st.Keys - {a} && (st - {b}).Keys == st.Keys - {b};
  }

  /** The order of counting does not matter. */
  lemma {:induction false} TotalSizeRemove(st: Collections, name: string)
    requires name in st
    ensures TotalSize(st) == |st[name].vectors| + TotalSize(st - {name})
    decreases |st|
  {
    var first :| first in st && TotalSize(st) == |st[first].vectors| + TotalSize(st - {first});
    if first != name {
      RemoveBoth(st, first, name);
      TotalSizeRemove(st - {first}, name);
      TotalSizeRemove(st - {name}, first);
    }
  }

  // ---- What is stored under one id ----

  function Lookup(st: Collections, name: string, id: U64): Option<StoredVector> {
    if name in st && id in st[name].vectors then Some(st[name].vectors[id]) else None
  }

  /** The two stores hold the same records under one collection name. */
  ghost predicate SameUnder(a: Collections, b: Collections, name: string) {
    forall id :: Lookup(a, name, id) == Lookup(b, name, id)
  }

  /** Same collections with the same settings. */
  ghost predicate SameSchema(a: Collections, b: Collections) {
    && a.Keys == b.Keys
    && forall name :: name in a ==> a[name].dim == b[name].dim && a[name].shardCount == b[name].shardCount
  }

  lemma SameLookupsSameStore(a: Collections, b: Collections)
    requires SameSchema(a, b)
    requires forall name, id :: Lookup(a, name, id) == Lookup(b, name, id)
    ensures a == b
  {
    forall name | name in a ensures a[name].vectors == b[name].vectors {
      forall id | id in a[name].vectors || id in b[name].vectors
        ensures id in a[name].vectors && id in b[name].vectors && a[name].vectors[id] == b[name].vectors[id]
      {
        assert Lookup(a, name, id) == Lookup(b, name, id);
      }
    }
  }

  /** The last record of a batch with a given id. */
  function LastRecord(records: seq<VectorRecord>, id: U64): Option<VectorRecord> {
    if records == [] then None
    else if records[|records| - 1].id == id then Some(records[|records| - 1])
    else LastRecord(records[..|records| - 1], id)
  }

  /** A batch leaves the last record of each id it names and touches no other id. */
  lemma {:induction false} UpsertLookup(fp: Arith, vectors: Vectors, records: seq<VectorRecord>, id: U64)
    ensures var after := UpsertAll(fp, vectors, records);
      match LastRecord(records, id)
      case Some(r) => id in after && after[id] == Stored(fp, r)
      case None => (id in after <==> id in vectors) && (id in vectors ==> after[id] == vectors[id])
  {
    if records != [] {
      UpsertLookup(fp, vectors, records[..|records| - 1], id);
    }
  }

  lemma {:induction false} LastRecordIsOne(records: seq<VectorRecord>, id: U64)
    ensures match LastRecord(records, id)
      case Some(r) => r in records && r.id == id
      case None => forall r :: r in records ==> r.id != id
  {
    if records != [] {
      LastRecordIsOne(records[..|records| - 1], id);
      assert records == records[..|records| - 1] + [records[|records| - 1]];
    }
  }

  lemma {:induction false} UpsertKeepsOk(fp: Arith, dim: nat, vectors: Vectors, records: seq<VectorRecord>)
    requires VectorsOk(fp, dim, vectors) && DimsOk(dim, records)
    ensures VectorsOk(fp, dim, UpsertAll(fp, vectors, records))
  {
    if records != [] {
      UpsertKeepsOk(fp, dim, vectors, records[..|records| - 1]);
    }
  }

  lemma OperationsKeepOk(fp: Arith, st: Collections, name: string, records: seq<VectorRecord>, ids: seq<U64>,
                         dim: nat, n: nat)
    requires StoreOk(fp, st)
    ensures StoreOk(fp, CreateIn(st, name, dim, n).0)
    ensures StoreOk(fp, InsertInto(fp, st, name, records).0)
    ensures StoreOk(fp, DeleteFrom(st, name, ids).0)
  {
    if name in st && DimsOk(st[name].dim, records) {
      UpsertKeepsOk(fp, st[name].dim, st[name].vectors, records);
    }
  }

  ghost predicate DistinctAndPresent(ids: seq<U64>, present: set<U64>) {
    && (forall i :: 0 <= i < |ids| ==> ids[i] in present)
    && (forall i, j :: 0 <= i < j < |ids| ==> ids[i] != ids[j])
  }

  /** A delete drops as many records as it names ids exactly when the ids are all present and all different. */
  lemma DeleteCountExact(vectors: Vectors, ids: seq<U64>)
    ensures |vectors| - |DeleteAll(vectors, ids)| == |ids| <==> DistinctAndPresent(ids, vectors.Keys)
    ensures 0 <= |vectors| - |DeleteAll(vectors, ids)| <= |ids|
  {
    DeleteDropsFound(vectors, ids);
    DistinctHits(ids, vectors.Keys, Found(ids, vectors));
  }

  lemma DistinctSnoc(ids: seq<U64>, present: set<U64>)
    requires ids != []
    ensures var n := |ids| - 1;
      DistinctAndPresent(ids, present)
      <==> DistinctAndPresent(ids[..n], present) && ids[n] in present && ids[n] !in ids[..n]
  {
    var n := |ids| - 1;
    if ids[n] in ids[..n] {
      var i :| 0 <= i < n && ids[..n][i] == ids[n];
      assert ids[i] == ids[n];
    }
  }

  lemma {:induction false} DistinctHits(ids: seq<U64>, present: set<U64>, gone: set<U64>)
    requires gone == set id | id in ids && id in present
    ensures |gone| <= |ids|
    ensures |gone| == |ids| <==> DistinctAndPresent(ids, present)
  {
    if ids == [] {
      assert gone == {};
    } else {
      var n := |ids| - 1;
      var gone' := set id | id in ids[..n] && id in present;
      DistinctHits(ids[..n], present, gone');
      DistinctSnoc(ids, present);
      assert ids == ids[..n] + [ids[n]];
      assert gone == if ids[n] in present then gone' + {ids[n]} else gone';
    }
  }

  // ---- What the operations answer ----

  /** A create is accepted exactly when the name is free; it adds an empty collection and leaves the others alone. */
  lemma CreateVerdict(st: Collections, name: string, dim: nat, shardCount: nat)
    ensures var (after, r) := CreateIn(st, name, dim, shardCount);
      && (r.Ok? <==> name !in st)
      && (r.Err? ==> r.error == CollectionExists(name) && after == st)
      && (r.Ok? ==> after.Keys == st.Keys + {name} && after - {name} == st
                    && after[name].vectors == map[] && after[name].dim == dim
                    && after[name].shardCount >= 1 && (shardCount >= 1 ==> after[name].shardCount == shardCount))
  {
    if name !in st {
      assert CreateIn(st, name, dim, shardCount).0 - {name} == st;
    }
  }

  lemma {:induction false} FirstBadIsFirst(dim: nat, records: seq<VectorRecord>) returns (i: nat)
    requires !DimsOk(dim, records)
    ensures i < |records| && DimsOk(dim, records[..i]) && |records[i].embedding| == FirstBadDim(dim, records) != dim
  {
    if |records[0].embedding| != dim {
      i := 0;
    } else {
      var k :| 0 <= k < |records| && |records[k].embedding| != dim;
      assert records[1..][k - 1] == records[k];
      var j := FirstBadIsFirst(dim, records[1..]);
      i := j + 1;
      forall k | 0 <= k < i ensures |records[..i][k].embedding| == dim {
        assert k > 0 ==> records[..i][k] == records[1..][..j][k - 1];
      }
    }
  }

  /** The dimension `actual` is that of the first record of the batch that does not fit. */
  ghost predicate FirstMismatch(dim: nat, records: seq<VectorRecord>, actual: nat) {
    exists i :: 0 <= i < |records| && DimsOk(dim, records[..i]) && |records[i].embedding| == actual != dim
  }

  /** An insert is accepted exactly when the collection exists and every dimension fits, and answers the size of the
      batch; otherwise it changes nothing and names the collection, or the two dimensions of the first misfit. */
  lemma InsertVerdict(fp: Arith, st: Collections, name: string, records: seq<VectorRecord>)
    ensures var (after, r) := InsertInto(fp, st, name, records);
      && (r.Ok? <==> name in st && DimsOk(st[name].dim, records))
      && (r.Ok? ==> r.value == |records|)
      && (r.Err? ==> after == st)
      && (name !in st ==> r == Err(CollectionNotFound(name)))
      && (name in st && r.Err? ==> r.error.DimensionMismatch? && r.error.expected == st[name].dim
                                   && FirstMismatch(st[name].dim, records, r.error.actual))
  {
    if name in st && !DimsOk(st[name].dim, records) {
      var i := FirstBadIsFirst(st[name].dim, records);
    }
  }

  /** The different ids of the list that are stored. */
  ghost function Found(ids: seq<U64>, vectors: Vectors): set<U64> {
    set id | id in ids && id in vectors
  }

  lemma DeleteDropsFound(vectors: Vectors, ids: seq<U64>)
    ensures |vectors| == |DeleteAll(vectors, ids)| + |Found(ids, vectors)|
  {
    var left, gone := DeleteAll(vectors, ids), Found(ids, vectors);
    assert vectors.Keys == left.Keys + gone && left.Keys !! gone;
    assert |vectors.Keys| == |left.Keys| + |gone|;
    assert |vectors| == |vectors.Keys| && |left| == |left.Keys|;
  }

  /** A delete is accepted exactly when the collection exists, and answers how many different ids it found there. */
  lemma DeleteVerdict(st: Collections, name: string, ids: seq<U64>)
    ensures var (after, r) := DeleteFrom(st, name, ids);
      && (r.Ok? <==> name in st)
      && (r.Ok? ==> r.value == |Found(ids, st[name].vectors)|)
      && (r.Err? ==> r.error == CollectionNotFound(name) && after == st)
  {
    if name in st {
      DeleteDropsFound(st[name].vectors, ids);
    }
  }

  /** A search is accepted exactly when the collection exists and the query has its dimension. */
  lemma SearchVerdict(fp: Arith, st: Collections, name: string, query: seq<F32>, k: nat)
    ensures var r := SearchStore(fp, st, name, query, k);
      && (r.Ok? <==> name in st && |query| == st[name].dim)
      && (name !in st ==> r == Err(CollectionNotFound(name)))
      && (name in st && r.Err? ==> r.error == DimensionMismatch(st[name].dim, |query|))
  {
  }
}
