/** The store object: the map of collections updated in place, checked against `StoreSpec`. */
module Store {
  import opened Numeric
  import opened Record
  import opened Similarity
  import opened Search
  import opened Seqs
  import opened StoreSpec

  /** `map.values()` gathered into a vector. */
  method CollectValues(vectors: Vectors) returns (entries: seq<StoredVector>, ids: seq<U64>)
    ensures Lists(ids, vectors.Keys) && |entries| == |ids|
    ensures forall i :: 0 <= i < |ids| ==> ids[i] in vectors && entries[i] == vectors[ids[i]]
  {
    entries, ids := [], [];
    var rest := vectors.Keys;
    while rest != {}
      invariant rest <= vectors.Keys && Lists(ids, vectors.Keys - rest) && |entries| == |ids|
      invariant forall i :: 0 <= i < |ids| ==> ids[i] in vectors && entries[i] == vectors[ids[i]]
      decreases rest
    {
      var id :| id in rest;
      entries, ids := entries + [vectors[id]], ids + [id];
      rest := rest - {id};
    }
    assert vectors.Keys - rest == vectors.Keys;
  }

  /** Scanning stored entries with cached norms ranks the scores computed from scratch. */
  lemma {:induction false} ScanScores(fp: Arith, dim: nat, vectors: Vectors, entries: seq<StoredVector>,
                                      ids: seq<U64>, keys: set<U64>, query: seq<F32>)
    requires VectorsOk(fp, dim, vectors) && keys <= vectors.Keys
    requires Lists(ids, keys) && |entries| == |ids|
    requires forall i :: 0 <= i < |ids| ==> ids[i] in vectors && entries[i] == vectors[ids[i]]
    ensures multiset(Scores(fp, query, entries)) == multiset(ScoresOn(fp, vectors, keys, query))
  {
    if ids == [] {
      assert keys == {};
      assert ScoresOn(fp, vectors, keys, query) == {};
      assert Scores(fp, query, entries) == [];
    } else {
      var n := |ids| - 1;
      assert ids == ids[..n] + [ids[n]];
      var keys' := keys - {ids[n]};
      ScanScores(fp, dim, vectors, entries[..n], ids[..n], keys', query);
      ScoresSnoc(fp, query, entries, n);
      assert entries[..n + 1] == entries;
      assert Score(fp, query, entries[n]) == ScoredId(ids[n], Cosine(fp, vectors[ids[n]].record.embedding, query));
      ScoresOnInsert(fp, vectors, keys', ids[n], query);
      assert keys == keys' + {ids[n]};
    }
  }

  lemma ScoresOnInsert(fp: Arith, vectors: Vectors, keys: set<U64>, id: U64, query: seq<F32>)
    requires keys <= vectors.Keys && id in vectors && id !in keys
    ensures var s := ScoredId(id, Cosine(fp, vectors[id].record.embedding, query));
      multiset(ScoresOn(fp, vectors, keys + {id}, query)) == multiset(ScoresOn(fp, vectors, keys, query)) + multiset{s}
  {
    var s := ScoredId(id, Cosine(fp, vectors[id].record.embedding, query));
    assert ScoresOn(fp, vectors, keys + {id}, query) == ScoresOn(fp, vectors, keys, query) + {s};
    assert s !in ScoresOn(fp, vectors, keys, query);
  }

  /** The dimension check before any mutation: the first record that does not fit decides. */
  method CheckDims(dim: nat, records: seq<VectorRecord>) returns (bad: Option<nat>)
    ensures bad.None? <==> DimsOk(dim, records)
    ensures bad.Some? ==> bad.value == FirstBadDim(dim, records)
  {
    for i := 0 to |records|
      invariant DimsOk(dim, records[i..]) <==> DimsOk(dim, records)
      invariant !DimsOk(dim, records) ==> FirstBadDim(dim, records[i..]) == FirstBadDim(dim, records)
    {
      DimsCons(dim, records[i], records[i + 1..]);
      assert records[i..] == [records[i]] + records[i + 1..];
      if |records[i].embedding| != dim {
        return Some(|records[i].embedding|);
      }
    }
    bad := None;
  }

  lemma DimsCons(dim: nat, head: VectorRecord, rest: seq<VectorRecord>)
    ensures DimsOk(dim, [head] + rest) <==> |head.embedding| == dim && DimsOk(dim, rest)
    ensures |head.embedding| == dim && !DimsOk(dim, rest) ==> FirstBadDim(dim, [head] + rest) == FirstBadDim(dim, rest)
    ensures |head.embedding| != dim ==> FirstBadDim(dim, [head] + rest) == |head.embedding|
  {
    var all := [head] + rest;
    assert all[0] == head && all[1..] == rest;
    assert forall i :: 0 <= i < |rest| ==> rest[i] == all[i + 1];
  }

  method UpsertRecords(fp: Arith, before: Vectors, records: seq<VectorRecord>) returns (vectors: Vectors)
    ensures vectors == UpsertAll(fp, before, records)
  {
    vectors := before;
    for j := 0 to |records|
      invariant vectors == UpsertAll(fp, before, records[..j])
    {
      var normSq := ComputeNormSq(fp, records[j].embedding);
      vectors := vectors[records[j].id := StoredVector(records[j], normSq)];
      assert records[..j + 1][..j] == records[..j];
    }
    assert records[..|records|] == records;
  }

  method RemoveIds(before: Vectors, ids: seq<U64>) returns (vectors: Vectors, deleted: nat)
    ensures vectors == DeleteAll(before, ids)
    ensures deleted == |before| - |vectors|
  {
    vectors, deleted := before, 0;
    for i := 0 to |ids|
      invariant vectors == DeleteAll(before, ids[..i])
      invariant deleted == |before| - |vectors|
    {
      DeleteSnoc(before, ids, i);
      if ids[i] in vectors {
        vectors := vectors - {ids[i]};
        deleted := deleted + 1;
      }
    }
    assert ids[..|ids|] == ids;
  }

  lemma DeleteSnoc(before: Vectors, ids: seq<U64>, i: nat)
    requires i < |ids|
    ensures var had := DeleteAll(before, ids[..i]);
      && DeleteAll(before, ids[..i + 1]) == had - {ids[i]}
      && |had - {ids[i]}| == |had| - (if ids[i] in had then 1 else 0)
  {
    var had := DeleteAll(before, ids[..i]);
    assert ids[..i + 1] == ids[..i] + [ids[i]];
    assert (had - {ids[i]}).Keys == had.Keys - {ids[i]};
  }

  class Store {
    const fp: Arith
    var collections: Collections

    ghost predicate Valid()
      reads this
    {
      StoreOk(fp, collections)
    }

    constructor (fp: Arith)
      ensures Valid() && this.fp == fp && collections == map[]
    {
      this.fp := fp;
      collections := map[];
    }

    method CreateCollection(name: string, dim: nat, shardCount: nat) returns (r: Result<()>)
      requires Valid()
      modifies this
      ensures Valid() && (collections, r) == CreateIn(old(collections), name, dim, shardCount)
    {
      OperationsKeepOk(fp, collections, name, [], [], dim, shardCount);
      if name in collections {
        return Err(CollectionExists(name));
      }
      collections := collections[name := Collection(dim, if shardCount > 1 then shardCount else 1, map[])];
      r := Ok(());
    }

    /** Rejects the whole batch if one dimension is wrong; otherwise the last record of each id wins. */
    method InsertRecords(name: string, records: seq<VectorRecord>) returns (r: Result<nat>)
      requires Valid()
      modifies this
      ensures Valid() && (collections, r) == InsertInto(fp, old(collections), name, records)
    {
      OperationsKeepOk(fp, collections, name, records, [], 0, 0);
      if name !in collections {
        return Err(CollectionNotFound(name));
      }
      var coll := collections[name];
      var bad := CheckDims(coll.dim, records);
      if bad.Some? {
        return Err(DimensionMismatch(coll.dim, bad.value));
      }
      var vectors := UpsertRecords(fp, coll.vectors, records);
      collections := collections[name := coll.(vectors := vectors)];
      r := Ok(|records|);
    }

    /** Counts the ids that were really there. */
    method DeleteIds(name: string, ids: seq<U64>) returns (r: Result<nat>)
      requires Valid()
      modifies this
      ensures Valid() && (collections, r) == DeleteFrom(old(collections), name, ids)
    {
      OperationsKeepOk(fp, collections, name, [], ids, 0, 0);
      if name !in collections {
        return Err(CollectionNotFound(name));
      }
      var coll := collections[name];
      var vectors, deleted := RemoveIds(coll.vectors, ids);
      collections := collections[name := coll.(vectors := vectors)];
      r := Ok(deleted);
    }

    /** Exact top-k by true cosine, for every iteration order of the map and every scan schedule. */
    method SearchCollection(name: string, query: seq<F32>, k: nat, how: Schedule) returns (r: Result<seq<ScoredId>>)
      requires Valid()
      ensures r == SearchStore(fp, collections, name, query, k)
    {
      if name !in collections {
        return Err(CollectionNotFound(name));
      }
      var coll := collections[name];
      if |query| != coll.dim {
        return Err(DimensionMismatch(coll.dim, |query|));
      }
      var entries, ids := CollectValues(coll.vectors);
      ScanScores(fp, coll.dim, coll.vectors, entries, ids, coll.vectors.Keys, query);
      var result := BruteForceTopK(fp, entries, query, k, how);
      r := Ok(result);
    }

    method GetMetadata(name: string, id: U64) returns (r: Option<Metadata>)
      ensures r == match Lookup(collections, name, id) case Some(v) => Some(v.record.metadata) case None => None
    {
      if name in collections && id in collections[name].vectors {
        return Some(collections[name].vectors[id].record.metadata);
      }
      r := None;
    }

    /** Names every collection once and counts all records. Wrapping each u32 addition or
        the final sum is the same (`Numeric.WrappingSum`). */
    method ClusterStatus() returns (names: seq<string>, total: U32)
      ensures Lists(names, collections.Keys)
      ensures total == AsU32(TotalSize(collections))
    {
      names := CollectNames(collections.Keys);
      var sum := 0;
      for i := 0 to |names|
        invariant sum == SizeOf(collections, names[..i])
      {
        sum := sum + |collections[names[i]].vectors|;
        assert names[..i + 1][..i] == names[..i];
      }
      assert names[..|names|] == names;
      SizeIsTotal(collections, names);
      total := AsU32(sum);
    }

    method TakeStoreSnapshot() returns (snap: Snapshot)
      requires Valid()
      ensures snap == TakeSnapshot(collections)
    {
      snap := map[];
      var rest := collections.Keys;
      while rest != {}
        invariant rest <= collections.Keys
        invariant snap == TakeSnapshot(collections - rest)
        decreases rest
      {
        var name :| name in rest;
        var coll := collections[name];
        var records := SnapshotVectors(fp, coll.dim, coll.vectors);
        snap := snap[name := CollectionSnapshot(coll.dim, coll.shardCount, records)];
        rest := rest - {name};
        assert collections - rest == (collections - (rest + {name}))[name := coll];
      }
      assert collections - rest == collections;
    }

    /** Replaces everything; norms are recomputed, not shipped. */
    method RestoreSnapshot(snap: Snapshot)
      modifies this
      ensures collections.Keys == snap.Keys
      ensures forall name :: name in snap ==> RestoredCollection(fp, snap[name], collections[name])
      ensures SnapshotOk(snap) ==> Valid() && collections == Restore(fp, snap)
    {
      collections := map[];
      var rest := snap.Keys;
      while rest != {}
        invariant rest <= snap.Keys && collections.Keys == snap.Keys - rest
        invariant forall name :: name in collections ==> RestoredCollection(fp, snap[name], collections[name])
        decreases rest
      {
        var name :| name in rest;
        var vectors := RestoreVectors(fp, snap[name].vectors);
        collections := collections[name := Collection(snap[name].dim, snap[name].shardCount, vectors)];
        rest := rest - {name};
      }
      if SnapshotOk(snap) {
        RestoreIsUnique(fp, snap, collections);
      }
    }
  }

  method CollectNames(keys: set<string>) returns (names: seq<string>)
    ensures Lists(names, keys)
  {
    names := [];
    var rest := keys;
    while rest != {}
      invariant rest <= keys && Lists(names, keys - rest)
      decreases rest
    {
      var name :| name in rest;
      names := names + [name];
      rest := rest - {name};
    }
    assert keys - rest == keys;
  }

  function SizeOf(st: Collections, names: seq<string>): nat
    requires forall name :: name in names ==> name in st
  {
    if names == [] then 0 else SizeOf(st, names[..|names| - 1]) + |st[names[|names| - 1]].vectors|
  }

  lemma {:induction false} SizeIsTotal(st: Collections, names: seq<string>)
    requires Lists(names, st.Keys)
    ensures SizeOf(st, names) == TotalSize(st)
  {
    if names == [] {
      assert st == map[];
    } else {
      var n := |names| - 1;
      assert names == names[..n] + [names[n]];
      var st' := st - {names[n]};
      SizeIsTotal(st', names[..n]);
      SizeLocal(st', st, names[..n]);
      TotalSizeRemove(st, names[n]);
    }
  }

  lemma {:induction false} SizeLocal(a: Collections, b: Collections, names: seq<string>)
    requires forall name :: name in names ==> name in a && name in b && a[name] == b[name]
    ensures SizeOf(a, names) == SizeOf(b, names)
  {
    if names != [] {
      SizeLocal(a, b, names[..|names| - 1]);
    }
  }

  method SnapshotVectors(fp: Arith, dim: nat, vectors: Vectors) returns (records: map<U64, VectorRecord>)
    requires VectorsOk(fp, dim, vectors)
    ensures records == RecordsOf(vectors)
  {
    records := map[];
    var rest := vectors.Keys;
    while rest != {}
      invariant rest <= vectors.Keys
      invariant records == RecordsOf(vectors - rest)
      decreases rest
    {
      var id :| id in rest;
      var record := vectors[id].record;
      records := records[record.id := record];
      rest := rest - {id};
    }
    assert vectors - rest == vectors;
  }

  /** `vectors` holds the records under their own ids with fresh norms. If two snapshot entries
      carry the same record id, either may be the one that stays. */
  ghost predicate RestoredVectors(fp: Arith, records: map<U64, VectorRecord>, vectors: Vectors) {
    && (forall id :: id in vectors ==>
          && vectors[id].record.id == id
          && vectors[id] == Stored(fp, vectors[id].record)
          && exists key :: key in records && records[key] == vectors[id].record)
    && (forall key :: key in records ==> records[key].id in vectors)
  }

  ghost predicate RestoredCollection(fp: Arith, snap: CollectionSnapshot, coll: Collection) {
    coll.dim == snap.dim && coll.shardCount == snap.shardCount && RestoredVectors(fp, snap.vectors, coll.vectors)
  }

  lemma RestoreIsUnique(fp: Arith, snap: Snapshot, st: Collections)
    requires SnapshotOk(snap) && st.Keys == snap.Keys
    requires forall name :: name in snap ==> RestoredCollection(fp, snap[name], st[name])
    ensures st == Restore(fp, snap) && StoreOk(fp, st)
  {
    forall name | name in snap
      ensures st[name].vectors == Restored(fp, snap[name].vectors)
      ensures VectorsOk(fp, st[name].dim, st[name].vectors)
    {
      assert RestoredCollection(fp, snap[name], st[name]);
    }
  }

  method RestoreVectors(fp: Arith, records: map<U64, VectorRecord>) returns (vectors: Vectors)
    ensures RestoredVectors(fp, records, vectors)
  {
    vectors := map[];
    var rest := records.Keys;
    while rest != {}
      invariant rest <= records.Keys
      invariant RestoredVectors(fp, records - rest, vectors)
      decreases rest
    {
      var key :| key in rest;
      var record := records[key];
      var normSq := ComputeNormSq(fp, record.embedding);
      ghost var before, done := vectors, records - rest;
      vectors := vectors[record.id := StoredVector(record, normSq)];
      rest := rest - {key};
      RestoreStep(fp, done, before, key, record);
      assert records - rest == done[key := record];
    }
    assert records - rest == records;
  }

  lemma RestoreStep(fp: Arith, records: map<U64, VectorRecord>, vectors: Vectors, key: U64, record: VectorRecord)
    requires RestoredVectors(fp, records, vectors) && key !in records
    ensures RestoredVectors(fp, records[key := record], vectors[record.id := Stored(fp, record)])
  {
    var vectors' := vectors[record.id := Stored(fp, record)];
    var records' := records[key := record];
    forall id | id in vectors' ensures exists k :: k in records' && records'[k] == vectors'[id].record {
      if id == record.id {
        assert records'[key] == record;
      } else {
        var k :| k in records && records[k] == vectors[id].record;
        assert records'[k] == records[k];
      }
    }
  }
}
