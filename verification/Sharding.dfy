/** Hash routing: which shard owns an id, and how a request is split into per-shard commands. */
module Sharding {
  import opened Numeric
  import opened Record
  import opened Seqs
  import opened StoreSpec
  import opened Replay

  /** The hash is uninterpreted: every result holds for every function of the id. */
  type Hash = U64 -> U64

  function ShardId(hash: Hash, id: U64, n: nat): (s: nat)
    requires n > 0
    ensures s < n
  {
    hash(id) % n
  }

  /** The shard is the remainder of the hash: id goes to shard s exactly when its hash is s above a multiple of n. */
  lemma ShardIsRemainder(hash: Hash, id: U64, n: nat, q: nat, s: nat)
    requires n > 0 && s < n && hash(id) == q * n + s
    ensures ShardId(hash, id, n) == s
  {
    RemainderUnique(hash(id) / n, hash(id) % n, q, s, n);
  }

  lemma RemainderUnique(p: nat, r: nat, q: nat, s: nat, n: nat)
    requires r < n && s < n && p * n + r == q * n + s
    ensures r == s
  {
    if p < q {
      MultiplesApart(p, q, n);
    } else if q < p {
      MultiplesApart(q, p, n);
    }
  }

  lemma {:induction false} MultiplesApart(p: nat, q: nat, n: nat)
    requires p < q
    ensures p * n + n <= q * n
    decreases q
  {
    assert q * n == (q - 1) * n + n;
    if p < q - 1 {
      MultiplesApart(p, q - 1, n);
    }
  }

  /** The items one shard receives, in their original order. */
  function Group<T>(hash: Hash, n: nat, key: T -> U64, items: seq<T>, s: nat): seq<T>
    requires n > 0
  {
    if items == [] then [] else
      var last := items[|items| - 1];
      var before := Group(hash, n, key, items[..|items| - 1], s);
      if ShardId(hash, key(last), n) == s then before + [last] else before
  }

  function Groups<T>(hash: Hash, n: nat, key: T -> U64, items: seq<T>): seq<seq<T>>
    requires n > 0
  {
    seq(n, s requires 0 <= s < n => Group(hash, n, key, items, s))
  }

  method GroupByShard<T>(hash: Hash, n: nat, key: T -> U64, items: seq<T>) returns (groups: seq<seq<T>>)
    requires n > 0
    ensures groups == Groups(hash, n, key, items)
  {
    groups := seq(n, _ => []);
    for i := 0 to |items|
      invariant groups == Groups(hash, n, key, items[..i])
    {
      var shard := ShardId(hash, key(items[i]), n);
      groups := groups[shard := groups[shard] + [items[i]]];
      GroupsSnoc(hash, n, key, items, i);
    }
    assert items[..|items|] == items;
  }

  lemma GroupsSnoc<T>(hash: Hash, n: nat, key: T -> U64, items: seq<T>, i: nat)
    requires n > 0 && i < |items|
    ensures var s := ShardId(hash, key(items[i]), n);
      var before := Groups(hash, n, key, items[..i]);
      Groups(hash, n, key, items[..i + 1]) == before[s := before[s] + [items[i]]]
  {
    assert items[..i + 1][..i] == items[..i];
  }

  /** The split is a partition: together the groups hold exactly the items. */
  lemma {:induction false} GroupsLoseNothing<T>(hash: Hash, n: nat, key: T -> U64, items: seq<T>)
    requires n > 0
    ensures multiset(Flatten(Groups(hash, n, key, items))) == multiset(items)
  {
    if items == [] {
      FlattenEmpties(Groups(hash, n, key, items));
    } else {
      var i := |items| - 1;
      GroupsLoseNothing(hash, n, key, items[..i]);
      GroupsSnoc(hash, n, key, items, i);
      FlattenPush(Groups(hash, n, key, items[..i]), ShardId(hash, key(items[i]), n), items[i]);
      WholeIsSnoc(items);
    }
  }

  lemma WholeIsSnoc<T>(items: seq<T>)
    requires items != []
    ensures var i := |items| - 1;
      items[..i + 1] == items && multiset(items) == multiset(items[..i]) + multiset{items[i]}
  {
    assert items == items[..|items| - 1] + [items[|items| - 1]];
  }

  /** So the group sizes, which the router adds up for its reply, make the request's size. */
  lemma GroupSizesAddUp<T>(hash: Hash, n: nat, key: T -> U64, items: seq<T>)
    requires n > 0
    ensures |Flatten(Groups(hash, n, key, items))| == |items|
  {
    GroupsLoseNothing(hash, n, key, items);
    assert |Flatten(Groups(hash, n, key, items))| == |multiset(Flatten(Groups(hash, n, key, items)))|;
    assert |items| == |multiset(items)|;
  }

  lemma {:induction false} FlattenEmpties<T>(lists: seq<seq<T>>)
    requires forall i :: 0 <= i < |lists| ==> lists[i] == []
    ensures Flatten(lists) == []
  {
    if lists != [] {
      FlattenEmpties(lists[1..]);
    }
  }

  lemma {:induction false} FlattenPush<T>(lists: seq<seq<T>>, s: nat, x: T)
    requires s < |lists|
    ensures multiset(Flatten(lists[s := lists[s] + [x]])) == multiset(Flatten(lists)) + multiset{x}
  {
    var pushed := lists[s := lists[s] + [x]];
    if s == 0 {
      assert pushed[1..] == lists[1..];
    } else {
      FlattenPush(lists[1..], s - 1, x);
      assert pushed[1..] == lists[1..][s - 1 := lists[1..][s - 1] + [x]];
    }
  }

  // ---- Routed commands ----

  function RecordKey(): VectorRecord -> U64 {
    (r: VectorRecord) => r.id
  }

  function IdKey(): U64 -> U64 {
    (id: U64) => id
  }

  /** The part of a request that goes to shard s. */
  function ShardCommand(hash: Hash, n: nat, cmd: Command, s: nat): Command
    requires n > 0
  {
    match cmd
    case Upsert(name, records) => Upsert(name, Group(hash, n, RecordKey(), records, s))
    case Delete(name, ids) => Delete(name, Group(hash, n, IdKey(), ids, s))
  }

  /** The items that go to one of the shards in `at`. */
  function Destined<T>(hash: Hash, n: nat, key: T -> U64, items: seq<T>, at: set<nat>): seq<T>
    requires n > 0
  {
    if items == [] then [] else
      var last := items[|items| - 1];
      var before := Destined(hash, n, key, items[..|items| - 1], at);
      if ShardId(hash, key(last), n) in at then before + [last] else before
  }

  /** What is left of a request when only the shards in `at` committed their part. */
  function SubCommand(hash: Hash, n: nat, cmd: Command, at: set<nat>): Command
    requires n > 0
  {
    match cmd
    case Upsert(name, records) => Upsert(name, Destined(hash, n, RecordKey(), records, at))
    case Delete(name, ids) => Delete(name, Destined(hash, n, IdKey(), ids, at))
  }

  lemma {:induction false} GroupOfDestined<T>(hash: Hash, n: nat, key: T -> U64, items: seq<T>, at: set<nat>, s: nat)
    requires n > 0
    ensures Group(hash, n, key, Destined(hash, n, key, items, at), s)
         == if s in at then Group(hash, n, key, items, s) else []
  {
    if items != [] {
      var init, last := items[..|items| - 1], items[|items| - 1];
      GroupOfDestined(hash, n, key, init, at, s);
      var kept := Destined(hash, n, key, items, at);
      if ShardId(hash, key(last), n) in at {
        assert kept[..|kept| - 1] == Destined(hash, n, key, init, at);
      }
    }
  }

  lemma {:induction false} DestinedAll<T>(hash: Hash, n: nat, key: T -> U64, items: seq<T>, at: set<nat>)
    requires n > 0 && forall s: nat :: s < n ==> s in at
    ensures Destined(hash, n, key, items, at) == items
  {
    if items != [] {
      DestinedAll(hash, n, key, items[..|items| - 1], at);
    }
  }

  /** Routing what is left gives the same parts to the shards that committed and nothing to the others;
      a request every shard committed is left whole. */
  lemma SubCommandParts(hash: Hash, n: nat, cmd: Command, at: set<nat>, s: nat)
    requires n > 0
    ensures s in at ==> ShardCommand(hash, n, SubCommand(hash, n, cmd, at), s) == ShardCommand(hash, n, cmd, s)
    ensures s !in at ==> IsEmpty(ShardCommand(hash, n, SubCommand(hash, n, cmd, at), s))
    ensures (forall t: nat :: t < n ==> t in at) ==> SubCommand(hash, n, cmd, at) == cmd
  {
    match cmd
    case Upsert(_, records) =>
      GroupOfDestined(hash, n, RecordKey(), records, at, s);
      if forall t: nat :: t < n ==> t in at {
        DestinedAll(hash, n, RecordKey(), records, at);
      }
    case Delete(_, ids) =>
      GroupOfDestined(hash, n, IdKey(), ids, at, s);
      if forall t: nat :: t < n ==> t in at {
        DestinedAll(hash, n, IdKey(), ids, at);
      }
  }

  predicate IsEmpty(cmd: Command) {
    match cmd
    case Upsert(_, records) => records == []
    case Delete(_, ids) => ids == []
  }

  /** The cluster accepts or rejects the request as a whole, like one node: either all dimensions
      are right, or every shard that receives records receives a wrong one. */
  ghost predicate Uniform(hash: Hash, n: nat, dim: nat, cmd: Command)
    requires n > 0
  {
    cmd.Upsert? && !DimsOk(dim, cmd.records) ==>
      forall s: nat :: s < n ==>
        var part := ShardCommand(hash, n, cmd, s);
        IsEmpty(part) || !DimsOk(dim, part.records)
  }

  lemma {:induction false} DestinedMembers<T>(hash: Hash, n: nat, key: T -> U64, items: seq<T>, at: set<nat>)
    requires n > 0
    ensures forall x :: x in Destined(hash, n, key, items, at) <==> x in items && ShardId(hash, key(x), n) in at
  {
    if items != [] {
      var init, last := items[..|items| - 1], items[|items| - 1];
      DestinedMembers(hash, n, key, init, at);
      assert items == init + [last];
    }
  }

  /** A request that all its shards treat alike is treated alike by any of them. */
  lemma UniformShrinks(hash: Hash, n: nat, dim: nat, cmd: Command, at: set<nat>, fewer: set<nat>)
    requires n > 0 && fewer <= at && Uniform(hash, n, dim, SubCommand(hash, n, cmd, at))
    ensures Uniform(hash, n, dim, SubCommand(hash, n, cmd, fewer))
  {
    var sub, less := SubCommand(hash, n, cmd, at), SubCommand(hash, n, cmd, fewer);
    if cmd.Upsert? && !DimsOk(dim, less.records) {
      var i :| 0 <= i < |less.records| && |less.records[i].embedding| != dim;
      DestinedMembers(hash, n, RecordKey(), cmd.records, at);
      DestinedMembers(hash, n, RecordKey(), cmd.records, fewer);
      assert less.records[i] in sub.records;
      forall s: nat | s < n
        ensures var part := ShardCommand(hash, n, less, s); IsEmpty(part) || !DimsOk(dim, part.records)
      {
        SubCommandParts(hash, n, cmd, at, s);
        SubCommandParts(hash, n, cmd, fewer, s);
      }
    }
  }

  lemma {:induction false} DestinedAlike<T>(hash: Hash, n: nat, key: T -> U64, items: seq<T>, a: set<nat>, b: set<nat>)
    requires n > 0 && forall x :: x in items ==> (ShardId(hash, key(x), n) in a <==> ShardId(hash, key(x), n) in b)
    ensures Destined(hash, n, key, items, a) == Destined(hash, n, key, items, b)
  {
    if items != [] {
      DestinedAlike(hash, n, key, items[..|items| - 1], a, b);
    }
  }

  /** Only shards that receive something matter. */
  lemma SubCommandAlike(hash: Hash, n: nat, cmd: Command, a: set<nat>, b: set<nat>)
    requires n > 0
    requires forall s: nat :: s < n && !IsEmpty(ShardCommand(hash, n, cmd, s)) ==> (s in a <==> s in b)
    ensures SubCommand(hash, n, cmd, a) == SubCommand(hash, n, cmd, b)
  {
    match cmd
    case Upsert(_, records) =>
      forall x | x in records
        ensures ShardId(hash, RecordKey()(x), n) in a <==> ShardId(hash, RecordKey()(x), n) in b
      {
        GroupMembers(hash, n, RecordKey(), records, ShardId(hash, RecordKey()(x), n));
        assert !IsEmpty(ShardCommand(hash, n, cmd, ShardId(hash, RecordKey()(x), n)));
      }
      DestinedAlike(hash, n, RecordKey(), records, a, b);
    case Delete(_, ids) =>
      forall x | x in ids ensures ShardId(hash, IdKey()(x), n) in a <==> ShardId(hash, IdKey()(x), n) in b {
        GroupMembers(hash, n, IdKey(), ids, ShardId(hash, IdKey()(x), n));
        assert !IsEmpty(ShardCommand(hash, n, cmd, ShardId(hash, IdKey()(x), n)));
      }
      DestinedAlike(hash, n, IdKey(), ids, a, b);
  }

  lemma {:induction false} GroupMembers<T>(hash: Hash, n: nat, key: T -> U64, items: seq<T>, s: nat)
    requires n > 0
    ensures forall x :: x in Group(hash, n, key, items, s) <==> x in items && ShardId(hash, key(x), n) == s
  {
    if items != [] {
      var init, last := items[..|items| - 1], items[|items| - 1];
      GroupMembers(hash, n, key, init, s);
      assert items == init + [last];
    }
  }

  /** Splitting keeps, for each id, the last record of the batch with that id. */
  lemma {:induction false} GroupKeepsLast(hash: Hash, n: nat, records: seq<VectorRecord>, s: nat, id: U64)
    requires n > 0
    ensures LastRecord(Group(hash, n, RecordKey(), records, s), id)
         == if ShardId(hash, id, n) == s then LastRecord(records, id) else None
  {
    if records != [] {
      var init, last := records[..|records| - 1], records[|records| - 1];
      GroupKeepsLast(hash, n, init, s, id);
      var g := Group(hash, n, RecordKey(), records, s);
      assert RecordKey()(last) == last.id;
      if ShardId(hash, last.id, n) == s {
        assert g[..|g| - 1] == Group(hash, n, RecordKey(), init, s);
      }
    }
  }

  lemma GroupDims(hash: Hash, n: nat, records: seq<VectorRecord>, s: nat, dim: nat)
    requires n > 0 && DimsOk(dim, records)
    ensures DimsOk(dim, Group(hash, n, RecordKey(), records, s))
  {
    var g := Group(hash, n, RecordKey(), records, s);
    GroupMembers(hash, n, RecordKey(), records, s);
    forall i | 0 <= i < |g| ensures |g[i].embedding| == dim {
      assert g[i] in g;
    }
  }

  /** A shard's part of a uniform request writes to an owned id what the whole request writes, and nothing else. */
  lemma RoutedWrite(fp: Arith, hash: Hash, n: nat, dim: nat, cmd: Command, s: nat, name: string, id: U64)
    requires n > 0 && s < n && (cmd.collection == name ==> Uniform(hash, n, dim, cmd))
    ensures Write(fp, dim, ShardCommand(hash, n, cmd, s), name, id)
         == if ShardId(hash, id, n) == s then Write(fp, dim, cmd, name, id) else None
  {
    match cmd
    case Upsert(_, records) =>
      GroupKeepsLast(hash, n, records, s, id);
      if DimsOk(dim, records) {
        GroupDims(hash, n, records, s, dim);
      }
    case Delete(_, ids) =>
      GroupMembers(hash, n, IdKey(), ids, s);
  }
}
