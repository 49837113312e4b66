/** The collections and the vector count the cluster reports. */
module ClusterStatus {
  import opened Numeric
  import opened Seqs
  import opened StoreSpec
  import opened Replay
  import opened Sharding
  import opened Cluster

  /** What one replica reports: its collections' names and its number of records. */
  datatype StatusReply = StatusReply(collections: seq<string>, vectorCount: U32)

  /** Sum of the replies, one per shard; a shard none of whose replicas answered counts 0. */
  function SumReplies(replies: seq<Option<StatusReply>>): nat {
    if replies == [] then 0 else
      var last := replies[|replies| - 1];
      SumReplies(replies[..|replies| - 1]) + if last.Some? then last.value.vectorCount else 0
  }

  /** Some answering shard reports the name. */
  ghost predicate Reported(replies: seq<Option<StatusReply>>, name: string) {
    exists s :: 0 <= s < |replies| && replies[s].Some? && name in replies[s].value.collections
  }

  method GatherStatus(replies: seq<Option<StatusReply>>) returns (names: set<string>, total: U32)
    ensures total == AsU32(SumReplies(replies))
    ensures forall name :: name in names <==> Reported(replies, name)
  {
    names, total := {}, 0;
    for i := 0 to |replies|
      invariant total == AsU32(SumReplies(replies[..i]))
      invariant forall name :: name in names <==> Reported(replies[..i], name)
    {
      assert replies[..i + 1][..i] == replies[..i];
      forall name
        ensures Reported(replies[..i + 1], name)
           <==> Reported(replies[..i], name) || (replies[i].Some? && name in replies[i].value.collections)
      {
        ReportedSnoc(replies, i, name);
      }
      if replies[i].Some? {
        AddReply(SumReplies(replies[..i]), replies[i].value.vectorCount);
        names := names + set name | name in replies[i].value.collections;
        total := WrappingAdd(total, replies[i].value.vectorCount);
      }
    }
    assert replies[..|replies|] == replies;
  }

  lemma ReportedSnoc(replies: seq<Option<StatusReply>>, i: nat, name: string)
    requires i < |replies|
    ensures Reported(replies[..i + 1], name)
       <==> Reported(replies[..i], name) || (replies[i].Some? && name in replies[i].value.collections)
  {
    if Reported(replies[..i], name) {
      var s :| 0 <= s < i && replies[..i][s].Some? && name in replies[..i][s].value.collections;
      assert replies[..i + 1][s] == replies[..i][s];
    }
    if Reported(replies[..i + 1], name) {
      var s :| 0 <= s < i + 1 && replies[..i + 1][s].Some? && name in replies[..i + 1][s].value.collections;
      if s < i {
        assert replies[..i][s] == replies[..i + 1][s];
      }
    }
    assert replies[..i + 1][i] == replies[i];
  }

  lemma AddReply(sum: nat, reply: U32)
    ensures WrappingAdd(AsU32(sum), reply) == AsU32(sum + reply)
  {
    WrappingSum(sum, reply);
  }

  function SumOf(xs: seq<nat>): nat {
    if xs == [] then 0 else SumOf(xs[..|xs| - 1]) + xs[|xs| - 1]
  }

  lemma {:induction false} SumOfSums(a: seq<nat>, b: seq<nat>, c: seq<nat>)
    requires |a| == |b| == |c| && forall i :: 0 <= i < |a| ==> a[i] == b[i] + c[i]
    ensures SumOf(a) == SumOf(b) + SumOf(c)
  {
    if a != [] {
      var n := |a| - 1;
      SumOfSums(a[..n], b[..n], c[..n]);
    }
  }

  lemma {:induction false} SumOfZeros(a: seq<nat>)
    requires forall i :: 0 <= i < |a| ==> a[i] == 0
    ensures SumOf(a) == 0
  {
    if a != [] {
      SumOfZeros(a[..|a| - 1]);
    }
  }

  ghost function OwnedSizes(hash: Hash, n: nat, keys: set<U64>, m: nat): seq<nat>
    requires n > 0
  {
    seq(m, s requires 0 <= s < m => |Owned(hash, n, keys, s)|)
  }

  lemma {:induction false} OwnedBelow(hash: Hash, n: nat, keys: set<U64>, m: nat)
    requires n > 0
    ensures SumOf(OwnedSizes(hash, n, keys, m)) == |set id | id in keys && ShardId(hash, id, n) < m|
  {
    var below := set id | id in keys && ShardId(hash, id, n) < m;
    if m == 0 {
      assert below == {};
    } else {
      OwnedBelow(hash, n, keys, m - 1);
      var before := set id | id in keys && ShardId(hash, id, n) < m - 1;
      assert below == before + Owned(hash, n, keys, m - 1);
      assert OwnedSizes(hash, n, keys, m)[..m - 1] == OwnedSizes(hash, n, keys, m - 1);
    }
  }

  lemma OwnedAddUp(hash: Hash, n: nat, keys: set<U64>)
    requires n > 0
    ensures SumOf(OwnedSizes(hash, n, keys, n)) == |keys|
  {
    OwnedBelow(hash, n, keys, n);
    assert (set id | id in keys && ShardId(hash, id, n) < n) == keys;
  }

  /** `st` holds, of every collection of `one`, the ids shard s owns. */
  ghost predicate SliceOf(hash: Hash, n: nat, st: Collections, one: Collections, s: nat)
    requires n > 0
  {
    && st.Keys == one.Keys
    && forall name :: name in one ==> st[name].vectors.Keys == Owned(hash, n, one[name].vectors.Keys, s)
  }

  ghost predicate Slices(hash: Hash, n: nat, stores: seq<Collections>, one: Collections)
    requires n > 0
  {
    |stores| == n && forall s :: 0 <= s < n ==> SliceOf(hash, n, stores[s], one, s)
  }

  ghost function Sizes(stores: seq<Collections>): seq<nat> {
    seq(|stores|, s requires 0 <= s < |stores| => TotalSize(stores[s]))
  }

  ghost function Without(stores: seq<Collections>, name: string): seq<Collections> {
    seq(|stores|, s requires 0 <= s < |stores| => stores[s] - {name})
  }

  lemma SliceStep(hash: Hash, n: nat, st: Collections, one: Collections, s: nat, name: string)
    requires n > 0 && SliceOf(hash, n, st, one, s) && name in one
    ensures SliceOf(hash, n, st - {name}, one - {name}, s)
    ensures TotalSize(st) == TotalSize(st - {name}) + |Owned(hash, n, one[name].vectors.Keys, s)|
  {
    TotalSizeRemove(st, name);
    assert |st[name].vectors| == |st[name].vectors.Keys|;
  }

  /** Splitting a store by owner neither loses nor duplicates a record. */
  lemma {:induction false} SlicesAddUp(hash: Hash, n: nat, stores: seq<Collections>, one: Collections)
    requires n > 0 && Slices(hash, n, stores, one)
    ensures SumOf(Sizes(stores)) == TotalSize(one)
    decreases |one|
  {
    if one == map[] {
      forall s | 0 <= s < n ensures Sizes(stores)[s] == 0 {
        assert SliceOf(hash, n, stores[s], one, s);
        assert stores[s] == map[];
      }
      SumOfZeros(Sizes(stores));
    } else {
      var name :| name in one;
      var rest := Without(stores, name);
      forall s | 0 <= s < n
        ensures SliceOf(hash, n, rest[s], one - {name}, s)
        ensures Sizes(stores)[s] == Sizes(rest)[s] + |Owned(hash, n, one[name].vectors.Keys, s)|
      {
        SliceStep(hash, n, stores[s], one, s, name);
      }
      SlicesAddUp(hash, n, rest, one - {name});
      SumOfSums(Sizes(stores), Sizes(rest), OwnedSizes(hash, n, one[name].vectors.Keys, n));
      OwnedAddUp(hash, n, one[name].vectors.Keys);
      SoloStep(one, name);
    }
  }

  lemma SoloStep(one: Collections, name: string)
    requires name in one
    ensures TotalSize(one) == TotalSize(one - {name}) + |one[name].vectors.Keys|
  {
    TotalSizeRemove(one, name);
    assert |one[name].vectors| == |one[name].vectors.Keys|;
  }

  /** The reply of a replica that holds `st`. */
  ghost predicate ReportsStore(reply: Option<StatusReply>, st: Collections) {
    reply.Some? && Lists(reply.value.collections, st.Keys) && reply.value.vectorCount == AsU32(TotalSize(st))
  }

  /** What is left of a store without the ids of the shards that did not answer. */
  ghost function Answering(hash: Hash, n: nat, one: Collections, replies: seq<Option<StatusReply>>): Collections
    requires n > 0 && |replies| == n
  {
    map name | name in one :: one[name].(vectors := AnsweringIn(hash, n, one[name].vectors, replies))
  }

  ghost function AnsweringIn(hash: Hash, n: nat, vectors: Vectors, replies: seq<Option<StatusReply>>): Vectors
    requires n > 0 && |replies| == n
  {
    map id | id in vectors && replies[ShardId(hash, id, n)].Some? :: vectors[id]
  }

  /** A shard's store as the report counts it: nothing if the shard did not answer. */
  ghost function Counted(st: Collections, reply: Option<StatusReply>): Collections {
    if reply.Some? then st else map name | name in st :: st[name].(vectors := map[])
  }

  lemma {:induction false} EmptiesCountNothing(st: Collections)
    requires forall name :: name in st ==> st[name].vectors == map[]
    ensures TotalSize(st) == 0
    decreases |st|
  {
    if st != map[] {
      var name :| name in st;
      TotalSizeRemove(st, name);
      assert (st - {name}).Keys == st.Keys - {name};
      EmptiesCountNothing(st - {name});
    }
  }

  lemma CountedSlice(hash: Hash, n: nat, st: Collections, one: Collections, replies: seq<Option<StatusReply>>, s: nat)
    requires n > 0 && s < n == |replies| && SliceOf(hash, n, st, one, s)
    ensures SliceOf(hash, n, Counted(st, replies[s]), Answering(hash, n, one, replies), s)
    ensures replies[s].None? ==> TotalSize(Counted(st, replies[s])) == 0
  {
    var some, part := Answering(hash, n, one, replies), Counted(st, replies[s]);
    forall name | name in some ensures part[name].vectors.Keys == Owned(hash, n, some[name].vectors.Keys, s) {
      assert st[name].vectors.Keys == Owned(hash, n, one[name].vectors.Keys, s);
    }
    if replies[s].None? {
      EmptiesCountNothing(part);
    }
  }

  /** With every answering shard caught up, the report counts, modulo 2^32, the single store's records without those
      of the shards that did not answer, and names its collections if any shard did. */
  lemma ClusterStatusExact(fp: Arith, hash: Hash, n: nat, base: Collections, solo: Collections, history: seq<Event>,
                           replies: seq<Option<StatusReply>>)
    requires n > 0 && FreshPair(base, solo) && Orderly(fp, hash, n, base, history) && |replies| == n
    requires forall s :: 0 <= s < n && replies[s].Some? ==>
      ReportsStore(replies[s], ShardStore(fp, hash, n, base, history, s))
    ensures var one := SoloStore(fp, hash, n, solo, history);
      && AsU32(SumReplies(replies)) == AsU32(TotalSize(Answering(hash, n, one, replies)))
      && (forall name :: Reported(replies, name) <==> name in one && exists s :: 0 <= s < n && replies[s].Some?)
      && ((forall s :: 0 <= s < n ==> replies[s].Some?) ==> Answering(hash, n, one, replies) == one)
  {
    var one := SoloStore(fp, hash, n, solo, history);
    var stores := seq(n, s requires 0 <= s < n => ShardStore(fp, hash, n, base, history, s));
    forall s | 0 <= s < n ensures SliceOf(hash, n, stores[s], one, s) {
      ShardSlices(fp, hash, n, base, solo, history, s);
    }
    ReportCounts(hash, n, stores, one, replies);
    ReportNames(hash, n, stores, one, replies);
    if forall s :: 0 <= s < n ==> replies[s].Some? {
      AllAnswering(hash, n, one, replies);
    }
  }

  lemma ReportCounts(hash: Hash, n: nat, stores: seq<Collections>, one: Collections, replies: seq<Option<StatusReply>>)
    requires n > 0 && |replies| == n && Slices(hash, n, stores, one)
    requires forall s :: 0 <= s < n && replies[s].Some? ==> ReportsStore(replies[s], stores[s])
    ensures AsU32(SumReplies(replies)) == AsU32(TotalSize(Answering(hash, n, one, replies)))
  {
    var counted := seq(n, s requires 0 <= s < n => Counted(stores[s], replies[s]));
    forall s | 0 <= s < n
      ensures SliceOf(hash, n, counted[s], Answering(hash, n, one, replies), s)
      ensures if replies[s].None? then Sizes(counted)[s] == 0
              else replies[s].value.vectorCount == AsU32(Sizes(counted)[s])
    {
      CountedSlice(hash, n, stores[s], one, replies, s);
      assert replies[s].Some? ==> ReportsStore(replies[s], stores[s]);
    }
    SlicesAddUp(hash, n, counted, Answering(hash, n, one, replies));
    RepliesAddUp(Sizes(counted), replies);
  }

  lemma ReportNames(hash: Hash, n: nat, stores: seq<Collections>, one: Collections, replies: seq<Option<StatusReply>>)
    requires n > 0 && |replies| == n && Slices(hash, n, stores, one)
    requires forall s :: 0 <= s < n && replies[s].Some? ==> ReportsStore(replies[s], stores[s])
    ensures forall name :: Reported(replies, name) <==> name in one && exists s :: 0 <= s < n && replies[s].Some?
  {
    forall s | 0 <= s < n && replies[s].Some?
      ensures forall name :: name in replies[s].value.collections <==> name in one
    {
      assert SliceOf(hash, n, stores[s], one, s) && ReportsStore(replies[s], stores[s]);
    }
  }

  lemma AllAnswering(hash: Hash, n: nat, one: Collections, replies: seq<Option<StatusReply>>)
    requires n > 0 && |replies| == n && forall s :: 0 <= s < n ==> replies[s].Some?
    ensures Answering(hash, n, one, replies) == one
  {
    forall name | name in one ensures AnsweringIn(hash, n, one[name].vectors, replies) == one[name].vectors {
    }
  }

  lemma ShardSlices(fp: Arith, hash: Hash, n: nat, base: Collections, solo: Collections, history: seq<Event>, s: nat)
    requires n > 0 && s < n && FreshPair(base, solo) && Orderly(fp, hash, n, base, history)
    ensures SliceOf(hash, n, ShardStore(fp, hash, n, base, history, s), SoloStore(fp, hash, n, solo, history), s)
  {
    RunKeepsSchema(fp, solo, Requests(hash, n, history));
    RunKeepsSchema(fp, base, ShardLog(hash, n, history, s));
    forall name | name in solo
      ensures ShardStore(fp, hash, n, base, history, s)[name].vectors.Keys
           == Owned(hash, n, SoloStore(fp, hash, n, solo, history)[name].vectors.Keys, s)
    {
      ShardSlice(fp, hash, n, base, solo, history, s, name);
    }
  }

  lemma {:induction false} RepliesAddUp(sizes: seq<nat>, replies: seq<Option<StatusReply>>)
    requires |sizes| == |replies|
    requires forall s :: 0 <= s < |sizes| ==>
      if replies[s].Some? then replies[s].value.vectorCount == AsU32(sizes[s]) else sizes[s] == 0
    ensures AsU32(SumReplies(replies)) == AsU32(SumOf(sizes))
  {
    if sizes != [] {
      var n := |sizes| - 1;
      RepliesAddUp(sizes[..n], replies[..n]);
      AddSizes(SumReplies(replies[..n]), SumOf(sizes[..n]), sizes[n]);
    }
  }

  lemma AddSizes(a: nat, b: nat, c: nat)
    requires AsU32(a) == AsU32(b)
    ensures AsU32(a + AsU32(c)) == AsU32(b + c)
  {
    WrappingSum(a, AsU32(c));
    WrappingSum(b, c);
  }
}
