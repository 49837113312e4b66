/** The sharded cluster refines one store: same contents, same search answers, over whole histories. */
module Cluster {
  import opened Numeric
  import opened Record
  import opened Seqs
  import opened StoreSpec
  import opened Replay
  import opened Sharding
  import opened TopKSpec
  import opened Merge

  // ---- Histories ----

  /** One thing that happens to the logs. A request is committed by the shards in `at`: all it was routed to when it
      succeeds, only some when the router reports an error. A call whose reply was lost may be retried after it had
      committed, at any later time: `of` is the request's place in the history, `shard` the one that logs it again. */
  datatype Event = Request(cmd: Command, at: set<nat>) | Copy(of: nat, shard: nat)

  /** What one store would replay: every request once, as far as it was committed. */
  function Requests(hash: Hash, n: nat, history: seq<Event>): seq<Command>
    requires n > 0
  {
    if history == [] then [] else
      var before := Requests(hash, n, history[..|history| - 1]);
      match history[|history| - 1]
      case Request(cmd, at) => before + [SubCommand(hash, n, cmd, at)]
      case Copy(_, _) => before
  }

  /** Shard s committed a (non-empty) part of the request at place i. */
  predicate Logged(hash: Hash, n: nat, history: seq<Event>, i: nat, s: nat)
    requires n > 0
  {
    i < |history| && history[i].Request? && s in history[i].at && !IsEmpty(ShardCommand(hash, n, history[i].cmd, s))
  }

  /** What shard s logs. */
  function ShardLog(hash: Hash, n: nat, history: seq<Event>, s: nat): seq<Command>
    requires n > 0
  {
    if history == [] then [] else
      var m := |history| - 1;
      var before := ShardLog(hash, n, history[..m], s);
      match history[m]
      case Request(cmd, _) =>
        if Logged(hash, n, history, m, s) then before + [ShardCommand(hash, n, cmd, s)] else before
      case Copy(of, shard) =>
        if shard == s && of < m && Logged(hash, n, history, of, s)
        then before + [ShardCommand(hash, n, history[of].cmd, s)] else before
  }

  /** What shard s logged after place i and before place m. */
  function Since(hash: Hash, n: nat, history: seq<Event>, i: nat, m: nat, s: nat): seq<Command>
    requires n > 0 && i < m <= |history|
  {
    var log := ShardLog(hash, n, history[..m], s);
    var start := |ShardLog(hash, n, history[..i + 1], s)|;
    if start <= |log| then log[start..] else []
  }

  /** Every request is accepted or rejected by all its shards alike. */
  ghost predicate Routable(hash: Hash, n: nat, base: Collections, history: seq<Event>)
    requires n > 0
  {
    forall i :: 0 <= i < |history| && history[i].Request? && history[i].cmd.collection in base ==>
      Uniform(hash, n, base[history[i].cmd.collection].dim, SubCommand(hash, n, history[i].cmd, history[i].at))
  }

  /** The copy at place m, if it is one, finds nothing different written to its ids since the original. */
  ghost predicate CopyOk(fp: Arith, hash: Hash, n: nat, base: Collections, history: seq<Event>, m: nat)
    requires n > 0 && m < |history|
  {
    history[m].Copy? && history[m].of < m && Logged(hash, n, history, history[m].of, history[m].shard) ==>
      Agrees(fp, base, [ShardCommand(hash, n, history[history[m].of].cmd, history[m].shard)],
             Since(hash, n, history, history[m].of, m, history[m].shard))
  }

  ghost predicate Orderly(fp: Arith, hash: Hash, n: nat, base: Collections, history: seq<Event>)
    requires n > 0
  {
    Routable(hash, n, base, history) && forall m :: 0 <= m < |history| ==> CopyOk(fp, hash, n, base, history, m)
  }

  /** The single store and the shards hold the same collections with the same dimensions, all empty. */
  ghost predicate FreshPair(base: Collections, solo: Collections) {
    && base.Keys == solo.Keys
    && forall name :: name in base ==>
        base[name].dim == solo[name].dim && base[name].vectors == solo[name].vectors == map[]
  }

  lemma PrefixCopyOk(fp: Arith, hash: Hash, n: nat, base: Collections, history: seq<Event>, m: nat, k: nat)
    requires n > 0 && k < m <= |history| && CopyOk(fp, hash, n, base, history, k)
    ensures CopyOk(fp, hash, n, base, history[..m], k)
  {
    var e := history[k];
    if e.Copy? && e.of < k {
      assert history[..m][..k] == history[..k] && history[..m][..e.of + 1] == history[..e.of + 1];
    }
  }

  lemma PrefixOrderly(fp: Arith, hash: Hash, n: nat, base: Collections, history: seq<Event>, m: nat)
    requires n > 0 && m <= |history| && Orderly(fp, hash, n, base, history)
    ensures Orderly(fp, hash, n, base, history[..m])
  {
    forall k | 0 <= k < m ensures CopyOk(fp, hash, n, base, history[..m], k) {
      PrefixCopyOk(fp, hash, n, base, history, m, k);
    }
  }

  lemma {:induction false} LogGrows(hash: Hash, n: nat, history: seq<Event>, i: nat, m: nat, s: nat)
    requires n > 0 && i <= m <= |history|
    ensures ShardLog(hash, n, history[..i], s) <= ShardLog(hash, n, history[..m], s)
    decreases m
  {
    if i < m {
      LogGrows(hash, n, history, i, m - 1, s);
      assert history[..m][..m - 1] == history[..m - 1];
    }
  }

  /** A logged request sits right before what was logged since. */
  lemma LogSplits(hash: Hash, n: nat, history: seq<Event>, i: nat, m: nat, s: nat)
    requires n > 0 && i < m <= |history| && Logged(hash, n, history, i, s)
    ensures ShardLog(hash, n, history[..m], s)
         == ShardLog(hash, n, history[..i], s) + [ShardCommand(hash, n, history[i].cmd, s)]
          + Since(hash, n, history, i, m, s)
  {
    LogGrows(hash, n, history, i + 1, m, s);
    assert history[..i + 1][..i] == history[..i];
  }

  /** A shard's log and the whole history end with the same write for each id the shard owns, however often and
      however late parts were logged again; for other ids the shard writes nothing. */
  lemma {:induction false} ShardLogWrite(fp: Arith, hash: Hash, n: nat, base: Collections, history: seq<Event>,
                                         s: nat, name: string, id: U64)
    requires n > 0 && s < n && name in base && Orderly(fp, hash, n, base, history)
    ensures LastWrite(fp, base[name].dim, ShardLog(hash, n, history, s), name, id)
         == if ShardId(hash, id, n) != s then None
            else LastWrite(fp, base[name].dim, Requests(hash, n, history), name, id)
  {
    if history != [] {
      var m := |history| - 1;
      PrefixOrderly(fp, hash, n, base, history, m);
      ShardLogWrite(fp, hash, n, base, history[..m], s, name, id);
      if history[m].Request? {
        RequestWrite(fp, hash, n, base, history, s, name, id);
      } else {
        CopyWrite(fp, hash, n, base, history, s, name, id);
      }
    }
  }

  lemma RequestWrite(fp: Arith, hash: Hash, n: nat, base: Collections, history: seq<Event>,
                     s: nat, name: string, id: U64)
    requires n > 0 && s < n && name in base && Routable(hash, n, base, history)
    requires history != [] && history[|history| - 1].Request?
    ensures var m, dim := |history| - 1, base[name].dim;
      var w := Write(fp, dim, SubCommand(hash, n, history[m].cmd, history[m].at), name, id);
      && LastWrite(fp, dim, Requests(hash, n, history), name, id)
         == (if w.Some? then w else LastWrite(fp, dim, Requests(hash, n, history[..m]), name, id))
      && LastWrite(fp, dim, ShardLog(hash, n, history, s), name, id)
         == (if ShardId(hash, id, n) == s && w.Some? then w
             else LastWrite(fp, dim, ShardLog(hash, n, history[..m], s), name, id))
  {
    var m, dim := |history| - 1, base[name].dim;
    var sub := SubCommand(hash, n, history[m].cmd, history[m].at);
    var part := ShardCommand(hash, n, history[m].cmd, s);
    LastWriteSnoc(fp, dim, Requests(hash, n, history[..m]), sub, name, id);
    SubCommandParts(hash, n, history[m].cmd, history[m].at, s);
    RoutedWrite(fp, hash, n, dim, sub, s, name, id);
    if Logged(hash, n, history, m, s) {
      LastWriteSnoc(fp, dim, ShardLog(hash, n, history[..m], s), part, name, id);
    } else {
      EmptyWritesNothing(fp, dim, ShardCommand(hash, n, sub, s), name, id);
    }
  }

  lemma CopyWrite(fp: Arith, hash: Hash, n: nat, base: Collections, history: seq<Event>, s: nat, name: string, id: U64)
    requires n > 0 && s < n && name in base && history != [] && history[|history| - 1].Copy?
    requires CopyOk(fp, hash, n, base, history, |history| - 1)
    ensures LastWrite(fp, base[name].dim, ShardLog(hash, n, history, s), name, id)
         == LastWrite(fp, base[name].dim, ShardLog(hash, n, history[..|history| - 1], s), name, id)
  {
    var m, dim := |history| - 1, base[name].dim;
    var of := history[m].of;
    if history[m].shard == s && of < m && Logged(hash, n, history, of, s) {
      var part := ShardCommand(hash, n, history[of].cmd, s);
      var since := Since(hash, n, history, of, m, s);
      LogSplits(hash, n, history, of, m, s);
      LastWriteSnoc(fp, dim, ShardLog(hash, n, history[..m], s), part, name, id);
      LastWriteConcat(fp, dim, ShardLog(hash, n, history[..of], s) + [part], since, name, id);
      LastWriteSnoc(fp, dim, ShardLog(hash, n, history[..of], s), part, name, id);
      LastWriteSnoc(fp, dim, [], part, name, id);
      assert [] + [part] == [part];
    }
  }

  lemma EmptyWritesNothing(fp: Arith, dim: nat, cmd: Command, name: string, id: U64)
    requires IsEmpty(cmd)
    ensures Write(fp, dim, cmd, name, id) == None
  {
  }

  function ShardStore(fp: Arith, hash: Hash, n: nat, base: Collections, history: seq<Event>, s: nat): Collections
    requires n > 0
  {
    Run(fp, base, ShardLog(hash, n, history, s))
  }

  function SoloStore(fp: Arith, hash: Hash, n: nat, solo: Collections, history: seq<Event>): Collections
    requires n > 0
  {
    Run(fp, solo, Requests(hash, n, history))
  }

  /** One more late copy leaves its shard as it was exactly when nothing different was written to its ids since. */
  lemma LateCopyIff(fp: Arith, hash: Hash, n: nat, base: Collections, history: seq<Event>, of: nat, s: nat)
    requires n > 0 && of < |history| && Logged(hash, n, history, of, s)
    ensures ShardStore(fp, hash, n, base, history + [Copy(of, s)], s) == ShardStore(fp, hash, n, base, history, s)
       <==> CopyOk(fp, hash, n, base, history + [Copy(of, s)], |history|)
  {
    var longer, m := history + [Copy(of, s)], |history|;
    var part := ShardCommand(hash, n, history[of].cmd, s);
    assert longer[..m] == history == history[..m];
    assert longer[..of + 1] == history[..of + 1];
    LogSplits(hash, n, history, of, m, s);
    ReplayInvisibleIff(fp, base, ShardLog(hash, n, history[..of], s), [part], Since(hash, n, history, of, m, s));
  }

  /** What shard s holds under one id: what one store holds there if s owns the id, and nothing otherwise. */
  ghost predicate Partitioned(hash: Hash, n: nat, shard: Collections, one: Collections, s: nat, name: string)
    requires n > 0
  {
    forall id :: Lookup(shard, name, id) == if ShardId(hash, id, n) == s then Lookup(one, name, id) else None
  }

  /** In every reachable cluster state each record lives on the shard its id hashes to, with the
      content one store would hold, and on no other shard. */
  lemma ClusterPartition(fp: Arith, hash: Hash, n: nat, base: Collections, solo: Collections, history: seq<Event>,
                         s: nat, name: string)
    requires n > 0 && s < n && FreshPair(base, solo) && Orderly(fp, hash, n, base, history)
    ensures Partitioned(hash, n, ShardStore(fp, hash, n, base, history, s),
                        SoloStore(fp, hash, n, solo, history), s, name)
  {
    RunKeepsSchema(fp, base, ShardLog(hash, n, history, s));
    RunKeepsSchema(fp, solo, Requests(hash, n, history));
    if name in base {
      forall id
        ensures Lookup(ShardStore(fp, hash, n, base, history, s), name, id)
             == if ShardId(hash, id, n) == s then Lookup(SoloStore(fp, hash, n, solo, history), name, id) else None
      {
        ShardLogWrite(fp, hash, n, base, history, s, name, id);
        RunLookup(fp, base, ShardLog(hash, n, history, s), name, id);
        RunLookup(fp, solo, Requests(hash, n, history), name, id);
      }
    }
  }

  // ---- Batches with a wrong dimension ----

  function AllShards(n: nat): (all: set<nat>)
    ensures forall s: nat :: s in all <==> s < n
  {
    if n == 0 then {} else AllShards(n - 1) + {n - 1}
  }

  /** A batch committed by every shard it was routed to. */
  function OneBatch(n: nat, name: string, records: seq<VectorRecord>): seq<Event> {
    [Request(Upsert(name, records), AllShards(n))]
  }

  lemma OneBatchLogs(hash: Hash, n: nat, name: string, records: seq<VectorRecord>, s: nat)
    requires n > 0 && s < n
    ensures var history, part := OneBatch(n, name, records), ShardCommand(hash, n, Upsert(name, records), s);
      && Requests(hash, n, history) == [Upsert(name, records)]
      && ShardLog(hash, n, history, s) == if IsEmpty(part) then [] else [part]
  {
    var history := OneBatch(n, name, records);
    assert history[..0] == [];
    SubCommandParts(hash, n, Upsert(name, records), history[0].at, s);
  }

  /** For one batch the agreement holds exactly when the batch is uniform: a batch with a wrong
      dimension is otherwise half stored by the cluster and rejected by one node. */
  lemma UniformIsNecessary(fp: Arith, hash: Hash, n: nat, dim: nat, name: string, records: seq<VectorRecord>)
    requires n > 0
    ensures var base: Collections := map[name := Collection(dim, n, map[])];
      var history := OneBatch(n, name, records);
      (forall s: nat :: s < n ==>
        Partitioned(hash, n, ShardStore(fp, hash, n, base, history, s), SoloStore(fp, hash, n, base, history), s, name))
      <==> Uniform(hash, n, dim, Upsert(name, records))
  {
    var base: Collections := map[name := Collection(dim, n, map[])];
    var cmd := Upsert(name, records);
    var history := OneBatch(n, name, records);
    SubCommandParts(hash, n, cmd, history[0].at, 0);
    if Uniform(hash, n, dim, cmd) {
      forall s: nat | s < n
        ensures Partitioned(hash, n, ShardStore(fp, hash, n, base, history, s),
                            SoloStore(fp, hash, n, base, history), s, name)
      {
        ClusterPartition(fp, hash, n, base, base, history, s, name);
      }
    } else {
      var s: nat :| s < n && !IsEmpty(ShardCommand(hash, n, cmd, s))
        && DimsOk(dim, ShardCommand(hash, n, cmd, s).records);
      HalfStored(fp, hash, n, base, name, records, s);
    }
  }

  /** The single store already holds everything the command would write. */
  ghost predicate AlreadyHeld(fp: Arith, dim: nat, cmd: Command, one: Collections, name: string) {
    forall id :: Write(fp, dim, cmd, name, id).Some? ==>
      Lookup(one, name, id) == Overlay(None, Write(fp, dim, cmd, name, id))
  }

  lemma LongerOrderly(fp: Arith, hash: Hash, n: nat, base: Collections, history: seq<Event>, cmd: Command, at: set<nat>)
    requires n > 0 && Orderly(fp, hash, n, base, history)
    requires cmd.collection in base ==> Uniform(hash, n, base[cmd.collection].dim, SubCommand(hash, n, cmd, at))
    ensures Orderly(fp, hash, n, base, history + [Request(cmd, at)])
  {
    var longer := history + [Request(cmd, at)];
    forall k | 0 <= k < |longer| ensures CopyOk(fp, hash, n, base, longer, k) {
      if k < |history| {
        assert CopyOk(fp, hash, n, base, history, k);
        var e := history[k];
        if e.Copy? && e.of < k {
          assert longer[..k] == history[..k] && longer[..e.of + 1] == history[..e.of + 1];
        }
      }
    }
  }

  /** What a request that is not uniform does: nothing to the single store, its part to each shard. */
  lemma UnevenRequest(fp: Arith, hash: Hash, n: nat, base: Collections, solo: Collections, history: seq<Event>,
                      cmd: Command, at: set<nat>, s: nat, id: U64)
    requires n > 0 && s < n && FreshPair(base, solo) && cmd.collection in base
    requires !Uniform(hash, n, base[cmd.collection].dim, SubCommand(hash, n, cmd, at))
    ensures var longer, sub := history + [Request(cmd, at)], SubCommand(hash, n, cmd, at);
      var (name, dim) := (cmd.collection, base[cmd.collection].dim);
      var w := Write(fp, dim, ShardCommand(hash, n, sub, s), name, id);
      && Lookup(SoloStore(fp, hash, n, solo, longer), name, id)
         == Lookup(SoloStore(fp, hash, n, solo, history), name, id)
      && Lookup(ShardStore(fp, hash, n, base, longer, s), name, id)
         == Overlay(Lookup(ShardStore(fp, hash, n, base, history, s), name, id), w)
      && (w.Some? ==> w.value.Put? && ShardId(hash, id, n) == s)
  {
    var longer, sub, m := history + [Request(cmd, at)], SubCommand(hash, n, cmd, at), |history|;
    var name, dim := cmd.collection, base[cmd.collection].dim;
    assert longer[..m] == history;
    SubCommandParts(hash, n, cmd, at, s);
    GroupKeepsLast(hash, n, sub.records, s, id);
    RunLookup(fp, solo, Requests(hash, n, history), name, id);
    RunLookup(fp, solo, Requests(hash, n, longer), name, id);
    LastWriteSnoc(fp, dim, Requests(hash, n, history), sub, name, id);
    RunLookup(fp, base, ShardLog(hash, n, history, s), name, id);
    RunLookup(fp, base, ShardLog(hash, n, longer, s), name, id);
    LastWriteSnoc(fp, dim, ShardLog(hash, n, history, s), ShardCommand(hash, n, sub, s), name, id);
    if !Logged(hash, n, longer, m, s) {
      EmptyWritesNothing(fp, dim, ShardCommand(hash, n, sub, s), name, id);
    }
  }

  /** After any orderly history, one more request keeps the cluster a partition of the single store exactly when it is
      uniform, or what its accepted parts write is there already. */
  lemma OneMoreRequestIff(fp: Arith, hash: Hash, n: nat, base: Collections, solo: Collections, history: seq<Event>,
                          cmd: Command, at: set<nat>)
    requires n > 0 && FreshPair(base, solo) && Orderly(fp, hash, n, base, history) && cmd.collection in base
    ensures var longer, sub := history + [Request(cmd, at)], SubCommand(hash, n, cmd, at);
      var (name, dim) := (cmd.collection, base[cmd.collection].dim);
      (forall s: nat :: s < n ==>
        Partitioned(hash, n, ShardStore(fp, hash, n, base, longer, s), SoloStore(fp, hash, n, solo, longer), s, name))
      <==>
      (Uniform(hash, n, dim, sub) || forall s: nat :: s < n ==>
        AlreadyHeld(fp, dim, ShardCommand(hash, n, sub, s), SoloStore(fp, hash, n, solo, history), name))
  {
    var longer, sub := history + [Request(cmd, at)], SubCommand(hash, n, cmd, at);
    var name, dim := cmd.collection, base[cmd.collection].dim;
    if Uniform(hash, n, dim, sub) {
      LongerOrderly(fp, hash, n, base, history, cmd, at);
      forall s: nat | s < n
        ensures Partitioned(hash, n, ShardStore(fp, hash, n, base, longer, s),
                            SoloStore(fp, hash, n, solo, longer), s, name)
      {
        ClusterPartition(fp, hash, n, base, solo, longer, s, name);
      }
    } else {
      forall s: nat | s < n
        ensures Partitioned(hash, n, ShardStore(fp, hash, n, base, longer, s),
                            SoloStore(fp, hash, n, solo, longer), s, name)
           <==> AlreadyHeld(fp, dim, ShardCommand(hash, n, sub, s), SoloStore(fp, hash, n, solo, history), name)
      {
        UnevenShard(fp, hash, n, base, solo, history, cmd, at, s);
      }
    }
  }

  lemma UnevenShard(fp: Arith, hash: Hash, n: nat, base: Collections, solo: Collections, history: seq<Event>,
                    cmd: Command, at: set<nat>, s: nat)
    requires n > 0 && s < n && FreshPair(base, solo) && Orderly(fp, hash, n, base, history) && cmd.collection in base
    requires !Uniform(hash, n, base[cmd.collection].dim, SubCommand(hash, n, cmd, at))
    ensures var longer, sub := history + [Request(cmd, at)], SubCommand(hash, n, cmd, at);
      var (name, dim) := (cmd.collection, base[cmd.collection].dim);
      Partitioned(hash, n, ShardStore(fp, hash, n, base, longer, s), SoloStore(fp, hash, n, solo, longer), s, name)
      <==> AlreadyHeld(fp, dim, ShardCommand(hash, n, sub, s), SoloStore(fp, hash, n, solo, history), name)
  {
    var longer, sub := history + [Request(cmd, at)], SubCommand(hash, n, cmd, at);
    var name, dim, part := cmd.collection, base[cmd.collection].dim, ShardCommand(hash, n, sub, s);
    var before, after := SoloStore(fp, hash, n, solo, history), SoloStore(fp, hash, n, solo, longer);
    var shard, shard' := ShardStore(fp, hash, n, base, history, s), ShardStore(fp, hash, n, base, longer, s);
    ClusterPartition(fp, hash, n, base, solo, history, s, name);
    forall id
      ensures Lookup(shard', name, id) == (if ShardId(hash, id, n) == s then Lookup(after, name, id) else None)
         <==> (Write(fp, dim, part, name, id).Some? ==>
                 Lookup(before, name, id) == Overlay(None, Write(fp, dim, part, name, id)))
    {
      UnevenRequest(fp, hash, n, base, solo, history, cmd, at, s, id);
      assert Lookup(shard, name, id) == if ShardId(hash, id, n) == s then Lookup(before, name, id) else None;
    }
    if Partitioned(hash, n, shard', after, s, name) {
      forall id | Write(fp, dim, part, name, id).Some?
        ensures Lookup(before, name, id) == Overlay(None, Write(fp, dim, part, name, id))
      {
        assert Lookup(shard', name, id) == if ShardId(hash, id, n) == s then Lookup(after, name, id) else None;
      }
    }
  }

  /** A shard whose part is fine stores it although one node rejects the batch. */
  lemma HalfStored(fp: Arith, hash: Hash, n: nat, base: Collections, name: string, records: seq<VectorRecord>, s: nat)
    requires n > 0 && s < n && name in base && base[name].vectors == map[] && !DimsOk(base[name].dim, records)
    requires var part := ShardCommand(hash, n, Upsert(name, records), s);
      !IsEmpty(part) && DimsOk(base[name].dim, part.records)
    ensures var part := ShardCommand(hash, n, Upsert(name, records), s);
      var id := part.records[|part.records| - 1].id;
      && Lookup(ShardStore(fp, hash, n, base, OneBatch(n, name, records), s), name, id).Some?
      && Lookup(SoloStore(fp, hash, n, base, OneBatch(n, name, records)), name, id).None?
    ensures !Partitioned(hash, n, ShardStore(fp, hash, n, base, OneBatch(n, name, records), s),
                         SoloStore(fp, hash, n, base, OneBatch(n, name, records)), s, name)
  {
    var dim, cmd := base[name].dim, Upsert(name, records);
    var part := ShardCommand(hash, n, cmd, s);
    var id := part.records[|part.records| - 1].id;
    OneBatchLogs(hash, n, name, records, s);
    LastWriteSnoc(fp, dim, [], part, name, id);
    LastWriteSnoc(fp, dim, [], cmd, name, id);
    assert [] + [part] == [part] && [] + [cmd] == [cmd];
    RunLookup(fp, base, [part], name, id);
    RunLookup(fp, base, [cmd], name, id);
  }

  /** Two shards, an identity hash, and a batch whose second record has a wrong dimension: shard 0 keeps
      the first record, one node keeps none. */
  lemma HalfStoredExample(fp: Arith)
    ensures var records := [VectorRecord(0, [], map[]), VectorRecord(1, [ZERO], map[])];
      var hash: Hash := (id: U64) => id;
      && Lookup(ShardStore(fp, hash, 2, ONE_COLLECTION, OneBatch(2, "c", records), 0), "c", 0).Some?
      && Lookup(SoloStore(fp, hash, 2, ONE_COLLECTION, OneBatch(2, "c", records)), "c", 0).None?
  {
    var good, bad := VectorRecord(0, [], map[]), VectorRecord(1, [ZERO], map[]);
    var records := [good, bad];
    var hash: Hash := (id: U64) => id;
    assert records[..1] == [good] && [good][..0] == [];
    assert RecordKey()(good) == 0 && RecordKey()(bad) == 1;
    assert Group(hash, 2, RecordKey(), [], 0) == [];
    assert Group(hash, 2, RecordKey(), [good], 0) == [good];
    assert Group(hash, 2, RecordKey(), records, 0) == [good];
    assert |records[1].embedding| == 1;
    HalfStored(fp, hash, 2, ONE_COLLECTION, "c", records, 0);
  }

  // ---- Searching disjoint parts ----

  function Restrict(vectors: Vectors, keys: set<U64>): Vectors {
    map id | id in vectors && id in keys :: vectors[id]
  }

  function WithMetadata(vectors: Vectors, ranked: seq<ScoredId>): seq<ScoredRecord> {
    seq(|ranked|, i requires 0 <= i < |ranked| =>
      ScoredRecord(ranked[i].id, ranked[i].score,
                   if ranked[i].id in vectors then vectors[ranked[i].id].record.metadata else map[]))
  }

  /** A leader's reply to a search over one collection. */
  ghost function NodeAnswer(fp: Arith, vectors: Vectors, query: seq<F32>, k: nat): seq<ScoredRecord> {
    WithMetadata(vectors, Ranked(fp, vectors, query, k))
  }

  function UnionOf(keys: seq<set<U64>>): set<U64> {
    if keys == [] then {} else keys[0] + UnionOf(keys[1..])
  }

  ghost predicate Disjoint(keys: seq<set<U64>>) {
    forall i, j :: 0 <= i < j < |keys| ==> keys[i] !! keys[j]
  }

  ghost function Answers(fp: Arith, whole: Vectors, keys: seq<set<U64>>, query: seq<F32>, k: nat)
    : seq<seq<ScoredRecord>>
  {
    seq(|keys|, i requires 0 <= i < |keys| => NodeAnswer(fp, Restrict(whole, keys[i]), query, k))
  }

  ghost function PartScores(fp: Arith, whole: Vectors, keys: seq<set<U64>>, query: seq<F32>): seq<multiset<ScoredId>>
    requires forall i :: 0 <= i < |keys| ==> keys[i] <= whole.Keys
  {
    seq(|keys|, i requires 0 <= i < |keys| => multiset(ScoresOn(fp, whole, keys[i], query)))
  }

  lemma RestrictScores(fp: Arith, whole: Vectors, keys: set<U64>, query: seq<F32>)
    requires keys <= whole.Keys
    ensures Restrict(whole, keys).Keys == keys
    ensures ScoresOn(fp, Restrict(whole, keys), keys, query) == ScoresOn(fp, whole, keys, query)
  {
    assert Restrict(whole, keys).Keys == keys;
  }

  lemma {:induction false} UnionBelow(keys: seq<set<U64>>, all: set<U64>)
    requires forall i :: 0 <= i < |keys| ==> keys[i] <= all
    ensures UnionOf(keys) <= all
  {
    if keys != [] {
      UnionBelow(keys[1..], all);
    }
  }

  lemma {:induction false} DisjointFromUnion(keys: seq<set<U64>>, k: set<U64>)
    requires forall i :: 0 <= i < |keys| ==> k !! keys[i]
    ensures k !! UnionOf(keys)
  {
    if keys != [] {
      DisjointFromUnion(keys[1..], k);
    }
  }

  lemma ScoresOfUnion(fp: Arith, whole: Vectors, a: set<U64>, b: set<U64>, query: seq<F32>)
    requires a <= whole.Keys && b <= whole.Keys && a !! b
    ensures multiset(ScoresOn(fp, whole, a + b, query))
         == multiset(ScoresOn(fp, whole, a, query)) + multiset(ScoresOn(fp, whole, b, query))
  {
    var x, y := ScoresOn(fp, whole, a, query), ScoresOn(fp, whole, b, query);
    assert ScoresOn(fp, whole, a + b, query) == x + y;
    assert x !! y;
  }

  /** Disjoint parts score to disjoint pieces of the whole. */
  lemma {:induction false} ScoresAddUp(fp: Arith, whole: Vectors, keys: seq<set<U64>>, query: seq<F32>)
    requires Disjoint(keys) && forall i :: 0 <= i < |keys| ==> keys[i] <= whole.Keys
    ensures UnionOf(keys) <= whole.Keys
    ensures Sum(PartScores(fp, whole, keys, query)) == multiset(ScoresOn(fp, whole, UnionOf(keys), query))
  {
    UnionBelow(keys, whole.Keys);
    if keys == [] {
      assert ScoresOn(fp, whole, {}, query) == {};
    } else {
      ScoresAddUp(fp, whole, keys[1..], query);
      DisjointFromUnion(keys[1..], keys[0]);
      ScoresOfUnion(fp, whole, keys[0], UnionOf(keys[1..]), query);
      assert PartScores(fp, whole, keys, query)[1..] == PartScores(fp, whole, keys[1..], query);
    }
  }

  lemma ScoredOfAnswer(vectors: Vectors, ranked: seq<ScoredId>)
    ensures Scored(WithMetadata(vectors, ranked)) == ranked
  {
  }

  lemma ScoredConcat(a: seq<ScoredRecord>, b: seq<ScoredRecord>)
    ensures Scored(a + b) == Scored(a) + Scored(b)
  {
  }

  ghost function ListScores(lists: seq<seq<ScoredRecord>>): seq<multiset<ScoredId>> {
    seq(|lists|, i requires 0 <= i < |lists| => multiset(Scored(lists[i])))
  }

  lemma {:induction false} FlattenScores(lists: seq<seq<ScoredRecord>>)
    ensures multiset(Scored(Flatten(lists))) == Sum(ListScores(lists))
  {
    if lists != [] {
      FlattenScores(lists[1..]);
      assert ListScores(lists)[1..] == ListScores(lists[1..]);
      ScoredConcat(lists[0], Flatten(lists[1..]));
    }
  }

  /** The concatenated answers carry exactly the parts' own top-k scores. */
  lemma AnswersScore(fp: Arith, whole: Vectors, keys: seq<set<U64>>, query: seq<F32>, k: nat)
    requires forall i :: 0 <= i < |keys| ==> keys[i] <= whole.Keys
    ensures multiset(Scored(Flatten(Answers(fp, whole, keys, query, k))))
         == Sum(Truncations(PartScores(fp, whole, keys, query), k))
  {
    var answers := Answers(fp, whole, keys, query, k);
    FlattenScores(answers);
    forall i | 0 <= i < |keys|
      ensures multiset(Scored(answers[i])) == multiset(SortTruncate(PartScores(fp, whole, keys, query)[i], k))
    {
      AnswersScoreAt(fp, whole, keys, query, k, i);
    }
    assert ListScores(answers) == Truncations(PartScores(fp, whole, keys, query), k);
  }

  lemma AnswersScoreAt(fp: Arith, whole: Vectors, keys: seq<set<U64>>, query: seq<F32>, k: nat, i: nat)
    requires i < |keys| && forall i :: 0 <= i < |keys| ==> keys[i] <= whole.Keys
    ensures Scored(Answers(fp, whole, keys, query, k)[i]) == SortTruncate(PartScores(fp, whole, keys, query)[i], k)
  {
    AnswerScores(fp, whole, keys[i], query, k);
  }

  lemma AnswerScores(fp: Arith, whole: Vectors, keys: set<U64>, query: seq<F32>, k: nat)
    requires keys <= whole.Keys
    ensures Scored(NodeAnswer(fp, Restrict(whole, keys), query, k))
         == SortTruncate(multiset(ScoresOn(fp, whole, keys, query)), k)
  {
    RestrictScores(fp, whole, keys, query);
    ScoredOfAnswer(Restrict(whole, keys), Ranked(fp, Restrict(whole, keys), query, k));
  }

  /** Everything a part answers is a scored record of the whole, with its metadata. */
  lemma AnswerRecords(fp: Arith, whole: Vectors, keys: set<U64>, query: seq<F32>, k: nat, r: ScoredRecord)
    requires keys <= whole.Keys && r in NodeAnswer(fp, Restrict(whole, keys), query, k)
    ensures r.id in keys && r.metadata == whole[r.id].record.metadata
  {
    RestrictScores(fp, whole, keys, query);
    var answer := NodeAnswer(fp, Restrict(whole, keys), query, k);
    var i :| 0 <= i < |answer| && answer[i] == r;
    TruncationMember(multiset(ScoresOn(fp, whole, keys, query)), k, i);
  }

  lemma {:induction false} FlattenMember<T>(lists: seq<seq<T>>, x: T) returns (i: nat)
    requires x in Flatten(lists)
    ensures i < |lists| && x in lists[i]
  {
    if x in lists[0] {
      i := 0;
    } else {
      i := FlattenMember(lists[1..], x);
      i := i + 1;
    }
  }

  /** No id is ranked twice. */
  lemma RankedOnce(fp: Arith, whole: Vectors, ids: set<U64>, query: seq<F32>, ranked: seq<ScoredId>, j: nat, i: nat)
    requires ids <= whole.Keys && multiset(ranked) <= multiset(ScoresOn(fp, whole, ids, query)) && j < i < |ranked|
    ensures ranked[i].id in ids && ranked[j].id != ranked[i].id
  {
    assert ranked[j] in multiset(ranked) && ranked[i] in multiset(ranked);
    if ranked[j].id == ranked[i].id {
      TwoOccurrences(ranked, j, i);
    }
  }

  lemma AttachWhole(whole: Vectors, ranked: seq<ScoredId>, all: seq<ScoredRecord>)
    requires forall i, j :: 0 <= j < i < |ranked| ==> ranked[j].id != ranked[i].id
    requires forall i :: 0 <= i < |ranked| ==> ranked[i] in Scored(all)
    requires forall r :: r in all ==> r.id in whole && r.metadata == whole[r.id].record.metadata
    ensures Attach(ranked, MetadataOf(all)) == WithMetadata(whole, ranked)
  {
    forall i | 0 <= i < |ranked| ensures Attach(ranked, MetadataOf(all))[i] == WithMetadata(whole, ranked)[i] {
      AttachMeaning(ranked, MetadataOf(all), i);
      var a :| 0 <= a < |all| && Scored(all)[a] == ranked[i];
      assert all[a] in all;
      MetadataOfMeaning(all, ranked[i].id);
    }
  }

  /** The merge ranks what one scan over the union of the parts ranks. */
  lemma MergedRanking(fp: Arith, whole: Vectors, keys: seq<set<U64>>, query: seq<F32>, k: nat)
    requires Disjoint(keys) && forall i :: 0 <= i < |keys| ==> keys[i] <= whole.Keys
    ensures UnionOf(keys) <= whole.Keys
    ensures SortTruncate(multiset(Scored(Flatten(Answers(fp, whole, keys, query, k)))), k)
         == SortTruncate(multiset(ScoresOn(fp, whole, UnionOf(keys), query)), k)
  {
    AnswersScore(fp, whole, keys, query, k);
    MergeOfTruncations(PartScores(fp, whole, keys, query), k);
    ScoresAddUp(fp, whole, keys, query);
  }

  lemma RankedDistinct(fp: Arith, whole: Vectors, keys: set<U64>, query: seq<F32>, k: nat)
    requires keys <= whole.Keys
    ensures var ranked := SortTruncate(multiset(ScoresOn(fp, whole, keys, query)), k);
      forall i, j :: 0 <= j < i < |ranked| ==> ranked[j].id != ranked[i].id
  {
    var ranked := SortTruncate(multiset(ScoresOn(fp, whole, keys, query)), k);
    TruncationIsKept(multiset(ScoresOn(fp, whole, keys, query)), k);
    forall i, j | 0 <= j < i < |ranked| ensures ranked[j].id != ranked[i].id {
      RankedOnce(fp, whole, keys, query, ranked, j, i);
    }
  }

  lemma RankedFrom(all: seq<ScoredId>, k: nat)
    ensures var ranked := SortTruncate(multiset(all), k);
      forall i :: 0 <= i < |ranked| ==> ranked[i] in all
  {
    var ranked := SortTruncate(multiset(all), k);
    TruncationIsKept(multiset(all), k);
    forall i | 0 <= i < |ranked| ensures ranked[i] in all {
      assert ranked[i] in multiset(ranked);
    }
  }

  /** Merging the answers of disjoint parts gives what one scan over their union gives:
      ids, scores, order and metadata. */
  lemma MergedAnswers(fp: Arith, whole: Vectors, keys: seq<set<U64>>, query: seq<F32>, k: nat)
    requires Disjoint(keys) && forall i :: 0 <= i < |keys| ==> keys[i] <= whole.Keys
    ensures UnionOf(keys) <= whole.Keys
    ensures Merged(Answers(fp, whole, keys, query, k), k)
         == WithMetadata(whole, SortTruncate(multiset(ScoresOn(fp, whole, UnionOf(keys), query)), k))
  {
    var answers := Answers(fp, whole, keys, query, k);
    var all := Flatten(answers);
    MergedRanking(fp, whole, keys, query, k);
    RankedDistinct(fp, whole, UnionOf(keys), query, k);
    RankedFrom(Scored(all), k);
    forall r | r in all ensures r.id in whole && r.metadata == whole[r.id].record.metadata {
      var i := FlattenMember(answers, r);
      AnswerRecords(fp, whole, keys[i], query, k, r);
    }
    AttachWhole(whole, SortTruncate(multiset(Scored(all)), k), all);
  }

  // ---- Searching the cluster ----

  function Owned(hash: Hash, n: nat, keys: set<U64>, s: nat): set<U64>
    requires n > 0
  {
    set id | id in keys && ShardId(hash, id, n) == s
  }

  /** A shard's collection is the slice of the single store's collection that it owns. */
  lemma ShardSlice(fp: Arith, hash: Hash, n: nat, base: Collections, solo: Collections, history: seq<Event>,
                   s: nat, name: string)
    requires n > 0 && s < n && name in base && FreshPair(base, solo) && Orderly(fp, hash, n, base, history)
    ensures name in ShardStore(fp, hash, n, base, history, s) && name in SoloStore(fp, hash, n, solo, history)
    ensures var whole := SoloStore(fp, hash, n, solo, history)[name].vectors;
      ShardStore(fp, hash, n, base, history, s)[name].vectors == Restrict(whole, Owned(hash, n, whole.Keys, s))
  {
    var shard, one := ShardStore(fp, hash, n, base, history, s), SoloStore(fp, hash, n, solo, history);
    RunKeepsSchema(fp, base, ShardLog(hash, n, history, s));
    RunKeepsSchema(fp, solo, Requests(hash, n, history));
    ClusterPartition(fp, hash, n, base, solo, history, s, name);
    var part := Restrict(one[name].vectors, Owned(hash, n, one[name].vectors.Keys, s));
    forall id ensures (id in shard[name].vectors <==> id in part)
      && (id in part ==> shard[name].vectors[id] == part[id])
    {
      assert Lookup(shard, name, id) == if ShardId(hash, id, n) == s then Lookup(one, name, id) else None;
    }
  }

  /** The shards that answered, in order. */
  function Who(responses: seq<Option<seq<ScoredRecord>>>): seq<nat> {
    if responses == [] then [] else
      var n := |responses| - 1;
      if responses[n].Some? then Who(responses[..n]) + [n] else Who(responses[..n])
  }

  lemma {:induction false} WhoIncreases(responses: seq<Option<seq<ScoredRecord>>>)
    ensures forall j :: 0 <= j < |Who(responses)| ==>
      Who(responses)[j] < |responses| && responses[Who(responses)[j]].Some?
    ensures forall i, j :: 0 <= i < j < |Who(responses)| ==> Who(responses)[i] < Who(responses)[j]
  {
    if responses != [] {
      WhoIncreases(responses[..|responses| - 1]);
    }
  }

  lemma {:induction false} WhoIsComplete(responses: seq<Option<seq<ScoredRecord>>>, s: nat)
    requires s < |responses| && responses[s].Some?
    ensures s in Who(responses)
  {
    if s < |responses| - 1 {
      WhoIsComplete(responses[..|responses| - 1], s);
    }
  }

  lemma {:induction false} WhoSaid(responses: seq<Option<seq<ScoredRecord>>>, j: nat)
    requires j < |Who(responses)|
    ensures |Answered(responses)| == |Who(responses)|
    ensures var s := Who(responses)[j];
      s < |responses| && responses[s].Some? && Answered(responses)[j] == responses[s].value
  {
    var n := |responses| - 1;
    AnsweredCount(responses);
    AnsweredCount(responses[..n]);
    if j < |Who(responses[..n])| {
      WhoSaid(responses[..n], j);
    }
  }

  lemma {:induction false} AnsweredCount(responses: seq<Option<seq<ScoredRecord>>>)
    ensures |Answered(responses)| == |Who(responses)|
  {
    if responses != [] {
      AnsweredCount(responses[..|responses| - 1]);
    }
  }

  lemma WhoAnswered(responses: seq<Option<seq<ScoredRecord>>>)
    ensures |Answered(responses)| == |Who(responses)|
    ensures forall j :: 0 <= j < |Who(responses)| ==>
      var s := Who(responses)[j];
      s < |responses| && responses[s].Some? && Answered(responses)[j] == responses[s].value
    ensures forall i, j :: 0 <= i < j < |Who(responses)| ==> Who(responses)[i] < Who(responses)[j]
    ensures forall s :: 0 <= s < |responses| && responses[s].Some? ==> s in Who(responses)
  {
    AnsweredCount(responses);
    WhoIncreases(responses);
    forall j | 0 <= j < |Who(responses)| ensures Answered(responses)[j] == responses[Who(responses)[j]].value {
      WhoSaid(responses, j);
    }
    forall s | 0 <= s < |responses| && responses[s].Some? ensures s in Who(responses) {
      WhoIsComplete(responses, s);
    }
  }

  function OwnedLists(hash: Hash, n: nat, keys: set<U64>, who: seq<nat>): seq<set<U64>>
    requires n > 0
  {
    seq(|who|, j requires 0 <= j < |who| => Owned(hash, n, keys, who[j]))
  }

  /** The ids whose shard answered. */
  ghost function Reached(hash: Hash, n: nat, keys: set<U64>, responses: seq<Option<seq<ScoredRecord>>>): set<U64>
    requires n > 0 && |responses| == n
  {
    set id | id in keys && responses[ShardId(hash, id, n)].Some?
  }

  lemma {:induction false} UnionMember(keys: seq<set<U64>>, id: U64)
    ensures id in UnionOf(keys) <==> exists j :: 0 <= j < |keys| && id in keys[j]
  {
    if keys != [] {
      UnionMember(keys[1..], id);
      assert forall j :: 0 < j < |keys| ==> keys[j] == keys[1..][j - 1];
    }
  }

  lemma OwnedUnion(hash: Hash, n: nat, keys: set<U64>, responses: seq<Option<seq<ScoredRecord>>>)
    requires n > 0 && |responses| == n
    ensures UnionOf(OwnedLists(hash, n, keys, Who(responses))) == Reached(hash, n, keys, responses)
  {
    var who := Who(responses);
    var lists := OwnedLists(hash, n, keys, who);
    WhoAnswered(responses);
    forall id ensures id in UnionOf(lists) <==> id in Reached(hash, n, keys, responses) {
      UnionMember(lists, id);
      if id in Reached(hash, n, keys, responses) {
        var j :| 0 <= j < |who| && who[j] == ShardId(hash, id, n);
        assert id in lists[j];
      }
    }
  }

  /** What a leader finds for a search: the store's verdict, with metadata added to a ranking. */
  ghost function NodeReply(fp: Arith, st: Collections, name: string, query: seq<F32>, k: nat)
    : Result<seq<ScoredRecord>>
  {
    var found := SearchStore(fp, st, name, query, k);
    if found.Err? then Err(found.error)
    else Ok(WithMetadata(if name in st then st[name].vectors else map[], found.value))
  }

  lemma ReplyIsAnswer(fp: Arith, st: Collections, name: string, query: seq<F32>, k: nat)
    ensures NodeReply(fp, st, name, query, k).Ok? <==> name in st && |query| == st[name].dim
    ensures NodeReply(fp, st, name, query, k).Ok? ==>
      NodeReply(fp, st, name, query, k).value == NodeAnswer(fp, st[name].vectors, query, k)
  {
  }

  /** Each response is the reply of a shard that holds what its log says; the others failed or timed out. */
  ghost predicate Truthful(fp: Arith, hash: Hash, n: nat, base: Collections, history: seq<Event>, name: string,
                           query: seq<F32>, k: nat, responses: seq<Option<seq<ScoredRecord>>>)
    requires n > 0
  {
    && |responses| == n
    && forall s :: 0 <= s < n && responses[s].Some? ==>
        NodeReply(fp, ShardStore(fp, hash, n, base, history, s), name, query, k) == Ok(responses[s].value)
  }

  /** Shards and single store know the same collections with the same dimensions. */
  lemma SameVerdict(fp: Arith, hash: Hash, n: nat, base: Collections, solo: Collections, history: seq<Event>,
                    name: string, query: seq<F32>, k: nat, s: nat)
    requires n > 0 && FreshPair(base, solo)
    ensures NodeReply(fp, ShardStore(fp, hash, n, base, history, s), name, query, k).Ok?
       <==> NodeReply(fp, SoloStore(fp, hash, n, solo, history), name, query, k).Ok?
    ensures NodeReply(fp, SoloStore(fp, hash, n, solo, history), name, query, k).Ok? ==> name in base
  {
    RunKeepsSchema(fp, base, ShardLog(hash, n, history, s));
    RunKeepsSchema(fp, solo, Requests(hash, n, history));
    ReplyIsAnswer(fp, ShardStore(fp, hash, n, base, history, s), name, query, k);
    ReplyIsAnswer(fp, SoloStore(fp, hash, n, solo, history), name, query, k);
  }

  lemma {:induction false} NothingAnswered(responses: seq<Option<seq<ScoredRecord>>>, k: nat)
    requires forall s :: 0 <= s < |responses| ==> responses[s].None?
    ensures Answered(responses) == [] && Merged([], k) == []
  {
    if responses != [] {
      NothingAnswered(responses[..|responses| - 1], k);
    }
    assert multiset(Scored([])) == multiset{};
  }

  /** After any orderly history, with any retries and any shards failing, the merged answer is the exact top-k, metadata
      included, of the records whose shards answered. With no shard failing it is the reply of one store replaying the
      same requests. A query one store rejects is answered by no shard and merges to nothing. */
  lemma ClusterSearchExact(fp: Arith, hash: Hash, n: nat, base: Collections, solo: Collections, history: seq<Event>,
                           name: string, query: seq<F32>, k: nat, responses: seq<Option<seq<ScoredRecord>>>)
    requires n > 0 && FreshPair(base, solo) && Orderly(fp, hash, n, base, history)
    requires Truthful(fp, hash, n, base, history, name, query, k, responses)
    ensures var one := SoloStore(fp, hash, n, solo, history);
      var reply := NodeReply(fp, one, name, query, k);
      var merged := Merged(Answered(responses), k);
      && (reply.Ok? ==> name in one && merged == ExactOver(fp, hash, n, one[name].vectors, query, k, responses))
      && (reply.Err? ==> merged == [] && forall s :: 0 <= s < n ==> responses[s].None?)
      && ((forall s :: 0 <= s < n ==> responses[s].Some?) ==> reply == Ok(merged))
  {
    var one := SoloStore(fp, hash, n, solo, history);
    forall s | 0 <= s < n
      ensures responses[s].Some? ==> NodeReply(fp, one, name, query, k).Ok?
    {
      SameVerdict(fp, hash, n, base, solo, history, name, query, k, s);
    }
    SameVerdict(fp, hash, n, base, solo, history, name, query, k, 0);
    ReplyIsAnswer(fp, one, name, query, k);
    if NodeReply(fp, one, name, query, k).Ok? {
      AcceptedSearchExact(fp, hash, n, base, solo, history, name, query, k, responses);
    } else {
      NothingAnswered(responses, k);
      assert responses[0].None?;
    }
  }

  /** The top-k of the records whose shard answered. */
  ghost function ExactOver(fp: Arith, hash: Hash, n: nat, whole: Vectors, query: seq<F32>, k: nat,
                           responses: seq<Option<seq<ScoredRecord>>>): seq<ScoredRecord>
    requires n > 0 && |responses| == n
  {
    WithMetadata(whole, SortTruncate(multiset(ScoresOn(fp, whole, Reached(hash, n, whole.Keys, responses), query)), k))
  }

  lemma AcceptedSearchExact(fp: Arith, hash: Hash, n: nat, base: Collections, solo: Collections, history: seq<Event>,
                            name: string, query: seq<F32>, k: nat, responses: seq<Option<seq<ScoredRecord>>>)
    requires n > 0 && name in base && FreshPair(base, solo) && Orderly(fp, hash, n, base, history)
    requires Truthful(fp, hash, n, base, history, name, query, k, responses)
    ensures name in SoloStore(fp, hash, n, solo, history)
    ensures var whole := SoloStore(fp, hash, n, solo, history)[name].vectors;
      && Merged(Answered(responses), k) == ExactOver(fp, hash, n, whole, query, k, responses)
      && ((forall s :: 0 <= s < n ==> responses[s].Some?) ==>
            Merged(Answered(responses), k) == NodeAnswer(fp, whole, query, k))
  {
    RunKeepsSchema(fp, solo, Requests(hash, n, history));
    var whole := SoloStore(fp, hash, n, solo, history)[name].vectors;
    var keys := OwnedLists(hash, n, whole.Keys, Who(responses));
    AnsweredSlices(fp, hash, n, base, solo, history, name, query, k, responses);
    MergedAnswers(fp, whole, keys, query, k);
    OwnedUnion(hash, n, whole.Keys, responses);
    if forall s :: 0 <= s < n ==> responses[s].Some? {
      assert Reached(hash, n, whole.Keys, responses) == whole.Keys;
    }
  }

  lemma AnsweredSlices(fp: Arith, hash: Hash, n: nat, base: Collections, solo: Collections, history: seq<Event>,
                       name: string, query: seq<F32>, k: nat, responses: seq<Option<seq<ScoredRecord>>>)
    requires n > 0 && name in base && FreshPair(base, solo) && Orderly(fp, hash, n, base, history)
    requires Truthful(fp, hash, n, base, history, name, query, k, responses)
    ensures name in SoloStore(fp, hash, n, solo, history)
    ensures var whole := SoloStore(fp, hash, n, solo, history)[name].vectors;
      var keys := OwnedLists(hash, n, whole.Keys, Who(responses));
      Disjoint(keys) && Answered(responses) == Answers(fp, whole, keys, query, k)
  {
    RunKeepsSchema(fp, solo, Requests(hash, n, history));
    var whole := SoloStore(fp, hash, n, solo, history)[name].vectors;
    var who := Who(responses);
    var keys := OwnedLists(hash, n, whole.Keys, who);
    WhoAnswered(responses);
    forall j | 0 <= j < |who| ensures Answered(responses)[j] == NodeAnswer(fp, Restrict(whole, keys[j]), query, k) {
      ShardSlice(fp, hash, n, base, solo, history, who[j], name);
      ReplyIsAnswer(fp, ShardStore(fp, hash, n, base, history, who[j]), name, query, k);
    }
  }

  /** A degraded answer still holds every true winner whose shard answered. */
  lemma DegradedKeepsWinners(fp: Arith, hash: Hash, n: nat, whole: Vectors, query: seq<F32>, k: nat,
                             responses: seq<Option<seq<ScoredRecord>>>, x: ScoredId)
    requires n > 0 && |responses| == n
    requires x in Ranked(fp, whole, query, k) && responses[ShardId(hash, x.id, n)].Some?
    ensures x in SortTruncate(multiset(ScoresOn(fp, whole, Reached(hash, n, whole.Keys, responses), query)), k)
  {
    var reached := Reached(hash, n, whole.Keys, responses);
    var all, part := ScoresOn(fp, whole, whole.Keys, query), ScoresOn(fp, whole, reached, query);
    var i :| 0 <= i < |Ranked(fp, whole, query, k)| && Ranked(fp, whole, query, k)[i] == x;
    TruncationMember(multiset(all), k, i);
    assert x in part;
    TruncationKeepsWinners(multiset(all), multiset(part), k, x);
  }
}
