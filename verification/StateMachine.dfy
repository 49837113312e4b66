/** The Raft state machine of one shard replica: entries, applied state, snapshots. */
module StateMachineSpec {
  import opened Numeric
  import opened StoreSpec
  import opened Replay
  import opened Seqs

  type NodeId = U64

  datatype LogId = LogId(term: U64, node: NodeId, index: nat)

  datatype Membership = Membership(nodes: map<NodeId, string>)

  datatype StoredMembership = StoredMembership(logId: Option<LogId>, membership: Membership)

  datatype Payload = Blank | Normal(cmd: Command) | Configure(membership: Membership)

  datatype Entry = Entry(logId: LogId, payload: Payload)

  /** Everything `apply` and `install_snapshot` change. */
  datatype Applied = Applied(store: Collections, lastApplied: Option<LogId>, lastMembership: StoredMembership)

  /** Applies one entry; every entry yields one response. */
  function ApplyOne(fp: Arith, s: Applied, e: Entry): (Applied, U32) {
    var labelled := s.(lastApplied := Some(e.logId));
    match e.payload
    case Blank => (labelled, 0)
    case Normal(cmd) =>
      var (store, count) := RunOne(fp, s.store, cmd);
      (labelled.(store := store), count)
    case Configure(m) => (labelled.(lastMembership := StoredMembership(Some(e.logId), m)), 0)
  }

  function ApplyAll(fp: Arith, s: Applied, entries: seq<Entry>): (r: (Applied, seq<U32>))
    ensures |r.1| == |entries|
  {
    if entries == [] then (s, []) else
      var (mid, counts) := ApplyAll(fp, s, entries[..|entries| - 1]);
      var (after, count) := ApplyOne(fp, mid, entries[|entries| - 1]);
      (after, counts + [count])
  }

  function StateAfter(fp: Arith, s: Applied, entries: seq<Entry>): Applied {
    ApplyAll(fp, s, entries).0
  }

  lemma {:induction false} ApplyTwo(fp: Arith, s: Applied, a: seq<Entry>, b: seq<Entry>)
    ensures var (mid, first) := ApplyAll(fp, s, a);
      var (after, second) := ApplyAll(fp, mid, b);
      ApplyAll(fp, s, a + b) == (after, first + second)
  {
    if b == [] {
      assert a + b == a;
      var (mid, first) := ApplyAll(fp, s, a);
      assert first + [] == first;
    } else {
      var init := b[..|b| - 1];
      ApplyTwo(fp, s, a, init);
      assert (a + b)[..|a + b| - 1] == a + init;
      var (mid, first) := ApplyAll(fp, s, a);
      var (after, second) := ApplyAll(fp, mid, b);
      assert second == ApplyAll(fp, mid, init).1 + [second[|b| - 1]];
      assert first + second == (first + ApplyAll(fp, mid, init).1) + [second[|b| - 1]];
    }
  }

  /** One `apply` call per batch: the final state, and the responses of each call. */
  function ApplyEach(fp: Arith, s: Applied, batches: seq<seq<Entry>>): (Applied, seq<seq<U32>>)
    decreases batches
  {
    if batches == [] then (s, []) else
      var (mid, first) := ApplyAll(fp, s, batches[0]);
      var (after, rest) := ApplyEach(fp, mid, batches[1..]);
      (after, [first] + rest)
  }

  /** However a committed log is cut into any number of apply batches, the calls together leave the state of one
      call and return its responses, in order. */
  lemma {:induction false} ApplyBatches(fp: Arith, s: Applied, batches: seq<seq<Entry>>)
    ensures var (after, responses) := ApplyEach(fp, s, batches);
      ApplyAll(fp, s, Flatten(batches)) == (after, Flatten(responses))
    decreases batches
  {
    if batches != [] {
      var (mid, first) := ApplyAll(fp, s, batches[0]);
      ApplyBatches(fp, mid, batches[1..]);
      ApplyTwo(fp, s, batches[0], Flatten(batches[1..]));
      var (_, rest) := ApplyEach(fp, mid, batches[1..]);
      assert ([first] + rest)[1..] == rest;
    }
  }

  /** The commands of a log, in order. */
  function Commands(entries: seq<Entry>): seq<Command> {
    if entries == [] then [] else
      var last := entries[|entries| - 1];
      Commands(entries[..|entries| - 1]) + if last.payload.Normal? then [last.payload.cmd] else []
  }

  function LastMembershipIn(s: StoredMembership, entries: seq<Entry>): StoredMembership {
    if entries == [] then s else
      var last := entries[|entries| - 1];
      if last.payload.Configure? then StoredMembership(Some(last.logId), last.payload.membership)
      else LastMembershipIn(s, entries[..|entries| - 1])
  }

  /** The applied state, part by part: the store replays the commands, the label is the last
      entry, the membership is the last one configured. */
  lemma AppliedParts(fp: Arith, s: Applied, entries: seq<Entry>)
    ensures var after := StateAfter(fp, s, entries);
      && after.store == Run(fp, s.store, Commands(entries))
      && after.lastApplied == (if entries == [] then s.lastApplied else Some(entries[|entries| - 1].logId))
      && after.lastMembership == LastMembershipIn(s.lastMembership, entries)
  {
    AppliedStore(fp, s, entries);
    AppliedMarks(fp, s, entries);
  }

  lemma {:induction false} AppliedStore(fp: Arith, s: Applied, entries: seq<Entry>)
    ensures StateAfter(fp, s, entries).store == Run(fp, s.store, Commands(entries))
  {
    if entries != [] {
      var init, last := entries[..|entries| - 1], entries[|entries| - 1];
      AppliedStore(fp, s, init);
      EntryEffect(fp, StateAfter(fp, s, init), last);
      if last.payload.Normal? {
        RunSnoc(fp, s.store, Commands(init), last.payload.cmd);
      } else {
        assert Commands(init) + [] == Commands(init);
      }
    }
  }

  lemma EntryEffect(fp: Arith, s: Applied, e: Entry)
    ensures ApplyOne(fp, s, e).0.store == if e.payload.Normal? then RunOne(fp, s.store, e.payload.cmd).0 else s.store
    ensures ApplyOne(fp, s, e).0.lastApplied == Some(e.logId)
    ensures ApplyOne(fp, s, e).0.lastMembership
         == if e.payload.Configure? then StoredMembership(Some(e.logId), e.payload.membership) else s.lastMembership
  {
  }

  lemma {:induction false} AppliedMarks(fp: Arith, s: Applied, entries: seq<Entry>)
    ensures StateAfter(fp, s, entries).lastApplied
         == if entries == [] then s.lastApplied else Some(entries[|entries| - 1].logId)
    ensures StateAfter(fp, s, entries).lastMembership == LastMembershipIn(s.lastMembership, entries)
  {
    if entries != [] {
      var init, last := entries[..|entries| - 1], entries[|entries| - 1];
      AppliedMarks(fp, s, init);
      EntryEffect(fp, StateAfter(fp, s, init), last);
    }
  }

  /** Every entry's response is what its own command applied to the store it met, and 0 for an entry without one. */
  lemma {:induction false} ResponseAt(fp: Arith, s: Applied, entries: seq<Entry>, i: nat)
    requires i < |entries|
    ensures ApplyAll(fp, s, entries).1[i]
         == match entries[i].payload
            case Normal(cmd) => RunOne(fp, Run(fp, s.store, Commands(entries[..i])), cmd).1
            case _ => 0
  {
    var n := |entries| - 1;
    if i < n {
      ResponseAt(fp, s, entries[..n], i);
      assert entries[..n][..i] == entries[..i];
    } else {
      AppliedStore(fp, s, entries[..n]);
    }
  }

  lemma {:induction false} ApplyKeepsOk(fp: Arith, s: Applied, entries: seq<Entry>)
    requires StoreOk(fp, s.store)
    ensures StoreOk(fp, StateAfter(fp, s, entries).store)
  {
    AppliedParts(fp, s, entries);
    RunKeepsOk(fp, s.store, Commands(entries));
  }

  // ---- Snapshots ----

  datatype RaftSnapshot = RaftSnapshot(lastLogId: Option<LogId>, lastMembership: StoredMembership, data: Snapshot)

  function Build(s: Applied): RaftSnapshot {
    RaftSnapshot(s.lastApplied, s.lastMembership, TakeSnapshot(s.store))
  }

  function Install(fp: Arith, snap: RaftSnapshot): Applied {
    Applied(Restore(fp, snap.data), snap.lastLogId, snap.lastMembership)
  }

  lemma InstallUndoesBuild(fp: Arith, s: Applied)
    requires StoreOk(fp, s.store)
    ensures Install(fp, Build(s)) == s
  {
    SnapshotRoundTrip(fp, s.store);
  }

  /** A snapshot taken atomically at any position stands in for the log before it: installing it
      and applying the rest gives the store, norms, label and membership of a full replay. */
  lemma SnapshotReplacesPrefix(fp: Arith, s: Applied, log: seq<Entry>, cut: nat)
    requires StoreOk(fp, s.store) && cut <= |log|
    ensures StateAfter(fp, Install(fp, Build(StateAfter(fp, s, log[..cut]))), log[cut..]) == StateAfter(fp, s, log)
  {
    ApplyKeepsOk(fp, s, log[..cut]);
    InstallUndoesBuild(fp, StateAfter(fp, s, log[..cut]));
    ApplyTwo(fp, s, log[..cut], log[cut..]);
    assert log[..cut] + log[cut..] == log;
  }
}

module StateMachine {
  import opened Numeric
  import opened StoreSpec
  import opened StateMachineSpec
  import Store

  class ShardStateMachine {
    const store: Store.Store
    var lastApplied: Option<LogId>
    var lastMembership: StoredMembership

    ghost predicate Valid()
      reads this, store
    {
      store.Valid()
    }

    ghost function State(): Applied
      reads this, store
    {
      Applied(store.collections, lastApplied, lastMembership)
    }

    constructor (store: Store.Store)
      requires store.Valid()
      ensures this.store == store && Valid()
      ensures State() == Applied(store.collections, None, StoredMembership(None, Membership(map[])))
    {
      this.store := store;
      lastApplied := None;
      lastMembership := StoredMembership(None, Membership(map[]));
    }

    method Apply(entries: seq<Entry>) returns (res: seq<U32>)
      requires Valid()
      modifies this, store
      ensures Valid() && (State(), res) == ApplyAll(store.fp, old(State()), entries)
    {
      res := [];
      for i := 0 to |entries|
        invariant Valid() && (State(), res) == ApplyAll(store.fp, old(State()), entries[..i])
      {
        assert entries[..i + 1][..i] == entries[..i];
        var count := ApplyEntry(entries[i]);
        res := res + [count];
      }
      assert entries[..|entries|] == entries;
    }

    /** One turn of the apply loop: the label is written first, then the payload takes effect. */
    method ApplyEntry(entry: Entry) returns (count: U32)
      requires Valid()
      modifies this, store
      ensures Valid() && (State(), count) == ApplyOne(store.fp, old(State()), entry)
    {
      lastApplied := Some(entry.logId);
      match entry.payload
      case Blank => count := 0;
      case Normal(Upsert(name, records)) =>
        var r := store.InsertRecords(name, records);
        count := AsU32(if r.Ok? then r.value else 0);
      case Normal(Delete(name, ids)) =>
        var r := store.DeleteIds(name, ids);
        count := AsU32(if r.Ok? then r.value else 0);
      case Configure(m) =>
        lastMembership := StoredMembership(Some(entry.logId), m);
        count := 0;
    }

    method BuildSnapshot() returns (snap: RaftSnapshot)
      requires Valid()
      ensures snap == Build(State())
    {
      var data := store.TakeStoreSnapshot();
      snap := RaftSnapshot(lastApplied, lastMembership, data);
    }

    /** `decoded` is what the received bytes decode to, if anything. */
    method InstallSnapshot(lastLogId: Option<LogId>, membership: StoredMembership, decoded: Option<Snapshot>)
      returns (ok: bool)
      modifies this, store
      ensures ok == decoded.Some?
      ensures !ok ==> State() == old(State())
      ensures ok ==> lastApplied == lastLogId && lastMembership == membership
      ensures ok ==> store.collections.Keys == decoded.value.Keys
      ensures ok ==> forall name :: name in decoded.value ==>
        Store.RestoredCollection(store.fp, decoded.value[name], store.collections[name])
      ensures ok && SnapshotOk(decoded.value) ==>
        Valid() && State() == Install(store.fp, RaftSnapshot(lastLogId, membership, decoded.value))
    {
      if decoded.None? {
        return false;
      }
      store.RestoreSnapshot(decoded.value);
      lastApplied := lastLogId;
      lastMembership := membership;
      ok := true;
    }
  }
}
