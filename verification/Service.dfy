/** What one replica replies to the router, and what its acknowledgements mean. */
module Service {
  import opened Numeric
  import opened Record
  import opened StoreSpec
  import opened Replay
  import opened StateMachineSpec
  import opened RetrySpec
  import opened Merge

  /** The replica's own belief about the group. */
  datatype Metrics = Metrics(currentLeader: Option<NodeId>, nodes: map<NodeId, string>)

  datatype Leadership = IAmLeader | Redirect(addr: string) | Unknown

  function LeadershipOf(m: Metrics, self: NodeId): Leadership {
    match m.currentLeader
    case Some(id) =>
      if id == self then IAmLeader
      else if id in m.nodes then Redirect(m.nodes[id])
      else Unknown
    case None => Unknown
  }

  function StatusOf(e: StoreError): Status {
    match e
    case CollectionExists(_) => "already_exists"
    case CollectionNotFound(_) => "not_found"
    case DimensionMismatch(_, _) => "invalid_argument"
  }

  /** A search reply. `confirmed` is the outcome of the quorum check; `found` the local search. */
  function SearchReply(m: Metrics, self: NodeId, confirmed: bool, found: Result<seq<ScoredRecord>>)
    : Outcome<seq<ScoredRecord>>
  {
    match LeadershipOf(m, self)
    case Redirect(addr) => Response(addr, [])
    case Unknown => Failed("unavailable")
    case IAmLeader =>
      if !confirmed then Failed("unavailable")
      else match found
        case Ok(results) => Response("", results)
        case Err(e) => Failed(StatusOf(e))
  }

  /** The leader this replica knows of is another node, recorded with an empty address. */
  predicate RedirectsNowhere(m: Metrics, self: NodeId) {
    && m.currentLeader.Some?
    && m.currentLeader.value != self
    && m.currentLeader.value in m.nodes
    && m.nodes[m.currentLeader.value] == ""
  }

  /** The router takes a reply for a served answer exactly when a confirmed leader searched, or when a
      follower redirects to a leader whose address is the empty string. */
  lemma SearchServedIff(m: Metrics, self: NodeId, confirmed: bool, found: Result<seq<ScoredRecord>>)
    ensures SearchReply(m, self, confirmed, found).Served()
       <==> (m.currentLeader == Some(self) && confirmed && found.Ok?) || RedirectsNowhere(m, self)
  {
  }

  /** Such a redirect reaches the merge as an answer without results, whatever the replica holds. */
  lemma EmptyRedirectExample(confirmed: bool, found: Result<seq<ScoredRecord>>)
    ensures var r := SearchReply(Metrics(Some(2), map[2 := ""]), 1, confirmed, found);
      r.Served() && r.body == []
  {
    SearchServedIff(Metrics(Some(2), map[2 := ""]), 1, confirmed, found);
  }

  /** With proper addresses, an answer the router merges comes from a confirmed leader's own search, and every other
      response is empty and carries the address of the other node known as leader. "unavailable" tells that no leader
      is known or the leader could not be confirmed. */
  lemma ServedByConfirmedLeader(m: Metrics, self: NodeId, confirmed: bool, found: Result<seq<ScoredRecord>>)
    requires forall id :: id in m.nodes ==> m.nodes[id] != ""
    ensures var r := SearchReply(m, self, confirmed, found);
      && (r.Served() <==> m.currentLeader == Some(self) && confirmed && found.Ok?)
      && (r.Served() ==> r.body == found.value)
      && (r.Response? && !r.Served() ==>
            && m.currentLeader.Some? && m.currentLeader.value != self && m.currentLeader.value in m.nodes
            && r.hint == m.nodes[m.currentLeader.value] && r.body == [])
      && (m.currentLeader.Some? && m.currentLeader.value != self && m.currentLeader.value in m.nodes ==> r.Response?)
      && (r == Failed("unavailable") <==>
            if m.currentLeader == Some(self) then !confirmed
            else m.currentLeader.None? || m.currentLeader.value !in m.nodes)
  {
    SearchServedIff(m, self, confirmed, found);
  }

  /** The reply to a second create of a name tells that it exists. */
  lemma RejectedCreateStatus(st: Collections, name: string, dim: nat, shardCount: nat)
    requires name in st
    ensures var r := CreateIn(st, name, dim, shardCount).1; r.Err? && StatusOf(r.error) == "already_exists"
  {
    CreateVerdict(st, name, dim, shardCount);
  }

  /** What replica i of a group believes and finds during attempt a. */
  datatype View = View(metrics: Metrics, confirmed: bool, found: Result<seq<ScoredRecord>>)

  /** Replica i either knows no leader, or the one at `leader` under its address. */
  predicate KnowsLeader(m: Metrics, addrs: seq<string>, selves: seq<NodeId>, i: nat, leader: nat)
    requires i < |selves| == |addrs| && leader < |addrs|
  {
    && m.currentLeader in {None, Some(selves[leader])} && selves[i] != selves[leader]
    && (selves[leader] in m.nodes ==> m.nodes[selves[leader]] == addrs[leader])
  }

  /** Replicas that know their leader or none behave as the router's retries need. */
  lemma SearchesReachLeader(addrs: seq<string>, selves: seq<NodeId>, views: (nat, nat) -> View, leader: nat)
    requires leader < |addrs| == |selves| && addrs[leader] != "" && AddrIndex(addrs, addrs[leader]) == Some(leader)
    requires forall a: nat :: var v := views(a, leader);
      v.metrics.currentLeader == Some(selves[leader]) && v.confirmed && v.found.Ok?
    requires forall a: nat, i: nat :: i < |addrs| && i != leader ==>
      KnowsLeader(views(a, i).metrics, addrs, selves, i, leader)
    ensures OneLeader(addrs, SearchEnv(selves, views), leader)
  {
    var env := SearchEnv(selves, views);
    forall a: nat, i: nat | i < |addrs|
      ensures env(a, i).Served() <==> i == leader
      ensures i != leader && env(a, i).Response? ==> AddrIndex(addrs, env(a, i).hint) in {Some(leader), None}
    {
      assert i != leader ==> KnowsLeader(views(a, i).metrics, addrs, selves, i, leader);
    }
  }

  function SearchEnv(selves: seq<NodeId>, views: (nat, nat) -> View): Env<seq<ScoredRecord>> {
    (a: nat, i: nat) =>
      if i >= |selves| then Elapsed
      else SearchReply(views(a, i).metrics, selves[i], views(a, i).confirmed, views(a, i).found)
  }

  /** How `client_write` ends. */
  datatype WriteOutcome = Committed(applied: U32) | ForwardToLeader(leader: Option<string>) | Broken

  function WriteReply(count: U32, w: WriteOutcome): Outcome<U32> {
    match w
    case Committed(_) => Response("", count)
    case ForwardToLeader(Some(addr)) => Response(addr, 0)
    case ForwardToLeader(None) => Failed("unavailable")
    case Broken => Failed("internal")
  }

  /** The router takes a write for done exactly when it was committed, or forwarded to an empty address. A forward to a
      known leader carries that leader's address, and every other outcome is an error. */
  lemma WriteServedIff(count: U32, w: WriteOutcome)
    ensures var r := WriteReply(count, w);
      && (r.Served() <==> w.Committed? || w == ForwardToLeader(Some("")))
      && (w.Committed? ==> r.body == count)
      && (forall addr :: w == ForwardToLeader(Some(addr)) ==> r.Response? && r.hint == addr)
      && (r.Failed? <==> w.Broken? || w == ForwardToLeader(None))
      && (r.Failed? ==> r.status == if w.Broken? then "internal" else "unavailable")
  {
  }

  function WriteEnv(count: U32, ends: (nat, nat) -> WriteOutcome): Env<U32> {
    (a: nat, i: nat) => WriteReply(count, ends(a, i))
  }

  /** With proper addresses the router acknowledges a write only if an attempt was committed, and with its size. */
  lemma AckedWriteCommitted(addrs: seq<string>, count: U32, ends: (nat, nat) -> WriteOutcome, idx: nat, m: nat)
    requires idx < |addrs| && forall a: nat, i: nat :: ends(a, i) != ForwardToLeader(Some(""))
    ensures var p := Attempts(addrs, WriteEnv(count, ends), idx, m);
      p.served.Some? ==>
        p.served.value == count && exists a: nat, i: nat :: a < m && i < |addrs| && ends(a, i).Committed?
  {
    var env := WriteEnv(count, ends);
    if Attempts(addrs, env, idx, m).served.Some? {
      var a := ServedByAttempt(addrs, env, idx, m);
      WriteServedIff(count, ends(a, Tried(addrs, env, idx, a)));
    }
  }

  /** When one replica commits and the others fail or forward to it, a write is acknowledged by one call from any cached
      guess at most three steps before the leader, as `CallSucceedsIff` says of searches. */
  lemma WritesReachLeader(addrs: seq<string>, count: U32, ends: (nat, nat) -> WriteOutcome, leader: nat, idx: nat)
    requires idx < |addrs| && leader < |addrs| && addrs[leader] != "" && AddrIndex(addrs, addrs[leader]) == Some(leader)
    requires forall a: nat, i: nat :: i < |addrs| ==> (ends(a, i).Committed? <==> i == leader)
    requires forall a: nat, i: nat :: i < |addrs| && ends(a, i).ForwardToLeader? ==>
      ends(a, i).leader in {None, Some(addrs[leader])}
    ensures OneLeader(addrs, WriteEnv(count, ends), leader)
    ensures Distance(|addrs|, idx, leader) < MAX_LEADER_ATTEMPTS ==>
      Attempts(addrs, WriteEnv(count, ends), idx, MAX_LEADER_ATTEMPTS).served == Some(count)
  {
    var env := WriteEnv(count, ends);
    forall a: nat, i: nat | i < |addrs|
      ensures env(a, i).Served() <==> i == leader
      ensures i != leader && env(a, i).Response? ==> AddrIndex(addrs, env(a, i).hint) in {Some(leader), None}
    {
      WriteServedIff(count, ends(a, i));
      assert ends(a, i).ForwardToLeader? ==> ends(a, i).leader in {None, Some(addrs[leader])};
    }
    AttemptsApproach(addrs, env, leader, idx, MAX_LEADER_ATTEMPTS);
  }

  /** An insert acknowledges the batch size without looking at what was applied: the two agree
      exactly when the store accepts the batch, or the size is 0 as a u32. */
  lemma InsertAckTrueIff(fp: Arith, st: Collections, name: string, records: seq<VectorRecord>)
    ensures var applied := RunOne(fp, st, Upsert(name, records)).1;
      WriteReply(AsU32(|records|), Committed(applied)) == Response("", applied)
      <==> (name in st && DimsOk(st[name].dim, records)) || AsU32(|records|) == 0
  {
  }

  /** An insert into a collection the leader does not have is acknowledged with 1 and stores nothing. */
  lemma LostInsertExample(fp: Arith)
    ensures var (after, applied) := RunOne(fp, map[], ONE_PUT);
      && WriteReply(AsU32(|ONE_PUT.records|), Committed(applied)) == Response("", 1)
      && applied == 0 && Lookup(after, "c", ONE_RECORD.id) == None
  {
    InsertAckTrueIff(fp, map[], "c", [ONE_RECORD]);
  }

  /** A delete acknowledges the number of ids it was given: true exactly when they were all there once. */
  lemma DeleteAckTrueIff(fp: Arith, st: Collections, name: string, ids: seq<U64>)
    requires |ids| < TWO_32
    ensures var applied := RunOne(fp, st, Delete(name, ids)).1;
      WriteReply(AsU32(|ids|), Committed(applied)) == Response("", applied)
      <==> ids == [] || (name in st && DistinctAndPresent(ids, st[name].vectors.Keys))
  {
    if name in st {
      DeleteCountExact(st[name].vectors, ids);
    }
  }

  /** Naming the one stored record twice removes it once and is acknowledged with 2. */
  lemma RepeatedDeleteExample(fp: Arith)
    ensures var ids := [ONE_RECORD.id, ONE_RECORD.id];
      var (after, applied) := RunOne(fp, Run(fp, ONE_COLLECTION, [ONE_PUT]), Delete("c", ids));
      && WriteReply(AsU32(|ids|), Committed(applied)) == Response("", 2)
      && applied == 1 && Lookup(after, "c", ONE_RECORD.id) == None
  {
    var st, ids := Run(fp, ONE_COLLECTION, [ONE_PUT]), [ONE_RECORD.id, ONE_RECORD.id];
    OnePutStore(fp);
    assert DeleteAll(st["c"].vectors, ids) == map[];
  }
}
