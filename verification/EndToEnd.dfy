/** Routing, replication and merging together: what a client of the whole system gets. */
module EndToEnd {
  import opened Numeric
  import opened StoreSpec
  import opened Replay
  import opened StateMachineSpec
  import opened Sharding
  import opened Merge
  import opened Cluster
  import opened Cuts
  import opened Replication
  import opened RetrySpec
  import opened Service

  /** One shard's replica group after a run, and the search it answered (if it answered at all). */
  datatype ShardRun = ShardRun(replicas: nat, steps: seq<Step>, answer: Option<ServedRead>)

  ghost function LogOf(fp: Arith, base: Collections, run: ShardRun): seq<Entry> {
    After(fp, base, run.replicas, run.steps).log
  }

  /** The group's log carries the requests routed to shard s, before, during and after the search; the search was
      answered by a confirmed leader that, if it has the collection, has lost nothing of it. */
  ghost predicate Serves(fp: Arith, hash: Hash, n: nat, base: Collections, history: seq<Event>,
                         name: string, s: nat, run: ShardRun)
    requires n > 0
  {
    var state := After(fp, base, run.replicas, run.steps);
    && Commands(state.log) == ShardLog(hash, n, history, s)
    && (run.answer.Some? ==>
          var v := run.answer.value;
          v in state.served && (name in v.store && name in base ==> Intact(fp, base, state.log, v.since, v.upTo, name)))
  }

  ghost predicate AllServe(fp: Arith, hash: Hash, n: nat, base: Collections, history: seq<Event>,
                           name: string, runs: seq<ShardRun>)
    requires n > 0
  {
    |runs| == n && forall s :: 0 <= s < n ==> Serves(fp, hash, n, base, history, name, s, runs[s])
  }

  /** How many commands of its log the group answered from. */
  ghost function CutOf(fp: Arith, base: Collections, run: ShardRun): nat {
    var log := LogOf(fp, base, run);
    if run.answer.Some? && run.answer.value.upTo <= |log| then |Commands(log[..run.answer.value.upTo])|
    else |Commands(log)|
  }

  ghost function CutsOf(fp: Arith, base: Collections, runs: seq<ShardRun>): seq<nat> {
    seq(|runs|, s requires 0 <= s < |runs| => CutOf(fp, base, runs[s]))
  }

  /** The history as far as the search saw it. */
  ghost function Seen(fp: Arith, hash: Hash, n: nat, base: Collections, history: seq<Event>,
                      runs: seq<ShardRun>): seq<Event>
    requires n > 0
  {
    Cut(hash, n, history, CutsOf(fp, base, runs))
  }

  lemma CommandsPrefix(log: seq<Entry>, i: nat)
    requires i <= |log|
    ensures Commands(log[..i]) <= Commands(log)
  {
    assert log == log[..i] + log[i..];
    CommandsConcat(log[..i], log[i..]);
  }

  /** Under the history the search saw, shard s logs what its leader had applied. */
  lemma SeenLog(fp: Arith, hash: Hash, n: nat, base: Collections, history: seq<Event>, name: string,
                runs: seq<ShardRun>, s: nat)
    requires n > 0 && BaseOk(base) && s < n && AllServe(fp, hash, n, base, history, name, runs) && runs[s].answer.Some?
    ensures var upTo, log := runs[s].answer.value.upTo, LogOf(fp, base, runs[s]);
      upTo <= |log| && ShardLog(hash, n, Seen(fp, hash, n, base, history, runs), s) == Commands(log[..upTo])
  {
    var run := runs[s];
    assert Serves(fp, hash, n, base, history, name, s, run);
    EveryRun(fp, base, run.replicas, run.steps);
    assert ServedOk(fp, base, After(fp, base, run.replicas, run.steps), run.answer.value);
    CutLog(hash, n, history, CutsOf(fp, base, runs), s);
    CommandsPrefix(LogOf(fp, base, run), run.answer.value.upTo);
  }

  /** A confirmed leader that has the collection finds what the shard's log, as far as the search saw it, holds. */
  lemma ServedReply(fp: Arith, hash: Hash, n: nat, base: Collections, history: seq<Event>, runs: seq<ShardRun>, s: nat,
                    name: string, query: seq<F32>, k: nat)
    requires n > 0 && BaseOk(base) && s < n && AllServe(fp, hash, n, base, history, name, runs)
    requires runs[s].answer.Some? && name in runs[s].answer.value.store
    ensures NodeReply(fp, runs[s].answer.value.store, name, query, k)
         == NodeReply(fp, ShardStore(fp, hash, n, base, Seen(fp, hash, n, base, history, runs), s), name, query, k)
  {
    var run := runs[s];
    var state, v := After(fp, base, run.replicas, run.steps), run.answer.value;
    assert Serves(fp, hash, n, base, history, name, s, run);
    EveryRun(fp, base, run.replicas, run.steps);
    assert ServedOk(fp, base, state, v);
    SeenLog(fp, hash, n, base, history, name, runs, s);
    var whole := Run(fp, base, Commands(state.log[..v.upTo]));
    RunKeepsSchema(fp, base, Commands(state.log[..v.upTo]));
    ReplaySchema(fp, base, state.log, v.upTo, v.store, v.since, name);
    ShownRightIff(fp, base, state.log, v.upTo, v.store, v.since, name);
    SameLookupsSameVectors(v.store, whole, name);
    ReplyIsLocal(fp, v.store, whole, name, query, k);
  }

  lemma ReplyIsLocal(fp: Arith, a: Collections, b: Collections, name: string, query: seq<F32>, k: nat)
    requires name in a && name in b && a[name].dim == b[name].dim && a[name].vectors == b[name].vectors
    ensures NodeReply(fp, a, name, query, k) == NodeReply(fp, b, name, query, k)
  {
  }

  lemma SameLookupsSameVectors(a: Collections, b: Collections, name: string)
    requires name in a && name in b && SameUnder(a, b, name)
    ensures a[name].vectors == b[name].vectors
  {
    forall id | id in a[name].vectors || id in b[name].vectors
      ensures id in a[name].vectors && id in b[name].vectors && a[name].vectors[id] == b[name].vectors[id]
    {
      assert Lookup(a, name, id) == Lookup(b, name, id);
    }
  }

  // ---- What the search saw ----

  /** Entry i of the group's log is the part of the request at place m that shard s logged, or comes after it, as a
      copy made by a retry does. */
  ghost predicate Reaches(fp: Arith, hash: Hash, n: nat, base: Collections, history: seq<Event>,
                          run: ShardRun, s: nat, m: nat, i: nat)
    requires n > 0 && m < |history|
  {
    var log := LogOf(fp, base, run);
    i < |log| && log[i].payload.Normal? && |ShardLog(hash, n, history[..m], s)| <= |Commands(log[..i])|
  }

  lemma CommandsBefore(log: seq<Entry>, i: nat, j: nat)
    requires i < j <= |log| && log[i].payload.Normal?
    ensures |Commands(log[..i])| < |Commands(log[..j])|
  {
    assert log[..i + 1][..i] == log[..i];
    CommandsPrefix(log[..j], i + 1);
    assert log[..j][..i + 1] == log[..i + 1];
  }

  /** The search saw every part that was acknowledged before it began. */
  lemma AckedPartSeen(fp: Arith, hash: Hash, n: nat, base: Collections, history: seq<Event>, name: string,
                      runs: seq<ShardRun>, s: nat, m: nat, i: nat)
    requires n > 0 && BaseOk(base) && s < n && AllServe(fp, hash, n, base, history, name, runs)
    requires m < |history| && Logged(hash, n, history, m, s)
    requires runs[s].answer.Some? && i in runs[s].answer.value.acked
    requires Reaches(fp, hash, n, base, history, runs[s], s, m, i)
    ensures Logged(hash, n, Seen(fp, hash, n, base, history, runs), m, s)
  {
    var run := runs[s];
    assert Serves(fp, hash, n, base, history, name, s, run);
    EveryRun(fp, base, run.replicas, run.steps);
    assert ServedOk(fp, base, After(fp, base, run.replicas, run.steps), run.answer.value);
    CommandsBefore(LogOf(fp, base, run), i, run.answer.value.upTo);
    CutLogged(hash, n, history, CutsOf(fp, base, runs), m, s);
  }

  /** Every shard that answered had acknowledged its part of the request at place m, or a copy of it, before the
      search began. */
  ghost predicate AckedBefore(fp: Arith, hash: Hash, n: nat, base: Collections, history: seq<Event>,
                              runs: seq<ShardRun>, m: nat)
    requires n > 0 && m < |history| && |runs| == n
  {
    forall s :: 0 <= s < n && Logged(hash, n, history, m, s) && runs[s].answer.Some? ==>
      exists i :: i in runs[s].answer.value.acked && Reaches(fp, hash, n, base, history, runs[s], s, m, i)
  }

  /** A request acknowledged before the search began is seen whole. */
  lemma AckedRequestSeen(fp: Arith, hash: Hash, n: nat, base: Collections, history: seq<Event>, name: string,
                         runs: seq<ShardRun>, m: nat)
    requires n > 0 && BaseOk(base) && AllServe(fp, hash, n, base, history, name, runs)
    requires m < |history| && history[m].Request? && AckedBefore(fp, hash, n, base, history, runs, m)
    ensures var e := Seen(fp, hash, n, base, history, runs)[m];
      e.Request? && SubCommand(hash, n, e.cmd, e.at) == SubCommand(hash, n, history[m].cmd, history[m].at)
  {
    var cuts := CutsOf(fp, base, runs);
    forall s: nat | s < n && Logged(hash, n, history, m, s) ensures !Past(hash, n, history[..m], cuts, s) {
      if runs[s].answer.Some? {
        var i :| i in runs[s].answer.value.acked && Reaches(fp, hash, n, base, history, runs[s], s, m, i);
        AckedPartSeen(fp, hash, n, base, history, name, runs, s, m, i);
        CutLogged(hash, n, history, cuts, m, s);
      } else {
        assert Serves(fp, hash, n, base, history, name, s, runs[s]);
        LoggedWithin(hash, n, history, m, s);
      }
    }
    EarlyRequestStays(hash, n, history, cuts, m);
  }

  /** When every request was acknowledged before the search began, one store is in the same state after what the search
      saw as after the whole history. */
  lemma QuietSearchSeesAll(fp: Arith, hash: Hash, n: nat, base: Collections, solo: Collections, history: seq<Event>,
                           name: string, runs: seq<ShardRun>)
    requires n > 0 && BaseOk(base) && AllServe(fp, hash, n, base, history, name, runs)
    requires forall m :: 0 <= m < |history| ==> AckedBefore(fp, hash, n, base, history, runs, m)
    ensures SoloStore(fp, hash, n, solo, Seen(fp, hash, n, base, history, runs))
         == SoloStore(fp, hash, n, solo, history)
  {
    var seen := Seen(fp, hash, n, base, history, runs);
    forall m | 0 <= m < |history| && history[m].Request?
      ensures seen[m].Request? && SubCommand(hash, n, seen[m].cmd, seen[m].at)
                               == SubCommand(hash, n, history[m].cmd, history[m].at)
    {
      AckedRequestSeen(fp, hash, n, base, history, name, runs, m);
    }
    SameRequests(hash, n, seen, history);
  }

  // ---- Every history has such runs ----

  function Commits(cmds: seq<Command>): seq<Step> {
    seq(|cmds|, i requires 0 <= i < |cmds| => Commit(Normal(cmds[i]), 0, 0))
  }

  /** Committing commands adds them to the log and touches nothing else. */
  ghost predicate Grown(s: State, s': State, cmds: seq<Command>) {
    && s'.replicas == s.replicas && s'.pending == s.pending
    && |s'.log| == |s.log| + |cmds| && Commands(s'.log) == Commands(s.log) + cmds
  }

  lemma OneCommit(fp: Arith, base: Collections, s: State, cmd: Command)
    ensures Grown(s, Do(fp, base, s, Commit(Normal(cmd), 0, 0)), [cmd])
  {
    CommitAppends(fp, base, s, Normal(cmd), 0, 0);
    var log := s.log + [Entry(LogId(0, 0, |s.log|), Normal(cmd))];
    assert log[..|log| - 1] == s.log;
  }

  lemma GrownFurther(a: State, b: State, c: State, cmds: seq<Command>, more: seq<Command>, all: seq<Command>)
    requires Grown(a, b, cmds) && Grown(b, c, more) && all == cmds + more
    ensures Grown(a, c, all)
  {
    assert Commands(a.log) + all == (Commands(a.log) + cmds) + more;
  }

  lemma NothingGrown(s: State)
    ensures Grown(s, s, [])
  {
    assert Commands(s.log) + [] == Commands(s.log);
  }

  lemma CommitsSnoc(steps: seq<Step>, cmds: seq<Command>)
    requires cmds != []
    ensures var k := |cmds| - 1;
      steps + Commits(cmds) == steps + Commits(cmds[..k]) + [Commit(Normal(cmds[k]), 0, 0)]
  {
    var k := |cmds| - 1;
    assert Commits(cmds) == Commits(cmds[..k]) + [Commit(Normal(cmds[k]), 0, 0)];
  }

  lemma {:induction false} CommitAll(fp: Arith, base: Collections, n: nat, steps: seq<Step>, cmds: seq<Command>)
    ensures Grown(After(fp, base, n, steps), After(fp, base, n, steps + Commits(cmds)), cmds)
  {
    var s := After(fp, base, n, steps);
    if cmds == [] {
      assert steps + Commits(cmds) == steps;
      NothingGrown(s);
    } else {
      var k := |cmds| - 1;
      CommitAll(fp, base, n, steps, cmds[..k]);
      var mid, step := After(fp, base, n, steps + Commits(cmds[..k])), Commit(Normal(cmds[k]), 0, 0);
      CommitsSnoc(steps, cmds);
      AfterSnoc(fp, base, n, steps + Commits(cmds[..k]), step);
      OneCommit(fp, base, mid, cmds[k]);
      GrownFurther(s, mid, Do(fp, base, mid, step), cmds[..k], [cmds[k]], cmds);
    }
  }

  /** One live replica that has the collection from the start, if there is one of that name. */
  ghost predicate Fresh(base: Collections, s: State, name: string) {
    && Live(s, 0) && Pos(s, 0) == 0 && s.pending == map[] && s.log == []
    && s.replicas[0].since == if name in base then map[name := 0] else map[]
  }

  lemma FreshGroup(fp: Arith, base: Collections, name: string) returns (steps: seq<Step>)
    ensures Fresh(base, After(fp, base, 1, steps), name)
  {
    if name in base {
      steps := [] + [Create(0, name)];
      AfterSnoc(fp, base, 1, [], Create(0, name));
    } else {
      steps := [];
    }
  }

  /** A caught-up replica with no search in progress, in a group that committed these commands. */
  ghost predicate Ready(base: Collections, s: State, name: string, cmds: seq<Command>) {
    && Live(s, 0) && Pos(s, 0) == |s.log| && s.pending == map[] && Commands(s.log) == cmds
    && s.replicas[0].since == if name in base then map[name := 0] else map[]
  }

  lemma ReadyAfter(base: Collections, first: State, grown: State, s: State, name: string, cmds: seq<Command>)
    requires Fresh(base, first, name) && Grown(first, grown, cmds) && CaughtUp(grown, s, 0)
    requires s.replicas[0].since == grown.replicas[0].since
    ensures Ready(base, s, name, cmds)
  {
    assert Commands([]) + cmds == cmds;
  }

  lemma ReadyGroup(fp: Arith, base: Collections, name: string, cmds: seq<Command>) returns (ready: seq<Step>)
    requires BaseOk(base)
    ensures Ready(base, After(fp, base, 1, ready), name, cmds)
  {
    var start := FreshGroup(fp, base, name);
    CommitAll(fp, base, 1, start, cmds);
    var steps := start + Commits(cmds);
    var first, grown := After(fp, base, 1, start), After(fp, base, 1, steps);
    CanCatchUp(fp, base, 1, steps, 0, |cmds|);
    LiveWithinLog(fp, base, 1, steps, 0);
    ApplyAdvances(fp, base, grown, 0, |cmds|);
    AfterSnoc(fp, base, 1, steps, ApplyChunk(0, |cmds|));
    ready := steps + [ApplyChunk(0, |cmds|)];
    ReadyAfter(base, first, grown, After(fp, base, 1, ready), name, cmds);
  }

  /** Such a replica answers a search at once. */
  lemma AnswerNow(fp: Arith, base: Collections, ready: seq<Step>, name: string, cmds: seq<Command>)
    returns (run: ShardRun)
    requires BaseOk(base) && Ready(base, After(fp, base, 1, ready), name, cmds)
    ensures var s := After(fp, base, 1, ready);
      && run.replicas == 1 && LogOf(fp, base, run) == s.log && run.answer.Some?
      && run.answer.value in After(fp, base, 1, run.steps).served
      && run.answer.value.upTo == |s.log| && run.answer.value.since == s.replicas[0].since
      && (name in run.answer.value.store <==> name in base)
  {
    var s := After(fp, base, 1, ready);
    EveryRun(fp, base, 1, ready);
    assert ReplicaOk(fp, base, s.log, s.replicas[0].sm, s.replicas[0].since);
    assert ready + [BeginRead(0, 0)] + [] == ready + [BeginRead(0, 0)];
    AfterSnoc(fp, base, 1, ready, BeginRead(0, 0));
    SearchRound(fp, base, 1, ready, 0, 0, []);
    var steps := ready + [BeginRead(0, 0)] + [] + [ConfirmRead(0)] + [ServeRead(0)];
    var v := ServedRead(|s.log|, s.acked, |s.log|, s.replicas[0].sm.store, s.replicas[0].since);
    run := ShardRun(1, steps, Some(v));
  }

  lemma WholeFromStart(fp: Arith, base: Collections, log: seq<Entry>, since: Births, name: string)
    requires name in base && since == map[name := 0]
    ensures Intact(fp, base, log, since, |log|, name)
  {
    assert log[..0] == [] && Commands(log[..0]) == [];
  }

  /** The runs the results below speak of exist for every history and every shard: the group commits what the history
      routes to it, a replica catches up, and a search on it is confirmed and answered. */
  lemma EveryHistoryCanBeServed(fp: Arith, hash: Hash, n: nat, base: Collections, history: seq<Event>,
                                name: string, s: nat) returns (run: ShardRun)
    requires n > 0 && BaseOk(base)
    ensures Serves(fp, hash, n, base, history, name, s, run) && run.answer.Some?
    ensures run.answer.value.upTo == |LogOf(fp, base, run)|
    ensures name in run.answer.value.store <==> name in base
  {
    var cmds := ShardLog(hash, n, history, s);
    var ready := ReadyGroup(fp, base, name, cmds);
    run := AnswerNow(fp, base, ready, name, cmds);
    if name in base {
      WholeFromStart(fp, base, LogOf(fp, base, run), run.answer.value.since, name);
    }
  }

  // ---- The answer ----

  /** The reply of a confirmed leader, which knows itself as the leader, and what the router makes of it. */
  ghost function LeaderReply(fp: Arith, v: ServedRead, self: NodeId, nodes: map<NodeId, string>,
                             name: string, query: seq<F32>, k: nat): Outcome<seq<ScoredRecord>>
  {
    SearchReply(Metrics(Some(self), nodes), self, true, NodeReply(fp, v.store, name, query, k))
  }

  /** A leader tells a missing collection from a query of the wrong dimension. */
  lemma RejectedSearchStatus(fp: Arith, v: ServedRead, self: NodeId, nodes: map<NodeId, string>,
                             name: string, query: seq<F32>, k: nat)
    ensures name !in v.store ==> LeaderReply(fp, v, self, nodes, name, query, k) == Failed("not_found")
    ensures name in v.store && |query| != v.store[name].dim ==>
      LeaderReply(fp, v, self, nodes, name, query, k) == Failed("invalid_argument")
  {
    SearchVerdict(fp, v.store, name, query, k);
  }

  ghost function Reply(fp: Arith, run: ShardRun, name: string, query: seq<F32>, k: nat): Option<seq<ScoredRecord>> {
    if run.answer.None? then None else
      var r := LeaderReply(fp, run.answer.value, 0, map[], name, query, k);
      if r.Served() then Some(r.body) else None
  }

  ghost function Replies(fp: Arith, runs: seq<ShardRun>, name: string, query: seq<F32>, k: nat)
    : seq<Option<seq<ScoredRecord>>>
  {
    seq(|runs|, s requires 0 <= s < |runs| => Reply(fp, runs[s], name, query, k))
  }

  lemma RepliesAreTruthful(fp: Arith, hash: Hash, n: nat, base: Collections, history: seq<Event>,
                           runs: seq<ShardRun>, name: string, query: seq<F32>, k: nat)
    requires n > 0 && BaseOk(base) && AllServe(fp, hash, n, base, history, name, runs)
    ensures Truthful(fp, hash, n, base, Seen(fp, hash, n, base, history, runs), name, query, k,
                     Replies(fp, runs, name, query, k))
  {
    var replies := Replies(fp, runs, name, query, k);
    forall s | 0 <= s < n && replies[s].Some?
      ensures NodeReply(fp, ShardStore(fp, hash, n, base, Seen(fp, hash, n, base, history, runs), s), name, query, k)
           == Ok(replies[s].value)
    {
      ServedReply(fp, hash, n, base, history, runs, s, name, query, k);
    }
  }

  /** Every shard's search was answered, by a leader that has the collection. */
  ghost predicate AllAnswer(runs: seq<ShardRun>, name: string) {
    forall s :: 0 <= s < |runs| ==> runs[s].answer.Some? && name in runs[s].answer.value.store
  }

  lemma EveryShardReplies(fp: Arith, hash: Hash, n: nat, base: Collections, solo: Collections, history: seq<Event>,
                          runs: seq<ShardRun>, name: string, query: seq<F32>, k: nat)
    requires n > 0 && BaseOk(base) && FreshPair(base, solo) && AllServe(fp, hash, n, base, history, name, runs)
    requires var one := SoloStore(fp, hash, n, solo, Seen(fp, hash, n, base, history, runs));
      NodeReply(fp, one, name, query, k).Ok?
    requires AllAnswer(runs, name)
    ensures forall s :: 0 <= s < n ==> Replies(fp, runs, name, query, k)[s].Some?
  {
    forall s | 0 <= s < n ensures Reply(fp, runs[s], name, query, k).Some? {
      SameVerdict(fp, hash, n, base, solo, Seen(fp, hash, n, base, history, runs), name, query, k, s);
      ServedReply(fp, hash, n, base, history, runs, s, name, query, k);
    }
  }

  /** `responses` are what one store's reply says they should be: merged, they are exact over the shards that
      answered, and the reply itself when all did; if one store rejects the search, no shard answers it. */
  ghost predicate LikeOneStore(fp: Arith, hash: Hash, n: nat, one: Collections, name: string, query: seq<F32>, k: nat,
                               runs: seq<ShardRun>, responses: seq<Option<seq<ScoredRecord>>>)
    requires n > 0
  {
    var reply, merged := NodeReply(fp, one, name, query, k), Merged(Answered(responses), k);
    && |responses| == n
    && (reply.Ok? ==> name in one && merged == ExactOver(fp, hash, n, one[name].vectors, query, k, responses))
    && (reply.Err? ==> merged == [] && forall s :: 0 <= s < n ==> responses[s].None?)
    && (reply.Ok? && AllAnswer(runs, name) ==> reply == Ok(merged) && forall s :: 0 <= s < n ==> responses[s].Some?)
  }

  /** For every history of uniform requests, any number of shards and replicas, requests committed by only some of
      their shards, copies of them logged again late, and any run of each replica group (with crashes, snapshots,
      lagging replicas, and writes that go on during the search), the answer to a search is the reply of one store
      that replays what the search saw: at least every request acknowledged before it began (`AckedRequestSeen`). */
  lemma SystemAnswersLikeOneStore(fp: Arith, hash: Hash, n: nat, base: Collections, solo: Collections,
                                  history: seq<Event>, runs: seq<ShardRun>, name: string, query: seq<F32>, k: nat)
    requires n > 0 && BaseOk(base) && FreshPair(base, solo) && Orderly(fp, hash, n, base, history)
    requires AllServe(fp, hash, n, base, history, name, runs)
    ensures LikeOneStore(fp, hash, n, SoloStore(fp, hash, n, solo, Seen(fp, hash, n, base, history, runs)),
                         name, query, k, runs, Replies(fp, runs, name, query, k))
  {
    var replies, seen := Replies(fp, runs, name, query, k), Seen(fp, hash, n, base, history, runs);
    CutKeepsOrderly(fp, hash, n, base, history, CutsOf(fp, base, runs));
    RepliesAreTruthful(fp, hash, n, base, history, runs, name, query, k);
    ClusterSearchExact(fp, hash, n, base, solo, seen, name, query, k, replies);
    if NodeReply(fp, SoloStore(fp, hash, n, solo, seen), name, query, k).Ok? && AllAnswer(runs, name) {
      EveryShardReplies(fp, hash, n, base, solo, history, runs, name, query, k);
    }
  }

  // ---- With the router's retries ----

  /** The router's call to one shard: replica addresses, which of them leads, the cached guess, and what happens. */
  datatype ShardCall = ShardCall(addrs: seq<string>, leader: nat, hint: nat, call: TimedCall<seq<ScoredRecord>>)

  /** Up to four replicas. The leader answers with what it finds, be it an error; the others err, hang, or redirect to
      it or to nobody we know. Attempts end within their timeout. */
  ghost predicate Reachable(fp: Arith, c: ShardCall, run: ShardRun, name: string, query: seq<F32>, k: nat) {
    && c.leader < |c.addrs| <= 4
    && (forall a :: c.call.dur(a) <= READ_ATTEMPT_TIMEOUT_MS)
    && (forall a: nat, i: nat :: i < |c.addrs| && i != c.leader ==> Follows(c, a, i))
    && run.answer.Some?
    && forall a: nat :: AnswersWith(fp, c, run.answer.value, a, name, query, k)
  }

  predicate Follows(c: ShardCall, a: nat, i: nat) {
    var o := c.call.env(a, i);
    !o.Served() && (o.Response? ==> AddrIndex(c.addrs, o.hint) in {Some(c.leader), None})
  }

  ghost predicate AnswersWith(fp: Arith, c: ShardCall, v: ServedRead, a: nat, name: string, query: seq<F32>, k: nat) {
    exists self, nodes :: c.call.env(a, c.leader) == LeaderReply(fp, v, self, nodes, name, query, k)
  }

  /** A group of up to four replicas behaves so when one of them knows itself as the leader and is confirmed, and every
      other knows no leader or that one under its address. */
  lemma GroupIsReachable(fp: Arith, addrs: seq<string>, selves: seq<NodeId>, views: (nat, nat) -> View, dur: nat -> nat,
                         leader: nat, hint: nat, run: ShardRun, name: string, query: seq<F32>, k: nat)
    requires leader < |addrs| == |selves| <= 4
    requires addrs[leader] != "" && AddrIndex(addrs, addrs[leader]) == Some(leader)
    requires forall a :: dur(a) <= READ_ATTEMPT_TIMEOUT_MS
    requires run.answer.Some? && forall a: nat ::
      views(a, leader).metrics.currentLeader == Some(selves[leader]) && views(a, leader).confirmed
      && views(a, leader).found == NodeReply(fp, run.answer.value.store, name, query, k)
    requires forall a: nat, i: nat :: i < |addrs| && i != leader ==>
      KnowsLeader(views(a, i).metrics, addrs, selves, i, leader)
    ensures var call := TimedCall(SearchEnv(selves, views), dur);
      Reachable(fp, ShardCall(addrs, leader, hint, call), run, name, query, k)
  {
    var c := ShardCall(addrs, leader, hint, TimedCall(SearchEnv(selves, views), dur));
    forall a: nat, i: nat | i < |addrs| && i != leader ensures Follows(c, a, i) {
      assert KnowsLeader(views(a, i).metrics, addrs, selves, i, leader);
    }
    forall a: nat ensures AnswersWith(fp, c, run.answer.value, a, name, query, k) {
      var nodes := views(a, leader).metrics.nodes;
      assert views(a, leader).metrics == Metrics(Some(selves[leader]), nodes);
      assert c.call.env(a, leader) == LeaderReply(fp, run.answer.value, selves[leader], nodes, name, query, k);
    }
  }

  ghost function RouterResponse(c: ShardCall): Option<seq<ScoredRecord>>
    requires c.hint < |c.addrs|
  {
    AfterCall(c.addrs, c.hint, c.call.Under(DEFAULT_DEADLINE_MS)).served
  }

  ghost function RouterResponses(calls: seq<ShardCall>): seq<Option<seq<ScoredRecord>>>
    requires forall s :: 0 <= s < |calls| ==> calls[s].hint < |calls[s].addrs|
  {
    seq(|calls|, s requires 0 <= s < |calls| => RouterResponse(calls[s]))
  }

  /** Every attempt at the leader ends the same way. */
  lemma LeaderIsSteady(fp: Arith, c: ShardCall, run: ShardRun, a: nat, name: string, query: seq<F32>, k: nat)
    requires run.answer.Some? && AnswersWith(fp, c, run.answer.value, a, name, query, k)
    ensures var o, r := c.call.env(a, c.leader), Reply(fp, run, name, query, k);
      (o.Served() <==> r.Some?) && (r.Some? ==> o.body == r.value) && (!o.Served() ==> o.Failed?)
  {
    var self, nodes :| c.call.env(a, c.leader) == LeaderReply(fp, run.answer.value, self, nodes, name, query, k);
  }

  /** The router gets the leader's answer, or nothing if the leader rejects the search. */
  lemma RouterGetsReply(fp: Arith, c: ShardCall, run: ShardRun, name: string, query: seq<F32>, k: nat)
    requires c.hint < |c.addrs| && Reachable(fp, c, run, name, query, k)
    ensures RouterResponse(c) == Reply(fp, run, name, query, k)
  {
    forall a: nat
      ensures var o, r := c.call.env(a, c.leader), Reply(fp, run, name, query, k);
        (o.Served() <==> r.Some?) && (r.Some? ==> o.body == r.value)
    {
      LeaderIsSteady(fp, c, run, a, name, query, k);
    }
    if Reply(fp, run, name, query, k).Some? {
      forall a: nat, i: nat | i < |c.addrs|
        ensures c.call.env(a, i).Served() <==> i == c.leader
        ensures i != c.leader && c.call.env(a, i).Response? ==>
          AddrIndex(c.addrs, c.call.env(a, i).hint) in {Some(c.leader), None}
      {
        assert i != c.leader ==> Follows(c, a, i);
      }
      assert OneLeader(c.addrs, c.call.env, c.leader);
      ShippedTimeoutsSuffice(c.addrs, c.leader, c.hint, c.call);
      AttemptsApproach(c.addrs, c.call.env, c.leader, c.hint, MAX_LEADER_ATTEMPTS);
    } else {
      forall a: nat, i: nat | i < |c.addrs| ensures !c.call.env(a, i).Served() {
        assert i != c.leader ==> Follows(c, a, i);
      }
      NobodyServes(c.addrs, c.call.env, c.hint, Min(c.call.Under(DEFAULT_DEADLINE_MS).cutoff, MAX_LEADER_ATTEMPTS));
    }
  }

  lemma {:induction false} NobodyServes<R>(addrs: seq<string>, env: Env<R>, idx: nat, m: nat)
    requires idx < |addrs| && forall a: nat, i: nat :: i < |addrs| ==> !env(a, i).Served()
    ensures Attempts(addrs, env, idx, m).served.None?
  {
    if m > 0 {
      NobodyServes(addrs, env, idx, m - 1);
    }
  }

  /** With the shipped timeouts and one live leader per shard of up to four replicas, wherever the router's cached
      guesses point, the client gets the reply of one store: every shard answers within the deadline a search that
      store accepts, and none answers one it rejects. */
  lemma EverySearchSettled(fp: Arith, hash: Hash, n: nat, base: Collections, solo: Collections, history: seq<Event>,
                           runs: seq<ShardRun>, calls: seq<ShardCall>, name: string, query: seq<F32>, k: nat)
    requires n > 0 && BaseOk(base) && FreshPair(base, solo) && Orderly(fp, hash, n, base, history)
    requires AllServe(fp, hash, n, base, history, name, runs)
    requires |calls| == n && forall s :: 0 <= s < n ==> calls[s].hint < |calls[s].addrs|
    requires forall s :: 0 <= s < n ==> Reachable(fp, calls[s], runs[s], name, query, k)
    ensures LikeOneStore(fp, hash, n, SoloStore(fp, hash, n, solo, Seen(fp, hash, n, base, history, runs)),
                         name, query, k, runs, RouterResponses(calls))
  {
    var responses, replies := RouterResponses(calls), Replies(fp, runs, name, query, k);
    forall s | 0 <= s < n ensures responses[s] == replies[s] {
      RouterGetsReply(fp, calls[s], runs[s], name, query, k);
    }
    assert responses == replies;
    SystemAnswersLikeOneStore(fp, hash, n, base, solo, history, runs, name, query, k);
  }
}
