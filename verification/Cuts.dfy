/** What a search sees while writes go on: each shard answers from some prefix of its log. The history cut at these
    prefixes is again a history, and one store replaying it is what the search is compared with. */
module Cuts {
  import opened Numeric
  import opened StoreSpec
  import opened Replay
  import opened Sharding
  import opened Cluster

  /** Shard s had already logged all of its cut. A shard without a cut never has. */
  predicate Past(hash: Hash, n: nat, history: seq<Event>, cuts: seq<nat>, s: nat)
    requires n > 0
  {
    s < |cuts| && |ShardLog(hash, n, history, s)| >= cuts[s]
  }

  /** A request loses the shards that logged it too late; a copy logged too late becomes one of nothing. */
  function CutEvent(hash: Hash, n: nat, history: seq<Event>, cuts: seq<nat>, m: nat): Event
    requires n > 0 && m < |history|
  {
    match history[m]
    case Request(cmd, at) => Request(cmd, set s | s in at && !Past(hash, n, history[..m], cuts, s))
    case Copy(of, shard) => if Past(hash, n, history[..m], cuts, shard) then Copy(m, shard) else Copy(of, shard)
  }

  function Cut(hash: Hash, n: nat, history: seq<Event>, cuts: seq<nat>): seq<Event>
    requires n > 0
  {
    seq(|history|, m requires 0 <= m < |history| => CutEvent(hash, n, history, cuts, m))
  }

  function UpTo(log: seq<Command>, cuts: seq<nat>, s: nat): seq<Command> {
    if s < |cuts| && cuts[s] < |log| then log[..cuts[s]] else log
  }

  lemma CutPrefix(hash: Hash, n: nat, history: seq<Event>, cuts: seq<nat>, m: nat)
    requires n > 0 && m <= |history|
    ensures Cut(hash, n, history, cuts)[..m] == Cut(hash, n, history[..m], cuts)
  {
    forall j | 0 <= j < m ensures CutEvent(hash, n, history, cuts, j) == CutEvent(hash, n, history[..m], cuts, j) {
      assert history[..m][..j] == history[..j];
    }
  }

  lemma PastStays(hash: Hash, n: nat, history: seq<Event>, cuts: seq<nat>, i: nat, m: nat, s: nat)
    requires n > 0 && i <= m <= |history| && Past(hash, n, history[..i], cuts, s)
    ensures Past(hash, n, history[..m], cuts, s)
  {
    LogGrows(hash, n, history, i, m, s);
  }

  lemma CutLogged(hash: Hash, n: nat, history: seq<Event>, cuts: seq<nat>, i: nat, s: nat)
    requires n > 0 && i < |history|
    ensures Logged(hash, n, Cut(hash, n, history, cuts), i, s)
       <==> Logged(hash, n, history, i, s) && !Past(hash, n, history[..i], cuts, s)
  {
  }

  /** Whether the last event adds to the shard's log. */
  predicate Adds(hash: Hash, n: nat, history: seq<Event>, s: nat)
    requires n > 0 && history != []
  {
    var m := |history| - 1;
    match history[m]
    case Request(_, _) => Logged(hash, n, history, m, s)
    case Copy(of, shard) => shard == s && of < m && Logged(hash, n, history, of, s)
  }

  lemma CutAdds(hash: Hash, n: nat, history: seq<Event>, cuts: seq<nat>, s: nat)
    requires n > 0 && history != []
    ensures Adds(hash, n, Cut(hash, n, history, cuts), s)
       <==> Adds(hash, n, history, s) && !Past(hash, n, history[..|history| - 1], cuts, s)
  {
    var m := |history| - 1;
    CutLogged(hash, n, history, cuts, m, s);
    if history[m].Copy? && history[m].of < m {
      CutLogged(hash, n, history, cuts, history[m].of, s);
      if Past(hash, n, history[..history[m].of], cuts, s) {
        PastStays(hash, n, history, cuts, history[m].of, m, s);
      }
    }
  }

  function LastPart(hash: Hash, n: nat, history: seq<Event>, s: nat): Command
    requires n > 0 && history != [] && Adds(hash, n, history, s)
  {
    var e := history[|history| - 1];
    ShardCommand(hash, n, if e.Request? then e.cmd else history[e.of].cmd, s)
  }

  lemma LogStep(hash: Hash, n: nat, history: seq<Event>, s: nat)
    requires n > 0 && history != []
    ensures ShardLog(hash, n, history, s)
         == ShardLog(hash, n, history[..|history| - 1], s)
          + if Adds(hash, n, history, s) then [LastPart(hash, n, history, s)] else []
  {
  }

  /** Under the cut history a shard logs exactly its prefix. */
  lemma {:induction false} CutLog(hash: Hash, n: nat, history: seq<Event>, cuts: seq<nat>, s: nat)
    requires n > 0
    ensures ShardLog(hash, n, Cut(hash, n, history, cuts), s) == UpTo(ShardLog(hash, n, history, s), cuts, s)
  {
    if history != [] {
      var m := |history| - 1;
      CutLog(hash, n, history[..m], cuts, s);
      CutPrefix(hash, n, history, cuts, m);
      CutAdds(hash, n, history, cuts, s);
      LogStep(hash, n, history, s);
      LogStep(hash, n, Cut(hash, n, history, cuts), s);
    }
  }

  lemma CutLogAt(hash: Hash, n: nat, history: seq<Event>, cuts: seq<nat>, i: nat, m: nat, s: nat)
    requires n > 0 && i <= m <= |history| && !Past(hash, n, history[..m], cuts, s)
    ensures ShardLog(hash, n, Cut(hash, n, history, cuts)[..i], s) == ShardLog(hash, n, history[..i], s)
  {
    CutPrefix(hash, n, history, cuts, i);
    CutLog(hash, n, history[..i], cuts, s);
    LogGrows(hash, n, history, i, m, s);
  }

  lemma CutSince(hash: Hash, n: nat, history: seq<Event>, cuts: seq<nat>, i: nat, m: nat, s: nat)
    requires n > 0 && i < m <= |history| && !Past(hash, n, history[..m], cuts, s)
    ensures Since(hash, n, Cut(hash, n, history, cuts), i, m, s) == Since(hash, n, history, i, m, s)
  {
    CutLogAt(hash, n, history, cuts, i + 1, m, s);
    CutLogAt(hash, n, history, cuts, m, m, s);
  }

  lemma CutCopyOk(fp: Arith, hash: Hash, n: nat, base: Collections, history: seq<Event>, cuts: seq<nat>, m: nat)
    requires n > 0 && m < |history| && CopyOk(fp, hash, n, base, history, m)
    ensures CopyOk(fp, hash, n, base, Cut(hash, n, history, cuts), m)
  {
    var e := Cut(hash, n, history, cuts)[m];
    if e.Copy? && e.of < m {
      CutLogged(hash, n, history, cuts, e.of, e.shard);
      CutSince(hash, n, history, cuts, e.of, m, e.shard);
    }
  }

  /** Cutting an orderly history anywhere leaves an orderly history. */
  lemma CutKeepsOrderly(fp: Arith, hash: Hash, n: nat, base: Collections, history: seq<Event>, cuts: seq<nat>)
    requires n > 0 && Orderly(fp, hash, n, base, history)
    ensures Orderly(fp, hash, n, base, Cut(hash, n, history, cuts))
  {
    var cut := Cut(hash, n, history, cuts);
    forall m | 0 <= m < |cut| ensures CopyOk(fp, hash, n, base, cut, m) {
      CutCopyOk(fp, hash, n, base, history, cuts, m);
    }
    forall m | 0 <= m < |cut| && cut[m].Request? && cut[m].cmd.collection in base
      ensures Uniform(hash, n, base[cut[m].cmd.collection].dim, SubCommand(hash, n, cut[m].cmd, cut[m].at))
    {
      UniformShrinks(hash, n, base[cut[m].cmd.collection].dim, cut[m].cmd, history[m].at, cut[m].at);
    }
  }

  /** A request whose every part was logged within its shard's cut is in the cut history whole. */
  lemma EarlyRequestStays(hash: Hash, n: nat, history: seq<Event>, cuts: seq<nat>, m: nat)
    requires n > 0 && m < |history| && history[m].Request?
    requires forall s: nat :: s < n && Logged(hash, n, history, m, s) ==> !Past(hash, n, history[..m], cuts, s)
    ensures var e := Cut(hash, n, history, cuts)[m];
      e.Request? && SubCommand(hash, n, e.cmd, e.at) == SubCommand(hash, n, history[m].cmd, history[m].at)
  {
    var e := Cut(hash, n, history, cuts)[m];
    forall s: nat | s < n && !IsEmpty(ShardCommand(hash, n, e.cmd, s)) ensures s in e.at <==> s in history[m].at {
      if s in history[m].at {
        assert Logged(hash, n, history, m, s);
      }
    }
    SubCommandAlike(hash, n, e.cmd, e.at, history[m].at);
  }

  /** A logged part lies within the shard's whole log. */
  lemma LoggedWithin(hash: Hash, n: nat, history: seq<Event>, m: nat, s: nat)
    requires n > 0 && m < |history| && Logged(hash, n, history, m, s)
    ensures |ShardLog(hash, n, history[..m], s)| < |ShardLog(hash, n, history, s)|
  {
    LogSplits(hash, n, history, m, |history|, s);
    assert history[..|history|] == history;
  }

  lemma {:induction false} SameRequests(hash: Hash, n: nat, a: seq<Event>, b: seq<Event>)
    requires n > 0 && |a| == |b|
    requires forall m :: 0 <= m < |a| ==> (a[m].Request? <==> b[m].Request?)
    requires forall m :: 0 <= m < |a| && b[m].Request? ==>
      a[m].Request? && SubCommand(hash, n, a[m].cmd, a[m].at) == SubCommand(hash, n, b[m].cmd, b[m].at)
    ensures Requests(hash, n, a) == Requests(hash, n, b)
  {
    if a != [] {
      SameRequests(hash, n, a[..|a| - 1], b[..|b| - 1]);
    }
  }
}
