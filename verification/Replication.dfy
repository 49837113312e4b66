/** One shard's replica group as a state machine over its steps.

    openraft's contract is assumed, not proved: one committed log that only grows, applied in order by every
    replica; snapshots that move a replica forward; and a linearizable read that is confirmed only once the
    replica has applied everything committed when the read began. */
module Replication {
  import opened Numeric
  import opened StoreSpec
  import opened Replay
  import opened StateMachineSpec
  import opened Creates

  const NO_MEMBERS := StoredMembership(None, Membership(map[]))

  /** `since` is bookkeeping for the statements below, which no replica keeps: how much of the log had been applied
      when each collection was created. A snapshot passes its sender's on. */
  type Births = map<string, nat>

  datatype Replica = Replica(live: bool, sm: Applied, since: Births)

  /** A snapshot that was built and may be installed. */
  datatype Shipped = Shipped(snap: RaftSnapshot, since: Births)

  /** A search in progress on replica `at`: `floor` and `acked` are the log length and the acknowledged
      positions when it began. */
  datatype Read = Read(at: nat, floor: nat, acked: set<nat>, confirmed: bool)

  /** A search that was answered from `store`, at log position `upTo`. */
  datatype ServedRead = ServedRead(floor: nat, acked: set<nat>, upTo: nat, store: Collections, since: Births)

  datatype State = State(
    log: seq<Entry>,
    replicas: seq<Replica>,
    snapshots: set<Shipped>,
    acked: set<nat>,
    pending: map<nat, Read>,
    served: set<ServedRead>)

  datatype Step =
    | Create(r: nat, name: string)
    | Commit(payload: Payload, term: U64, node: NodeId)
    | Ack(index: nat)
    | ApplyChunk(r: nat, count: nat)
    | BuildSnapshot(r: nat)
    | InstallSnapshot(r: nat, shipped: Shipped)
    | Crash(r: nat)
    | BeginRead(q: nat, r: nat)
    | ConfirmRead(q: nat)
    | ServeRead(q: nat)

  /** How many log entries a label stands for. */
  function Position(mark: Option<LogId>): nat {
    if mark.None? then 0 else mark.value.index + 1
  }

  predicate Live(s: State, r: nat) {
    r < |s.replicas| && s.replicas[r].live
  }

  function Pos(s: State, r: nat): nat
    requires r < |s.replicas|
  {
    Position(s.replicas[r].sm.lastApplied)
  }

  /** When a step can happen. `base` lists the collections and the settings their creates carry. */
  predicate Enabled(base: Collections, s: State, step: Step) {
    match step
    case Create(r, name) => Live(s, r) && name in base
    case Commit(_, _, _) => true
    case Ack(index) => index < |s.log|
    case ApplyChunk(r, count) => Live(s, r) && Pos(s, r) + count <= |s.log|
    case BuildSnapshot(r) => Live(s, r)
    case InstallSnapshot(r, x) => Live(s, r) && x in s.snapshots && Pos(s, r) <= Position(x.snap.lastLogId)
    case Crash(r) => Live(s, r)
    case BeginRead(q, r) => q !in s.pending && Live(s, r)
    case ConfirmRead(q) => q in s.pending && Live(s, s.pending[q].at) && s.pending[q].floor <= Pos(s, s.pending[q].at)
    case ServeRead(q) => q in s.pending && s.pending[q].confirmed && Live(s, s.pending[q].at)
  }

  function WithReplica(s: State, r: nat, sm: Applied, since: Births): State
    requires r < |s.replicas|
  {
    s.(replicas := s.replicas[r := s.replicas[r].(sm := sm, since := since)])
  }

  function SettingsOf(c: Collection): Settings {
    Settings(c.dim, c.shardCount)
  }

  function Effect(fp: Arith, base: Collections, s: State, step: Step): State
    requires Enabled(base, s, step)
  {
    match step
    case Create(r, name) =>
      var (sm, since) := (s.replicas[r].sm, s.replicas[r].since);
      WithReplica(s, r, sm.(store := CreateWith(sm.store, name, SettingsOf(base[name]))),
                  if name in sm.store then since else since[name := Pos(s, r)])
    case Commit(payload, term, node) => s.(log := s.log + [Entry(LogId(term, node, |s.log|), payload)])
    case Ack(index) => s.(acked := s.acked + {index})
    case ApplyChunk(r, count) =>
      WithReplica(s, r, StateAfter(fp, s.replicas[r].sm, s.log[Pos(s, r)..Pos(s, r) + count]), s.replicas[r].since)
    case BuildSnapshot(r) => s.(snapshots := s.snapshots + {Shipped(Build(s.replicas[r].sm), s.replicas[r].since)})
    case InstallSnapshot(r, x) => WithReplica(s, r, Install(fp, x.snap), x.since)
    case Crash(r) => s.(replicas := s.replicas[r := s.replicas[r].(live := false)])
    case BeginRead(q, r) => s.(pending := s.pending[q := Read(r, |s.log|, s.acked, false)])
    case ConfirmRead(q) => s.(pending := s.pending[q := s.pending[q].(confirmed := true)])
    case ServeRead(q) =>
      var read := s.pending[q];
      var at := s.replicas[read.at];
      s.(pending := s.pending - {q},
         served := s.served + {ServedRead(read.floor, read.acked, Pos(s, read.at), at.sm.store, at.since)})
  }

  /** A step that is not enabled does not happen. */
  ghost function Do(fp: Arith, base: Collections, s: State, step: Step): State {
    if Enabled(base, s, step) then Effect(fp, base, s, step) else s
  }

  function Initial(n: nat): State {
    State([], seq(n, _ => Replica(true, Applied(map[], None, NO_MEMBERS), map[])), {}, {}, map[], {})
  }

  /** The state after any sequence of steps. */
  ghost function After(fp: Arith, base: Collections, n: nat, steps: seq<Step>): State {
    if steps == [] then Initial(n)
    else Do(fp, base, After(fp, base, n, steps[..|steps| - 1]), steps[|steps| - 1])
  }

  // ---- Invariant ----

  ghost predicate BaseOk(base: Collections) {
    forall name :: name in base ==> base[name].shardCount >= 1 && base[name].vectors == map[]
  }

  /** Every collection of the store is the replay of the first `upTo` committed entries, from its creation on. */
  ghost predicate IsReplay(fp: Arith, base: Collections, log: seq<Entry>, upTo: nat, st: Collections, since: Births) {
    && upTo <= |log| && st.Keys == since.Keys && st.Keys <= base.Keys
    && forall name :: name in st ==> since[name] <= upTo && Replays(fp, base, log[since[name]..upTo], st, name)
  }

  ghost predicate Replays(fp: Arith, base: Collections, entries: seq<Entry>, st: Collections, name: string)
    requires name in st
  {
    name in Run(fp, base, Commands(entries)) && st[name] == Run(fp, base, Commands(entries))[name]
  }

  /** A replica is the fold of the committed prefix up to its own label. */
  ghost predicate ReplicaOk(fp: Arith, base: Collections, log: seq<Entry>, sm: Applied, since: Births) {
    var p := Position(sm.lastApplied);
    && IsReplay(fp, base, log, p, sm.store, since)
    && (p > 0 ==> sm.lastApplied == Some(log[p - 1].logId))
    && sm.lastMembership == LastMembershipIn(NO_MEMBERS, log[..p])
  }

  ghost predicate LogOk(log: seq<Entry>) {
    forall i :: 0 <= i < |log| ==> log[i].logId.index == i
  }

  ghost predicate ReadOk(s: State, read: Read) {
    && read.at < |s.replicas| && read.floor <= |s.log|
    && (forall i :: i in read.acked ==> i < read.floor)
    && (read.confirmed && Live(s, read.at) ==> read.floor <= Pos(s, read.at))
  }

  ghost predicate ServedOk(fp: Arith, base: Collections, s: State, v: ServedRead) {
    && IsReplay(fp, base, s.log, v.upTo, v.store, v.since)
    && v.floor <= v.upTo
    && forall i :: i in v.acked ==> i < v.floor
  }

  ghost predicate Inv(fp: Arith, base: Collections, s: State) {
    && LogOk(s.log)
    && (forall r :: 0 <= r < |s.replicas| && s.replicas[r].live ==>
          ReplicaOk(fp, base, s.log, s.replicas[r].sm, s.replicas[r].since))
    && (forall x :: x in s.snapshots ==>
          SnapshotOk(x.snap.data) && ReplicaOk(fp, base, s.log, Install(fp, x.snap), x.since))
    && (forall i :: i in s.acked ==> i < |s.log|)
    && (forall q :: q in s.pending ==> ReadOk(s, s.pending[q]))
    && (forall v :: v in s.served ==> ServedOk(fp, base, s, v))
  }

  // ---- Each step keeps it ----

  lemma {:induction false} CommandsConcat(a: seq<Entry>, b: seq<Entry>)
    ensures Commands(a + b) == Commands(a) + Commands(b)
  {
    if b == [] {
      assert a + b == a;
    } else {
      CommandsConcat(a, b[..|b| - 1]);
      assert (a + b)[..|a + b| - 1] == a + b[..|b| - 1];
    }
  }

  lemma {:induction false} MembershipConcat(m: StoredMembership, a: seq<Entry>, b: seq<Entry>)
    ensures LastMembershipIn(m, a + b) == LastMembershipIn(LastMembershipIn(m, a), b)
  {
    if b == [] {
      assert a + b == a;
    } else {
      MembershipConcat(m, a, b[..|b| - 1]);
      assert (a + b)[..|a + b| - 1] == a + b[..|b| - 1];
    }
  }

  lemma ReplaysOn(fp: Arith, base: Collections, a: seq<Entry>, b: seq<Entry>, st: Collections, name: string)
    requires name in st && Replays(fp, base, a, st, name)
    ensures name in Run(fp, st, Commands(b)) && Replays(fp, base, a + b, Run(fp, st, Commands(b)), name)
  {
    CommandsConcat(a, b);
    RunConcat(fp, base, Commands(a), Commands(b));
    RunLocal(fp, st, Run(fp, base, Commands(a)), Commands(b), name);
  }

  lemma ApplyKeepsReplay(fp: Arith, base: Collections, log: seq<Entry>, p: nat, end: nat,
                         st: Collections, since: Births)
    requires IsReplay(fp, base, log, p, st, since) && p <= end <= |log|
    ensures IsReplay(fp, base, log, end, Run(fp, st, Commands(log[p..end])), since)
  {
    var st' := Run(fp, st, Commands(log[p..end]));
    RunKeepsSchema(fp, st, Commands(log[p..end]));
    forall name | name in st' ensures since[name] <= end && Replays(fp, base, log[since[name]..end], st', name) {
      ReplaysOn(fp, base, log[since[name]..p], log[p..end], st, name);
      assert log[since[name]..p] + log[p..end] == log[since[name]..end];
    }
  }

  lemma ApplyKeepsReplicaOk(fp: Arith, base: Collections, log: seq<Entry>, sm: Applied, since: Births,
                            end: nat, sm': Applied)
    requires LogOk(log) && ReplicaOk(fp, base, log, sm, since) && Position(sm.lastApplied) <= end <= |log|
    requires sm' == StateAfter(fp, sm, log[Position(sm.lastApplied)..end])
    ensures ReplicaOk(fp, base, log, sm', since) && Position(sm'.lastApplied) == end
  {
    var p := Position(sm.lastApplied);
    var chunk := log[p..end];
    AppliedParts(fp, sm, chunk);
    assert Position(sm'.lastApplied) == end by {
      if chunk != [] {
        assert chunk[|chunk| - 1] == log[end - 1];
      }
    }
    ApplyKeepsReplay(fp, base, log, p, end, sm.store, since);
    MembershipAfter(log, p, chunk, end);
  }

  lemma MembershipAfter(log: seq<Entry>, p: nat, chunk: seq<Entry>, end: nat)
    requires p <= end <= |log| && chunk == log[p..end]
    ensures LastMembershipIn(LastMembershipIn(NO_MEMBERS, log[..p]), chunk) == LastMembershipIn(NO_MEMBERS, log[..end])
  {
    assert log[..end] == log[..p] + chunk;
    MembershipConcat(NO_MEMBERS, log[..p], chunk);
  }

  /** A new collection is the replay of nothing. */
  lemma CreateKeepsReplay(fp: Arith, base: Collections, log: seq<Entry>, upTo: nat,
                          st: Collections, since: Births, name: string)
    requires BaseOk(base) && IsReplay(fp, base, log, upTo, st, since) && name in base && name !in st
    ensures IsReplay(fp, base, log, upTo, CreateWith(st, name, SettingsOf(base[name])), since[name := upTo])
  {
    var st' := CreateWith(st, name, SettingsOf(base[name]));
    assert log[upTo..upTo] == [] && Commands([]) == [];
    forall c | c in st' ensures Replays(fp, base, log[since[name := upTo][c]..upTo], st', c) {
      assert c != name ==> Replays(fp, base, log[since[c]..upTo], st, c);
    }
  }

  lemma ReplicaStoreOk(fp: Arith, base: Collections, log: seq<Entry>, upTo: nat, st: Collections, since: Births)
    requires BaseOk(base) && IsReplay(fp, base, log, upTo, st, since)
    ensures StoreOk(fp, st)
  {
    forall name | name in st ensures st[name].shardCount >= 1 && VectorsOk(fp, st[name].dim, st[name].vectors) {
      assert Replays(fp, base, log[since[name]..upTo], st, name);
      RunKeepsOk(fp, base, Commands(log[since[name]..upTo]));
    }
  }

  lemma GrowKeepsReplay(fp: Arith, base: Collections, log: seq<Entry>, e: Entry, upTo: nat,
                        st: Collections, since: Births)
    requires IsReplay(fp, base, log, upTo, st, since)
    ensures IsReplay(fp, base, log + [e], upTo, st, since)
  {
    forall name | name in st ensures Replays(fp, base, (log + [e])[since[name]..upTo], st, name) {
      assert (log + [e])[since[name]..upTo] == log[since[name]..upTo];
    }
  }

  lemma GrowKeepsReplicaOk(fp: Arith, base: Collections, log: seq<Entry>, e: Entry, sm: Applied, since: Births)
    requires ReplicaOk(fp, base, log, sm, since)
    ensures ReplicaOk(fp, base, log + [e], sm, since)
  {
    var p := Position(sm.lastApplied);
    GrowKeepsReplay(fp, base, log, e, p, sm.store, since);
    assert (log + [e])[..p] == log[..p];
  }

  /** Moving one replica forward to another replay keeps everything else. */
  lemma ReplicaMoves(fp: Arith, base: Collections, s: State, r: nat, sm: Applied, since: Births)
    requires Inv(fp, base, s) && Live(s, r)
    requires ReplicaOk(fp, base, s.log, sm, since) && Pos(s, r) <= Position(sm.lastApplied)
    ensures Inv(fp, base, WithReplica(s, r, sm, since))
  {
    var s' := WithReplica(s, r, sm, since);
    forall q | q in s'.pending ensures ReadOk(s', s'.pending[q]) {
      assert ReadOk(s, s.pending[q]);
    }
    forall v | v in s'.served ensures ServedOk(fp, base, s', v) {
      assert ServedOk(fp, base, s, v);
    }
  }

  lemma CommitKeepsInv(fp: Arith, base: Collections, s: State, step: Step)
    requires Inv(fp, base, s) && step.Commit? && Enabled(base, s, step)
    ensures Inv(fp, base, Effect(fp, base, s, step))
  {
    var s' := Effect(fp, base, s, step);
    var e := s'.log[|s.log|];
    forall r | 0 <= r < |s'.replicas| && s'.replicas[r].live
      ensures ReplicaOk(fp, base, s'.log, s'.replicas[r].sm, s'.replicas[r].since)
    {
      assert Live(s, r);
      GrowKeepsReplicaOk(fp, base, s.log, e, s.replicas[r].sm, s.replicas[r].since);
    }
    forall x | x in s'.snapshots ensures ReplicaOk(fp, base, s'.log, Install(fp, x.snap), x.since) {
      GrowKeepsReplicaOk(fp, base, s.log, e, Install(fp, x.snap), x.since);
    }
    forall q | q in s'.pending ensures ReadOk(s', s'.pending[q]) {
      assert ReadOk(s, s.pending[q]);
    }
    forall v | v in s'.served ensures ServedOk(fp, base, s', v) {
      assert ServedOk(fp, base, s, v);
      GrowKeepsReplay(fp, base, s.log, e, v.upTo, v.store, v.since);
    }
  }

  lemma ReadStepKeepsInv(fp: Arith, base: Collections, s: State, step: Step)
    requires Inv(fp, base, s) && Enabled(base, s, step)
    requires step.BeginRead? || step.ConfirmRead? || step.ServeRead? || step.Ack? || step.Crash?
    ensures Inv(fp, base, Effect(fp, base, s, step))
  {
    var s' := Effect(fp, base, s, step);
    forall q | q in s'.pending ensures ReadOk(s', s'.pending[q]) {
      if q in s.pending {
        assert ReadOk(s, s.pending[q]);
      }
    }
    forall v | v in s'.served ensures ServedOk(fp, base, s', v) {
      if v in s.served {
        assert ServedOk(fp, base, s, v);
      } else {
        assert ReadOk(s, s.pending[step.q]);
        var at := s.replicas[s.pending[step.q].at];
        assert ReplicaOk(fp, base, s.log, at.sm, at.since);
      }
    }
  }

  lemma BuiltOk(fp: Arith, base: Collections, log: seq<Entry>, sm: Applied, since: Births)
    requires BaseOk(base) && ReplicaOk(fp, base, log, sm, since)
    ensures SnapshotOk(Build(sm).data) && ReplicaOk(fp, base, log, Install(fp, Build(sm)), since)
  {
    ReplicaStoreOk(fp, base, log, Position(sm.lastApplied), sm.store, since);
    SnapshotRoundTrip(fp, sm.store);
    InstallUndoesBuild(fp, sm);
  }

  lemma ShipKeepsInv(fp: Arith, base: Collections, s: State, x: Shipped)
    requires Inv(fp, base, s) && SnapshotOk(x.snap.data) && ReplicaOk(fp, base, s.log, Install(fp, x.snap), x.since)
    ensures Inv(fp, base, s.(snapshots := s.snapshots + {x}))
  {
    var s' := s.(snapshots := s.snapshots + {x});
    forall q | q in s'.pending ensures ReadOk(s', s'.pending[q]) {
      assert ReadOk(s, s.pending[q]);
    }
    forall v | v in s'.served ensures ServedOk(fp, base, s', v) {
      assert ServedOk(fp, base, s, v);
    }
  }

  lemma BuildKeepsInv(fp: Arith, base: Collections, s: State, r: nat)
    requires BaseOk(base) && Inv(fp, base, s) && Live(s, r)
    ensures Inv(fp, base, Effect(fp, base, s, BuildSnapshot(r)))
  {
    var sm, since := s.replicas[r].sm, s.replicas[r].since;
    assert Effect(fp, base, s, BuildSnapshot(r)) == s.(snapshots := s.snapshots + {Shipped(Build(sm), since)});
    BuiltOk(fp, base, s.log, sm, since);
    ShipKeepsInv(fp, base, s, Shipped(Build(sm), since));
  }

  lemma CreateKeepsInv(fp: Arith, base: Collections, s: State, r: nat, name: string)
    requires BaseOk(base) && Inv(fp, base, s) && Live(s, r) && name in base
    ensures Inv(fp, base, Effect(fp, base, s, Create(r, name)))
  {
    var sm, since := s.replicas[r].sm, s.replicas[r].since;
    if name in sm.store {
      ReplicaMoves(fp, base, s, r, sm, since);
    } else {
      CreateKeepsReplay(fp, base, s.log, Pos(s, r), sm.store, since, name);
      var st := CreateWith(sm.store, name, SettingsOf(base[name]));
      ReplicaMoves(fp, base, s, r, sm.(store := st), since[name := Pos(s, r)]);
    }
  }

  lemma ApplyKeepsInv(fp: Arith, base: Collections, s: State, r: nat, count: nat)
    requires Inv(fp, base, s) && Enabled(base, s, ApplyChunk(r, count))
    ensures Inv(fp, base, Effect(fp, base, s, ApplyChunk(r, count)))
  {
    var sm, since, p := s.replicas[r].sm, s.replicas[r].since, Pos(s, r);
    var sm' := StateAfter(fp, sm, s.log[p..p + count]);
    assert Effect(fp, base, s, ApplyChunk(r, count)) == WithReplica(s, r, sm', since);
    ApplyKeepsReplicaOk(fp, base, s.log, sm, since, p + count, sm');
    ReplicaMoves(fp, base, s, r, sm', since);
  }

  lemma InstallKeepsInv(fp: Arith, base: Collections, s: State, r: nat, x: Shipped)
    requires Inv(fp, base, s) && Live(s, r) && x in s.snapshots && Pos(s, r) <= Position(x.snap.lastLogId)
    ensures Inv(fp, base, Effect(fp, base, s, InstallSnapshot(r, x)))
  {
    ReplicaMoves(fp, base, s, r, Install(fp, x.snap), x.since);
  }

  lemma StepKeepsInv(fp: Arith, base: Collections, s: State, step: Step)
    requires BaseOk(base) && Inv(fp, base, s)
    ensures Inv(fp, base, Do(fp, base, s, step))
  {
    if Enabled(base, s, step) {
      match step
      case Create(r, name) => CreateKeepsInv(fp, base, s, r, name);
      case Commit(_, _, _) => CommitKeepsInv(fp, base, s, step);
      case ApplyChunk(r, count) => ApplyKeepsInv(fp, base, s, r, count);
      case BuildSnapshot(r) => BuildKeepsInv(fp, base, s, r);
      case InstallSnapshot(r, x) => InstallKeepsInv(fp, base, s, r, x);
      case _ => ReadStepKeepsInv(fp, base, s, step);
    }
  }

  /** In every run, after every step: each live replica is the fold of the committed prefix up to its own label,
      collection by collection from the collection's creation on; every snapshot in flight is such a fold, and every
      answered search saw one. */
  lemma {:induction false} EveryRun(fp: Arith, base: Collections, n: nat, steps: seq<Step>)
    requires BaseOk(base)
    ensures Inv(fp, base, After(fp, base, n, steps))
  {
    if steps == [] {
      assert Initial(n).log == [];
    } else {
      EveryRun(fp, base, n, steps[..|steps| - 1]);
      StepKeepsInv(fp, base, After(fp, base, n, steps[..|steps| - 1]), steps[|steps| - 1]);
    }
  }

  // ---- What the steps achieve ----

  lemma AfterSnoc(fp: Arith, base: Collections, n: nat, steps: seq<Step>, step: Step)
    ensures After(fp, base, n, steps + [step]) == Do(fp, base, After(fp, base, n, steps), step)
  {
    assert (steps + [step])[..|steps|] == steps;
  }

  /** All but replica r is as it was. */
  ghost predicate OnlyReplica(s: State, s': State, r: nat) {
    && |s'.replicas| == |s.replicas|
    && (forall i :: 0 <= i < |s.replicas| && i != r ==> s'.replicas[i] == s.replicas[i])
    && s'.log == s.log && s'.snapshots == s.snapshots && s'.acked == s.acked
    && s'.pending == s.pending && s'.served == s.served
  }

  /** A live replica gets a collection it asks for, empty if it is new, and keeps the others. */
  lemma CreateAdds(fp: Arith, base: Collections, s: State, r: nat, name: string)
    requires BaseOk(base) && Live(s, r) && name in base
    ensures var s' := Do(fp, base, s, Create(r, name));
      var (was, now) := (s.replicas[r].sm, s'.replicas[r].sm);
      && OnlyReplica(s, s', r) && Live(s', r) && Pos(s', r) == Pos(s, r)
      && now.store.Keys == was.store.Keys + {name}
      && (forall c :: c in was.store ==> now.store[c] == was.store[c])
      && (name !in was.store ==> now.store[name] == base[name] && s'.replicas[r].since[name] == Pos(s, r))
  {
  }

  /** A crash takes one replica out and touches nothing else. */
  lemma CrashStops(fp: Arith, base: Collections, s: State, r: nat)
    requires Live(s, r)
    ensures var s' := Do(fp, base, s, Crash(r)); OnlyReplica(s, s', r) && !Live(s', r)
  {
  }

  /** A live replica can apply any number of the entries it lacks, and stands that much further on. */
  lemma ApplyAdvances(fp: Arith, base: Collections, s: State, r: nat, count: nat)
    requires LogOk(s.log) && Live(s, r) && Pos(s, r) + count <= |s.log|
    ensures var s' := Do(fp, base, s, ApplyChunk(r, count));
      && OnlyReplica(s, s', r) && Live(s', r) && Pos(s', r) == Pos(s, r) + count
      && s'.replicas[r].since == s.replicas[r].since
  {
    var chunk := s.log[Pos(s, r)..Pos(s, r) + count];
    var sm := StateAfter(fp, s.replicas[r].sm, chunk);
    assert Do(fp, base, s, ApplyChunk(r, count)) == WithReplica(s, r, sm, s.replicas[r].since);
    AppliedMarks(fp, s.replicas[r].sm, chunk);
    if count > 0 {
      assert chunk[count - 1] == s.log[Pos(s, r) + count - 1];
    }
  }

  ghost predicate CaughtUp(s: State, s': State, r: nat) {
    OnlyReplica(s, s', r) && Live(s', r) && Pos(s', r) == |s'.log|
  }

  lemma CatchUpFrom(fp: Arith, base: Collections, s: State, r: nat, count: nat)
    requires LogOk(s.log) && Live(s, r) && Pos(s, r) + count == |s.log|
    ensures CaughtUp(s, Do(fp, base, s, ApplyChunk(r, count)), r)
  {
    ApplyAdvances(fp, base, s, r, count);
  }

  /** In every run a live replica is within the log (`LiveWithinLog`) and can catch up with all of it. */
  lemma CanCatchUp(fp: Arith, base: Collections, n: nat, steps: seq<Step>, r: nat, count: nat)
    requires BaseOk(base)
    requires var s := After(fp, base, n, steps); Live(s, r) && Pos(s, r) + count == |s.log|
    ensures CaughtUp(After(fp, base, n, steps), After(fp, base, n, steps + [ApplyChunk(r, count)]), r)
  {
    LiveWithinLog(fp, base, n, steps, r);
    CatchUpFrom(fp, base, After(fp, base, n, steps), r, count);
    AfterSnoc(fp, base, n, steps, ApplyChunk(r, count));
  }

  /** The log has grown by the command, replica r has applied it, and its position is acknowledged. */
  ghost predicate Wrote(s: State, s': State, cmd: Command, term: U64, node: NodeId, r: nat) {
    && s'.log == s.log + [Entry(LogId(term, node, |s.log|), Normal(cmd))]
    && Live(s', r) && Pos(s', r) == |s'.log| && s'.acked == s.acked + {|s.log|}
  }

  /** In every run a command can be committed, applied by a live replica and acknowledged. */
  lemma WriteRound(fp: Arith, base: Collections, n: nat, steps: seq<Step>, cmd: Command, term: U64, node: NodeId,
                   r: nat, count: nat)
    requires BaseOk(base)
    requires var s := After(fp, base, n, steps); Live(s, r) && Pos(s, r) + count == |s.log| + 1
    ensures var s := After(fp, base, n, steps);
      Wrote(s, After(fp, base, n, steps + [Commit(Normal(cmd), term, node)] + [ApplyChunk(r, count)] + [Ack(|s.log|)]),
            cmd, term, node, r)
  {
    var s, step := After(fp, base, n, steps), Commit(Normal(cmd), term, node);
    LiveWithinLog(fp, base, n, steps, r);
    WriteFrom(fp, base, s, cmd, term, node, r, count);
    AfterSnoc(fp, base, n, steps, step);
    AfterSnoc(fp, base, n, steps + [step], ApplyChunk(r, count));
    AfterSnoc(fp, base, n, steps + [step] + [ApplyChunk(r, count)], Ack(|s.log|));
  }

  lemma LiveWithinLog(fp: Arith, base: Collections, n: nat, steps: seq<Step>, r: nat)
    requires BaseOk(base) && Live(After(fp, base, n, steps), r)
    ensures var s := After(fp, base, n, steps); LogOk(s.log) && Pos(s, r) <= |s.log|
  {
    EveryRun(fp, base, n, steps);
    var s := After(fp, base, n, steps);
    assert ReplicaOk(fp, base, s.log, s.replicas[r].sm, s.replicas[r].since);
  }

  lemma WriteFrom(fp: Arith, base: Collections, s: State, cmd: Command, term: U64, node: NodeId, r: nat, count: nat)
    requires LogOk(s.log) && Live(s, r) && Pos(s, r) + count == |s.log| + 1
    ensures var s1 := Do(fp, base, s, Commit(Normal(cmd), term, node));
      var s2 := Do(fp, base, s1, ApplyChunk(r, count));
      var s3 := Do(fp, base, s2, Ack(|s.log|));
      Wrote(s, s3, cmd, term, node, r)
  {
    CommitAppends(fp, base, s, Normal(cmd), term, node);
    var s1 := Do(fp, base, s, Commit(Normal(cmd), term, node));
    ApplyAdvances(fp, base, s1, r, count);
    AckRecords(fp, base, Do(fp, base, s1, ApplyChunk(r, count)), |s.log|);
  }

  lemma CommitAppends(fp: Arith, base: Collections, s: State, payload: Payload, term: U64, node: NodeId)
    ensures Do(fp, base, s, Commit(payload, term, node))
         == s.(log := s.log + [Entry(LogId(term, node, |s.log|), payload)])
  {
  }

  lemma AckRecords(fp: Arith, base: Collections, s: State, index: nat)
    requires index < |s.log|
    ensures Do(fp, base, s, Ack(index)) == s.(acked := s.acked + {index})
  {
  }

  lemma {:induction false} SnapshotsStay(fp: Arith, base: Collections, n: nat, steps: seq<Step>, more: seq<Step>)
    ensures After(fp, base, n, steps).snapshots <= After(fp, base, n, steps + more).snapshots
  {
    if more == [] {
      assert steps + more == steps;
    } else {
      var k := |more| - 1;
      SnapshotsStay(fp, base, n, steps, more[..k]);
      assert steps + more == (steps + more[..k]) + [more[k]];
      AfterSnoc(fp, base, n, steps + more[..k], more[k]);
    }
  }

  /** Building and installing without anything in between: the receiver becomes the sender. */
  lemma InstallBecomes(fp: Arith, base: Collections, s: State, b: nat, sent: Replica)
    requires StoreOk(fp, sent.sm.store) && Live(s, b) && sent.live
    requires Shipped(Build(sent.sm), sent.since) in s.snapshots && Pos(s, b) <= Position(sent.sm.lastApplied)
    ensures var s' := Do(fp, base, s, InstallSnapshot(b, Shipped(Build(sent.sm), sent.since)));
      OnlyReplica(s, s', b) && s'.replicas[b] == sent
  {
    InstallUndoesBuild(fp, sent.sm);
  }

  lemma BuildShips(fp: Arith, base: Collections, s: State, a: nat)
    requires Live(s, a)
    ensures Shipped(Build(s.replicas[a].sm), s.replicas[a].since) in Do(fp, base, s, BuildSnapshot(a)).snapshots
  {
  }

  /** A snapshot carries a replica's state over: whatever happens in between, a live replica that is not ahead of it and
      installs it becomes what the sender was when it built it, label, membership and every collection. */
  lemma SnapshotTransfers(fp: Arith, base: Collections, n: nat, steps: seq<Step>, a: nat, more: seq<Step>, b: nat)
    requires BaseOk(base) && Live(After(fp, base, n, steps), a)
    requires var s' := After(fp, base, n, steps + [BuildSnapshot(a)] + more);
      Live(s', b) && Pos(s', b) <= Pos(After(fp, base, n, steps), a)
    ensures var sent := After(fp, base, n, steps).replicas[a];
      var x := Shipped(Build(sent.sm), sent.since);
      var (s', s'') := (After(fp, base, n, steps + [BuildSnapshot(a)] + more),
                        After(fp, base, n, steps + [BuildSnapshot(a)] + more + [InstallSnapshot(b, x)]));
      OnlyReplica(s', s'', b) && s''.replicas[b] == sent
  {
    var s := After(fp, base, n, steps);
    var sent := s.replicas[a];
    EveryRun(fp, base, n, steps);
    ReplicaStoreOk(fp, base, s.log, Pos(s, a), sent.sm.store, sent.since);
    AfterSnoc(fp, base, n, steps, BuildSnapshot(a));
    BuildShips(fp, base, s, a);
    SnapshotsStay(fp, base, n, steps + [BuildSnapshot(a)], more);
    var run := steps + [BuildSnapshot(a)] + more;
    AfterSnoc(fp, base, n, run, InstallSnapshot(b, Shipped(Build(sent.sm), sent.since)));
    InstallBecomes(fp, base, After(fp, base, n, run), b, sent);
  }

  /** Search q goes on at replica r with this floor and these acknowledged positions. */
  ghost predicate Searching(s: State, q: nat, r: nat, floor: nat, acked: set<nat>) {
    q in s.pending && s.pending[q].at == r && s.pending[q].floor == floor && s.pending[q].acked == acked
  }

  lemma SearchBegins(fp: Arith, base: Collections, s: State, q: nat, r: nat)
    requires q !in s.pending && Live(s, r)
    ensures var s' := Do(fp, base, s, BeginRead(q, r));
      Searching(s', q, r, |s.log|, s.acked) && !s'.pending[q].confirmed
  {
  }

  lemma SearchGoesOn(fp: Arith, base: Collections, s: State, step: Step, q: nat, r: nat, floor: nat, acked: set<nat>)
    requires Searching(s, q, r, floor, acked) && step != ServeRead(q)
    ensures Searching(Do(fp, base, s, step), q, r, floor, acked)
    ensures step != ConfirmRead(q) ==> Do(fp, base, s, step).pending[q].confirmed == s.pending[q].confirmed
  {
  }

  /** A search in progress keeps its replica, its floor and its acknowledged positions until it is answered. */
  lemma {:induction false} SearchStays(fp: Arith, base: Collections, n: nat, steps: seq<Step>, more: seq<Step>,
                                       q: nat, r: nat, floor: nat, acked: set<nat>)
    requires Searching(After(fp, base, n, steps), q, r, floor, acked) && ServeRead(q) !in more
    ensures Searching(After(fp, base, n, steps + more), q, r, floor, acked)
  {
    if more == [] {
      assert steps + more == steps;
    } else {
      var k := |more| - 1;
      SearchStays(fp, base, n, steps, more[..k], q, r, floor, acked);
      assert steps + more == (steps + more[..k]) + [more[k]];
      AfterSnoc(fp, base, n, steps + more[..k], more[k]);
      SearchGoesOn(fp, base, After(fp, base, n, steps + more[..k]), more[k], q, r, floor, acked);
    }
  }

  /** A confirmed leader answers from its own store. */
  lemma SearchEnds(fp: Arith, base: Collections, s: State, q: nat, r: nat, floor: nat, acked: set<nat>)
    requires Searching(s, q, r, floor, acked) && Live(s, r) && floor <= Pos(s, r)
    ensures var s' := Do(fp, base, Do(fp, base, s, ConfirmRead(q)), ServeRead(q));
      var at := s.replicas[r];
      && s'.served == s.served + {ServedRead(floor, acked, Pos(s, r), at.sm.store, at.since)}
      && s'.replicas == s.replicas && s'.log == s.log && s'.acked == s.acked && q !in s'.pending
  {
  }

  /** A search begun on a live replica can be answered, whatever happened in between, once that replica is live and has
      applied everything committed when it began; the answer then carries what was acknowledged at that moment and is
      given from the replica's own store. */
  lemma SearchRound(fp: Arith, base: Collections, n: nat, steps: seq<Step>, q: nat, r: nat, more: seq<Step>)
    requires var s := After(fp, base, n, steps);
      var s' := After(fp, base, n, steps + [BeginRead(q, r)] + more);
      q !in s.pending && Live(s, r) && ServeRead(q) !in more && Live(s', r) && |s.log| <= Pos(s', r)
    ensures var s := After(fp, base, n, steps);
      var s' := After(fp, base, n, steps + [BeginRead(q, r)] + more);
      var s'' := After(fp, base, n, steps + [BeginRead(q, r)] + more + [ConfirmRead(q)] + [ServeRead(q)]);
      var at := s'.replicas[r];
      && s''.served == s'.served + {ServedRead(|s.log|, s.acked, Pos(s', r), at.sm.store, at.since)}
      && s''.replicas == s'.replicas && s''.log == s'.log && s''.acked == s'.acked && q !in s''.pending
  {
    var s, begun := After(fp, base, n, steps), steps + [BeginRead(q, r)];
    AfterSnoc(fp, base, n, steps, BeginRead(q, r));
    SearchBegins(fp, base, s, q, r);
    SearchStays(fp, base, n, begun, more, q, r, |s.log|, s.acked);
    AfterSnoc(fp, base, n, begun + more, ConfirmRead(q));
    AfterSnoc(fp, base, n, begun + more + [ConfirmRead(q)], ServeRead(q));
    SearchEnds(fp, base, After(fp, base, n, begun + more), q, r, |s.log|, s.acked);
  }

  lemma {:induction false} StaysUnconfirmed(fp: Arith, base: Collections, n: nat, steps: seq<Step>, more: seq<Step>,
                                            q: nat, r: nat, floor: nat, acked: set<nat>)
    requires ConfirmRead(q) !in more
    requires var s := After(fp, base, n, steps); Searching(s, q, r, floor, acked) && !s.pending[q].confirmed
    ensures var s := After(fp, base, n, steps + more); Searching(s, q, r, floor, acked) && !s.pending[q].confirmed
  {
    if more == [] {
      assert steps + more == steps;
    } else {
      var k := |more| - 1;
      StaysUnconfirmed(fp, base, n, steps, more[..k], q, r, floor, acked);
      assert steps + more == (steps + more[..k]) + [more[k]];
      AfterSnoc(fp, base, n, steps + more[..k], more[k]);
      var s := After(fp, base, n, steps + more[..k]);
      if more[k] == ServeRead(q) {
        UnconfirmedWaits(fp, base, s, q);
      } else {
        SearchGoesOn(fp, base, s, more[k], q, r, floor, acked);
      }
    }
  }

  lemma UnconfirmedWaits(fp: Arith, base: Collections, s: State, q: nat)
    requires q in s.pending && !s.pending[q].confirmed
    ensures Do(fp, base, s, ServeRead(q)) == s
  {
  }

  /** Without the confirmation no answer is given, whatever happens after the search began. */
  lemma UnconfirmedStaysSilent(fp: Arith, base: Collections, n: nat, steps: seq<Step>, q: nat, r: nat, more: seq<Step>)
    requires q !in After(fp, base, n, steps).pending && Live(After(fp, base, n, steps), r) && ConfirmRead(q) !in more
    ensures var run := steps + [BeginRead(q, r)] + more;
      After(fp, base, n, run + [ServeRead(q)]) == After(fp, base, n, run)
  {
    var s, run := After(fp, base, n, steps), steps + [BeginRead(q, r)] + more;
    AfterSnoc(fp, base, n, steps, BeginRead(q, r));
    SearchBegins(fp, base, s, q, r);
    StaysUnconfirmed(fp, base, n, steps + [BeginRead(q, r)], more, q, r, |s.log|, s.acked);
    AfterSnoc(fp, base, n, run, ServeRead(q));
    UnconfirmedWaits(fp, base, After(fp, base, n, run), q);
  }

  // ---- What clients see ----

  /** From where on a store has followed the log for a collection: nowhere, if it does not have it. */
  function Birth(since: Births, name: string, upTo: nat): nat {
    if name in since then since[name] else upTo
  }

  /** Whatever the log left before `from` was written again after it. */
  ghost predicate NothingLost(fp: Arith, dim: nat, log: seq<Entry>, from: nat, upTo: nat, name: string)
    requires from <= upTo <= |log|
  {
    forall id :: Leaves(fp, dim, Commands(log[..from]), name, id) ==>
      LastWrite(fp, dim, Commands(log[from..upTo]), name, id).Some?
  }

  lemma ReplayCell(fp: Arith, base: Collections, log: seq<Entry>, upTo: nat,
                   st: Collections, since: Births, name: string, id: U64)
    requires BaseOk(base) && IsReplay(fp, base, log, upTo, st, since) && name in base
    ensures Birth(since, name, upTo) <= upTo
    ensures Lookup(st, name, id)
         == Overlay(None, LastWrite(fp, base[name].dim, Commands(log[Birth(since, name, upTo)..upTo]), name, id))
  {
    if name in st {
      assert Replays(fp, base, log[since[name]..upTo], st, name);
      RunLookup(fp, base, Commands(log[since[name]..upTo]), name, id);
    } else {
      assert log[upTo..upTo] == [] && Commands([]) == [];
    }
  }

  lemma WholeCell(fp: Arith, base: Collections, log: seq<Entry>, from: nat, upTo: nat, name: string, id: U64)
    requires BaseOk(base) && name in base && from <= upTo <= |log|
    ensures var before := LastWrite(fp, base[name].dim, Commands(log[..from]), name, id);
      var after := LastWrite(fp, base[name].dim, Commands(log[from..upTo]), name, id);
      Lookup(Run(fp, base, Commands(log[..upTo])), name, id) == Overlay(None, if after.Some? then after else before)
  {
    assert log[..upTo] == log[..from] + log[from..upTo];
    CommandsConcat(log[..from], log[from..upTo]);
    LastWriteConcat(fp, base[name].dim, Commands(log[..from]), Commands(log[from..upTo]), name, id);
    RunLookup(fp, base, Commands(log[..upTo]), name, id);
  }

  /** A replayed store shows a collection as the whole log makes it exactly when nothing the log left there before
      the collection was created is still missing. */
  lemma ShownRightIff(fp: Arith, base: Collections, log: seq<Entry>, upTo: nat,
                      st: Collections, since: Births, name: string)
    requires BaseOk(base) && IsReplay(fp, base, log, upTo, st, since) && name in base
    ensures Birth(since, name, upTo) <= upTo
    ensures SameUnder(st, Run(fp, base, Commands(log[..upTo])), name)
       <==> NothingLost(fp, base[name].dim, log, Birth(since, name, upTo), upTo, name)
  {
    var from, dim, whole := Birth(since, name, upTo), base[name].dim, Run(fp, base, Commands(log[..upTo]));
    forall id
      ensures Lookup(st, name, id) == Lookup(whole, name, id)
         <==> (Leaves(fp, dim, Commands(log[..from]), name, id) ==>
                 LastWrite(fp, dim, Commands(log[from..upTo]), name, id).Some?)
    {
      ReplayCell(fp, base, log, upTo, st, since, name, id);
      WholeCell(fp, base, log, from, upTo, name, id);
    }
    if SameUnder(st, whole, name) {
      forall id | Leaves(fp, dim, Commands(log[..from]), name, id)
        ensures LastWrite(fp, dim, Commands(log[from..upTo]), name, id).Some?
      {
        assert Lookup(st, name, id) == Lookup(whole, name, id);
      }
    }
  }

  /** In every run, every live replica shows each collection as the log it has applied makes it, exactly when nothing
      the log left there before the replica had the collection is still missing. */
  lemma ReplicaShownRightIff(fp: Arith, base: Collections, n: nat, steps: seq<Step>, r: nat, name: string)
    requires BaseOk(base) && Live(After(fp, base, n, steps), r) && name in base
    ensures var s := After(fp, base, n, steps);
      var from := Birth(s.replicas[r].since, name, Pos(s, r));
      && from <= Pos(s, r) <= |s.log|
      && (SameUnder(s.replicas[r].sm.store, Run(fp, base, Commands(s.log[..Pos(s, r)])), name)
          <==> NothingLost(fp, base[name].dim, s.log, from, Pos(s, r), name))
  {
    EveryRun(fp, base, n, steps);
    var s := After(fp, base, n, steps);
    assert ReplicaOk(fp, base, s.log, s.replicas[r].sm, s.replicas[r].since);
    ShownRightIff(fp, base, s.log, Pos(s, r), s.replicas[r].sm.store, s.replicas[r].since, name);
  }

  /** A collection that was there before any command named it has lost nothing. */
  lemma InTimeLosesNothing(fp: Arith, dim: nat, log: seq<Entry>, from: nat, upTo: nat, name: string)
    requires from <= upTo <= |log|
    requires forall k :: 0 <= k < |Commands(log[..from])| ==> Commands(log[..from])[k].collection != name
    ensures NothingLost(fp, dim, log, from, upTo, name)
  {
    forall id ensures !Leaves(fp, dim, Commands(log[..from]), name, id) {
      UnnamedUnwritten(fp, dim, Commands(log[..from]), name, id);
    }
  }

  lemma {:induction false} UnnamedUnwritten(fp: Arith, dim: nat, cmds: seq<Command>, name: string, id: U64)
    requires forall k :: 0 <= k < |cmds| ==> cmds[k].collection != name
    ensures LastWrite(fp, dim, cmds, name, id) == None
  {
    if cmds != [] {
      UnnamedUnwritten(fp, dim, cmds[..|cmds| - 1], name, id);
    }
  }

  ghost predicate Intact(fp: Arith, base: Collections, log: seq<Entry>, since: Births, upTo: nat, name: string)
    requires name in base
  {
    var from := Birth(since, name, upTo);
    from <= upTo <= |log| && NothingLost(fp, base[name].dim, log, from, upTo, name)
  }

  ghost predicate AllIntact(fp: Arith, base: Collections, log: seq<Entry>, since: Births, upTo: nat) {
    forall name :: name in base ==> Intact(fp, base, log, since, upTo, name)
  }

  /** The same label and membership, the same records in every collection neither has lost anything of, and equal
      altogether when they have the same collections and lost nothing. */
  ghost predicate Alike(fp: Arith, base: Collections, log: seq<Entry>, x: Replica, y: Replica, p: nat) {
    && x.sm.lastApplied == y.sm.lastApplied && x.sm.lastMembership == y.sm.lastMembership
    && (forall name :: name in base ==> AlikeIn(fp, base, log, x, y, p, name))
    && (AllIntact(fp, base, log, x.since, p) && AllIntact(fp, base, log, y.since, p) ==>
          (x.sm == y.sm <==> x.sm.store.Keys == y.sm.store.Keys))
  }

  ghost predicate AlikeIn(fp: Arith, base: Collections, log: seq<Entry>, x: Replica, y: Replica, p: nat, name: string)
    requires name in base
  {
    Intact(fp, base, log, x.since, p, name) && Intact(fp, base, log, y.since, p, name) ==>
      SameUnder(x.sm.store, y.sm.store, name)
  }

  /** In every run, live replicas at the same position are alike. */
  lemma ReplicasConverge(fp: Arith, base: Collections, n: nat, steps: seq<Step>, a: nat, b: nat)
    requires BaseOk(base)
    requires var s := After(fp, base, n, steps); Live(s, a) && Live(s, b) && Pos(s, a) == Pos(s, b)
    ensures var s := After(fp, base, n, steps); Alike(fp, base, s.log, s.replicas[a], s.replicas[b], Pos(s, a))
  {
    EveryRun(fp, base, n, steps);
    var s := After(fp, base, n, steps);
    ReplaysAlike(fp, base, s.log, s.replicas[a], s.replicas[b], Pos(s, a));
  }

  lemma ReplaysAlike(fp: Arith, base: Collections, log: seq<Entry>, x: Replica, y: Replica, p: nat)
    requires BaseOk(base) && ReplicaOk(fp, base, log, x.sm, x.since) && ReplicaOk(fp, base, log, y.sm, y.since)
    requires Position(x.sm.lastApplied) == Position(y.sm.lastApplied) == p
    ensures Alike(fp, base, log, x, y, p)
  {
    forall name | name in base ensures AlikeIn(fp, base, log, x, y, p, name) {
      if Intact(fp, base, log, x.since, p, name) && Intact(fp, base, log, y.since, p, name) {
        IntactAlike(fp, base, log, p, x.sm.store, x.since, y.sm.store, y.since, name);
      }
    }
    if AllIntact(fp, base, log, x.since, p) && AllIntact(fp, base, log, y.since, p)
       && x.sm.store.Keys == y.sm.store.Keys
    {
      SameShownSameStore(fp, base, log, p, x.sm.store, x.since, y.sm.store, y.since);
    }
  }

  lemma IntactAlike(fp: Arith, base: Collections, log: seq<Entry>, upTo: nat, a: Collections, sinceA: Births,
                    b: Collections, sinceB: Births, name: string)
    requires BaseOk(base) && name in base
    requires IsReplay(fp, base, log, upTo, a, sinceA) && IsReplay(fp, base, log, upTo, b, sinceB)
    requires Intact(fp, base, log, sinceA, upTo, name) && Intact(fp, base, log, sinceB, upTo, name)
    ensures SameUnder(a, b, name)
  {
    ShownRightIff(fp, base, log, upTo, a, sinceA, name);
    ShownRightIff(fp, base, log, upTo, b, sinceB, name);
    forall id ensures Lookup(a, name, id) == Lookup(b, name, id) {
      assert Lookup(a, name, id) == Lookup(Run(fp, base, Commands(log[..upTo])), name, id);
      assert Lookup(b, name, id) == Lookup(Run(fp, base, Commands(log[..upTo])), name, id);
    }
  }

  lemma ReplaySchema(fp: Arith, base: Collections, log: seq<Entry>, upTo: nat,
                     st: Collections, since: Births, name: string)
    requires IsReplay(fp, base, log, upTo, st, since) && name in st
    ensures st[name].dim == base[name].dim && st[name].shardCount == base[name].shardCount
  {
    assert Replays(fp, base, log[since[name]..upTo], st, name);
    RunKeepsSchema(fp, base, Commands(log[since[name]..upTo]));
  }

  lemma SameShownSameStore(fp: Arith, base: Collections, log: seq<Entry>, upTo: nat, a: Collections, sinceA: Births,
                           b: Collections, sinceB: Births)
    requires BaseOk(base) && a.Keys == b.Keys
    requires IsReplay(fp, base, log, upTo, a, sinceA) && IsReplay(fp, base, log, upTo, b, sinceB)
    requires AllIntact(fp, base, log, sinceA, upTo) && AllIntact(fp, base, log, sinceB, upTo)
    ensures a == b
  {
    forall name | name in a ensures a[name].dim == b[name].dim && a[name].shardCount == b[name].shardCount {
      ReplaySchema(fp, base, log, upTo, a, sinceA, name);
      ReplaySchema(fp, base, log, upTo, b, sinceB, name);
    }
    forall name, id ensures Lookup(a, name, id) == Lookup(b, name, id) {
      if name in a {
        IntactAlike(fp, base, log, upTo, a, sinceA, b, sinceB, name);
        assert SameUnder(a, b, name);
      }
    }
    SameLookupsSameStore(a, b);
  }

  /** In every run, for each id an acknowledged and accepted write touched before a search began, the answered search
      holds what that write or a later one in the log left there, exactly when that is nothing or one of them came
      after the collection was created; so always when the collection was there in time. */
  lemma ServedReadsSeeAckedWrites(fp: Arith, base: Collections, n: nat, steps: seq<Step>,
                                  v: ServedRead, i: nat, name: string, id: U64)
    requires BaseOk(base) && v in After(fp, base, n, steps).served && i in v.acked && name in base
    requires var s := After(fp, base, n, steps);
      i < |s.log| && s.log[i].payload.Normal? && Write(fp, base[name].dim, s.log[i].payload.cmd, name, id).Some?
    ensures var s := After(fp, base, n, steps);
      var from := Birth(v.since, name, v.upTo);
      && i < v.upTo <= |s.log| && from <= v.upTo
      && var w := LastWrite(fp, base[name].dim, Commands(s.log[i..v.upTo]), name, id);
         var seen := Lookup(v.store, name, id) == Overlay(None, w);
         && w.Some?
         && (seen <==> w.value.Gone? || LastWrite(fp, base[name].dim, Commands(s.log[from..v.upTo]), name, id).Some?)
         && (from <= i ==> seen)
  {
    EveryRun(fp, base, n, steps);
    var s := After(fp, base, n, steps);
    assert ServedOk(fp, base, s, v);
    ReplayShowsWrite(fp, base, s.log, v.upTo, v.store, v.since, i, name, id);
  }

  lemma WriteLasts(fp: Arith, dim: nat, log: seq<Entry>, i: nat, upTo: nat, name: string, id: U64)
    requires i < upTo <= |log| && log[i].payload.Normal? && Write(fp, dim, log[i].payload.cmd, name, id).Some?
    ensures LastWrite(fp, dim, Commands(log[i..upTo]), name, id).Some?
  {
    var cmd := log[i].payload.cmd;
    assert log[i..upTo] == [log[i]] + log[i + 1..upTo];
    CommandsConcat([log[i]], log[i + 1..upTo]);
    assert [log[i]][..0] == [] && Commands([log[i]]) == [cmd];
    LastWriteConcat(fp, dim, [cmd], Commands(log[i + 1..upTo]), name, id);
    assert [cmd][..0] == [] && LastWrite(fp, dim, [cmd], name, id).Some?;
  }

  /** The last write of a stretch is the last write of any longer one that ends with it. */
  lemma LaterWriteWins(fp: Arith, dim: nat, log: seq<Entry>, i: nat, j: nat, upTo: nat, name: string, id: U64)
    requires i <= j <= upTo <= |log|
    ensures var w := LastWrite(fp, dim, Commands(log[j..upTo]), name, id);
      w.Some? ==> LastWrite(fp, dim, Commands(log[i..upTo]), name, id) == w
  {
    assert log[i..upTo] == log[i..j] + log[j..upTo];
    CommandsConcat(log[i..j], log[j..upTo]);
    LastWriteConcat(fp, dim, Commands(log[i..j]), Commands(log[j..upTo]), name, id);
  }

  lemma ReplayShowsWrite(fp: Arith, base: Collections, log: seq<Entry>, upTo: nat, st: Collections, since: Births,
                         i: nat, name: string, id: U64)
    requires BaseOk(base) && IsReplay(fp, base, log, upTo, st, since) && i < upTo && name in base
    requires log[i].payload.Normal? && Write(fp, base[name].dim, log[i].payload.cmd, name, id).Some?
    ensures Birth(since, name, upTo) <= upTo
    ensures var from := Birth(since, name, upTo);
      var w := LastWrite(fp, base[name].dim, Commands(log[i..upTo]), name, id);
      var seen := Lookup(st, name, id) == Overlay(None, w);
      && w.Some?
      && (seen <==> w.value.Gone? || LastWrite(fp, base[name].dim, Commands(log[from..upTo]), name, id).Some?)
      && (from <= i ==> seen)
  {
    var from, dim := Birth(since, name, upTo), base[name].dim;
    ReplayCell(fp, base, log, upTo, st, since, name, id);
    WriteLasts(fp, dim, log, i, upTo, name, id);
    if from <= i {
      LaterWriteWins(fp, dim, log, from, i, upTo, name, id);
    } else {
      LaterWriteWins(fp, dim, log, i, from, upTo, name, id);
    }
  }

  /** The quorum check is what prevents stale answers: some run reaches a state where an acknowledged,
      accepted write is missing from a live replica's store. */
  lemma UnconfirmedReplicaCanBeStale(fp: Arith)
    ensures var s := After(fp, ONE_COLLECTION, 2,
                           [Create(0, "c"), Create(1, "c"), Commit(Normal(ONE_PUT), 1, 0), ApplyChunk(0, 1), Ack(0)]);
      && 0 in s.acked && Live(s, 0) && Live(s, 1)
      && Lookup(s.replicas[0].sm.store, "c", 7).Some? && Lookup(s.replicas[1].sm.store, "c", 7).None?
  {
    var base := ONE_COLLECTION;
    FiveSteps(fp, base, 2, Create(0, "c"), Create(1, "c"), Commit(Normal(ONE_PUT), 1, 0), ApplyChunk(0, 1), Ack(0));
    var created := Applied(base, None, NO_MEMBERS);
    var log := [Entry(LogId(1, 0, 0), Normal(ONE_PUT))];
    assert Do(fp, base, Do(fp, base, Initial(2), Create(0, "c")), Create(1, "c"))
        == State([], [Replica(true, created, map["c" := 0]), Replica(true, created, map["c" := 0])], {}, {}, map[], {});
    PutShows(fp, created, log);
    assert log[0..1] == log;
  }

  lemma PutShows(fp: Arith, s: Applied, log: seq<Entry>)
    requires s.store == ONE_COLLECTION && log == [Entry(LogId(1, 0, 0), Normal(ONE_PUT))]
    ensures Lookup(s.store, "c", 7).None? && Lookup(StateAfter(fp, s, log).store, "c", 7).Some?
  {
    AppliedParts(fp, s, log);
    assert log[..0] == [] && Commands(log) == [ONE_PUT];
    OnePutWrites(fp);
  }

  lemma FiveSteps(fp: Arith, base: Collections, n: nat, a: Step, b: Step, c: Step, d: Step, e: Step)
    ensures After(fp, base, n, [a, b, c, d, e])
         == Do(fp, base, Do(fp, base, Do(fp, base, Do(fp, base, Do(fp, base, Initial(n), a), b), c), d), e)
  {
    assert [a][..0] == [] && [a, b][..1] == [a] && [a, b, c][..2] == [a, b];
    assert [a, b, c, d][..3] == [a, b, c] && [a, b, c, d, e][..4] == [a, b, c, d];
    assert After(fp, base, n, [a]) == Do(fp, base, Initial(n), a);
    assert After(fp, base, n, [a, b]) == Do(fp, base, After(fp, base, n, [a]), b);
    assert After(fp, base, n, [a, b, c]) == Do(fp, base, After(fp, base, n, [a, b]), c);
    assert After(fp, base, n, [a, b, c, d]) == Do(fp, base, After(fp, base, n, [a, b, c]), d);
  }
}
