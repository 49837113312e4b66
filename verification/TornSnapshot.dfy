/** Building a snapshot while entries are being applied.

    `apply` writes the label of an entry, then its effect: two steps per entry. The builder reads
    the store, then the label, then the membership, with no lock over the three. Times count
    apply steps, so at time t the labels of (t + 1) / 2 entries and the effects of t / 2 are in. */
module TornSnapshot {
  import opened Numeric
  import opened StoreSpec
  import opened Replay
  import opened StateMachineSpec

  function Labelled(t: nat): nat { (t + 1) / 2 }

  function Effective(t: nat): nat { t / 2 }

  /** The snapshot of a builder that reads the store at t1, the label at t2, the membership at t3. */
  function BuildDuring(fp: Arith, s: Applied, log: seq<Entry>, t1: nat, t2: nat, t3: nat): RaftSnapshot
    requires t1 <= t2 <= t3 < 2 * |log|
  {
    RaftSnapshot(
      StateAfter(fp, s, log[..Labelled(t2)]).lastApplied,
      StateAfter(fp, s, log[..Effective(t3)]).lastMembership,
      TakeSnapshot(StateAfter(fp, s, log[..Effective(t1)]).store))
  }

  /** The snapshot is the state its label claims, whatever was being applied. */
  ghost predicate AlwaysExact(fp: Arith, t1: nat, t2: nat, t3: nat)
    requires t1 <= t2 <= t3
  {
    forall s: Applied, log: seq<Entry> :: StoreOk(fp, s.store) && t3 < 2 * |log| ==>
      Install(fp, BuildDuring(fp, s, log, t1, t2, t3)) == StateAfter(fp, s, log[..Labelled(t2)])
  }

  /** A log of blanks with one payload at position p. */
  function OneAt(n: nat, p: nat, payload: Payload): seq<Entry> {
    seq(n, i requires 0 <= i < n => Entry(LogId(0, 0, i), if i == p then payload else Blank))
  }

  lemma {:induction false} OneAtParts(n: nat, p: nat, payload: Payload, m: StoredMembership)
    ensures Commands(OneAt(n, p, payload)) == if p < n && payload.Normal? then [payload.cmd] else []
    ensures LastMembershipIn(m, OneAt(n, p, payload))
         == if p < n && payload.Configure? then StoredMembership(Some(LogId(0, 0, p)), payload.membership) else m
  {
    if n > 0 {
      OneAtParts(n - 1, p, payload, m);
      assert OneAt(n, p, payload)[..n - 1] == OneAt(n - 1, p, payload);
    }
  }

  lemma OneAtPrefix(n: nat, p: nat, payload: Payload, cut: nat)
    requires cut <= n
    ensures OneAt(n, p, payload)[..cut] == OneAt(cut, p, payload)
  {
  }

  const START := Applied(ONE_COLLECTION, None, StoredMembership(None, Membership(map[])))

  lemma StoreTorn(fp: Arith, t1: nat, t2: nat, t3: nat)
    requires t1 <= t2 <= t3 && Effective(t1) < Labelled(t2)
    ensures !AlwaysExact(fp, t1, t2, t3)
  {
    var payload := Normal(ONE_PUT);
    var p, n := Effective(t1), t3 + 1;
    var log := OneAt(n, p, payload);
    var early, late := StateAfter(fp, START, log[..p]), StateAfter(fp, START, log[..Labelled(t2)]);
    OneAtPrefix(n, p, payload, p);
    OneAtPrefix(n, p, payload, Labelled(t2));
    AppliedParts(fp, START, log[..p]);
    AppliedParts(fp, START, log[..Labelled(t2)]);
    OneAtParts(p, p, payload, START.lastMembership);
    OneAtParts(Labelled(t2), p, payload, START.lastMembership);
    OnePutWrites(fp);
    assert Lookup(early.store, "c", 7) == None && Lookup(late.store, "c", 7).Some?;
    ApplyKeepsOk(fp, START, log[..p]);
    SnapshotRoundTrip(fp, early.store);
    var snap := BuildDuring(fp, START, log, t1, t2, t3);
    assert Install(fp, snap).store == early.store;
    assert Install(fp, snap) != late;
  }

  lemma MembershipTorn(fp: Arith, t1: nat, t2: nat, t3: nat)
    requires t1 <= t2 <= t3 && Labelled(t2) < Effective(t3)
    ensures !AlwaysExact(fp, t1, t2, t3)
  {
    var payload := Configure(Membership(map[1 := "a"]));
    var p, n := Labelled(t2), t3 + 1;
    var log := OneAt(n, p, payload);
    var late := StateAfter(fp, START, log[..p]);
    OneAtPrefix(n, p, payload, p);
    OneAtPrefix(n, p, payload, Effective(t3));
    AppliedParts(fp, START, log[..p]);
    AppliedParts(fp, START, log[..Effective(t3)]);
    OneAtParts(p, p, payload, START.lastMembership);
    OneAtParts(Effective(t3), p, payload, START.lastMembership);
    var snap := BuildDuring(fp, START, log, t1, t2, t3);
    assert Install(fp, snap).lastMembership != late.lastMembership;
  }

  /** The unlocked build is exact for every log exactly when no entry is half applied at the store
      read, none starts before the label read, and none takes effect before the membership read. */
  lemma UnlockedBuildExactIff(fp: Arith, t1: nat, t2: nat, t3: nat)
    requires t1 <= t2 <= t3
    ensures AlwaysExact(fp, t1, t2, t3) <==> t1 % 2 == 0 && t2 == t1 && t3 <= t1 + 1
  {
    if Effective(t1) < Labelled(t2) {
      StoreTorn(fp, t1, t2, t3);
    } else if Labelled(t2) < Effective(t3) {
      MembershipTorn(fp, t1, t2, t3);
    } else {
      forall s: Applied, log: seq<Entry> | StoreOk(fp, s.store) && t3 < 2 * |log|
        ensures Install(fp, BuildDuring(fp, s, log, t1, t2, t3)) == StateAfter(fp, s, log[..Labelled(t2)])
      {
        ApplyKeepsOk(fp, s, log[..Labelled(t2)]);
        InstallUndoesBuild(fp, StateAfter(fp, s, log[..Labelled(t2)]));
      }
    }
  }

  /** The label never lags the store, so what a torn snapshot loses is a stretch of skipped entries: a replica that
      installs it and follows the log misses exactly those in its store, and its membership may come from later. */
  lemma TornBuildSkips(fp: Arith, s: Applied, log: seq<Entry>, t1: nat, t2: nat, t3: nat)
    requires StoreOk(fp, s.store) && t1 <= t2 <= t3 < 2 * |log|
    ensures Effective(t1) <= Labelled(t2) <= |log| && Effective(t3) <= |log|
    ensures var after := StateAfter(fp, Install(fp, BuildDuring(fp, s, log, t1, t2, t3)), log[Labelled(t2)..]);
      && after.store == Run(fp, s.store, Commands(log[..Effective(t1)]) + Commands(log[Labelled(t2)..]))
      && after.lastApplied == StateAfter(fp, s, log).lastApplied
      && after.lastMembership
         == LastMembershipIn(LastMembershipIn(s.lastMembership, log[..Effective(t3)]), log[Labelled(t2)..])
  {
    var p, q := Effective(t1), Labelled(t2);
    var base := Install(fp, BuildDuring(fp, s, log, t1, t2, t3));
    ApplyKeepsOk(fp, s, log[..p]);
    SnapshotRoundTrip(fp, StateAfter(fp, s, log[..p]).store);
    AppliedStore(fp, s, log[..p]);
    AppliedStore(fp, base, log[q..]);
    RunConcat(fp, s.store, Commands(log[..p]), Commands(log[q..]));
    AppliedMarks(fp, s, log[..q]);
    AppliedMarks(fp, s, log[..Effective(t3)]);
    AppliedMarks(fp, s, log);
    AppliedMarks(fp, base, log[q..]);
    assert q == |log| ==> log[..q] == log;
  }
}
