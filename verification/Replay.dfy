/** Replicated commands, and what replaying a log of them leaves under each id. */
module Replay {
  import opened Numeric
  import opened Record
  import opened StoreSpec

  datatype Command =
    | Upsert(collection: string, records: seq<VectorRecord>)
    | Delete(collection: string, ids: seq<U64>)

  /** Applies one command; a rejection changes nothing and counts 0. */
  function RunOne(fp: Arith, st: Collections, cmd: Command): (Collections, U32) {
    var (st', r) :=
      match cmd
      case Upsert(name, records) => InsertInto(fp, st, name, records)
      case Delete(name, ids) => DeleteFrom(st, name, ids);
    (st', AsU32(if r.Ok? then r.value else 0))
  }

  function Run(fp: Arith, st: Collections, cmds: seq<Command>): Collections {
    if cmds == [] then st
    else RunOne(fp, Run(fp, st, cmds[..|cmds| - 1]), cmds[|cmds| - 1]).0
  }

  // ---- Last-writer semantics ----

  /** What a command writes under one id. */
  datatype Cell = Put(vector: StoredVector) | Gone

  function Write(fp: Arith, dim: nat, cmd: Command, name: string, id: U64): Option<Cell> {
    if cmd.collection != name then None else
      match cmd
      case Upsert(_, records) =>
        if !DimsOk(dim, records) then None else
          (match LastRecord(records, id) case Some(r) => Some(Put(Stored(fp, r))) case None => None)
      case Delete(_, ids) => if id in ids then Some(Gone) else None
  }

  /** The last write to one id in a log. */
  function LastWrite(fp: Arith, dim: nat, cmds: seq<Command>, name: string, id: U64): Option<Cell> {
    if cmds == [] then None else
      var w := Write(fp, dim, cmds[|cmds| - 1], name, id);
      if w.Some? then w else LastWrite(fp, dim, cmds[..|cmds| - 1], name, id)
  }

  function Overlay(before: Option<StoredVector>, w: Option<Cell>): Option<StoredVector> {
    match w
    case None => before
    case Some(Put(v)) => Some(v)
    case Some(Gone) => None
  }

  lemma RunOneLookup(fp: Arith, st: Collections, cmd: Command, name: string, id: U64)
    requires name in st
    ensures SameSchema(RunOne(fp, st, cmd).0, st)
    ensures Lookup(RunOne(fp, st, cmd).0, name, id)
         == Overlay(Lookup(st, name, id), Write(fp, st[name].dim, cmd, name, id))
  {
    if cmd.Upsert? && cmd.collection == name && DimsOk(st[name].dim, cmd.records) {
      UpsertLookup(fp, st[name].vectors, cmd.records, id);
    }
  }

  lemma {:induction false} RunKeepsSchema(fp: Arith, st: Collections, cmds: seq<Command>)
    ensures SameSchema(Run(fp, st, cmds), st)
  {
    if cmds != [] {
      RunKeepsSchema(fp, st, cmds[..|cmds| - 1]);
    }
  }

  lemma {:induction false} RunKeepsOk(fp: Arith, st: Collections, cmds: seq<Command>)
    requires StoreOk(fp, st)
    ensures StoreOk(fp, Run(fp, st, cmds))
  {
    if cmds != [] {
      RunKeepsOk(fp, st, cmds[..|cmds| - 1]);
      var mid, cmd := Run(fp, st, cmds[..|cmds| - 1]), cmds[|cmds| - 1];
      OperationsKeepOk(fp, mid, cmd.collection, if cmd.Upsert? then cmd.records else [],
                       if cmd.Delete? then cmd.ids else [], 0, 0);
    }
  }

  lemma RunOneLocal(fp: Arith, a: Collections, b: Collections, cmd: Command, name: string)
    requires name in a && name in b && a[name] == b[name]
    ensures var (a', b') := (RunOne(fp, a, cmd).0, RunOne(fp, b, cmd).0);
      name in a' && name in b' && a'[name] == b'[name]
  {
  }

  /** What a replay makes of a collection depends on that collection alone. */
  lemma {:induction false} RunLocal(fp: Arith, a: Collections, b: Collections, cmds: seq<Command>, name: string)
    requires name in a && name in b && a[name] == b[name]
    ensures name in Run(fp, a, cmds) && name in Run(fp, b, cmds) && Run(fp, a, cmds)[name] == Run(fp, b, cmds)[name]
  {
    if cmds != [] {
      var init := cmds[..|cmds| - 1];
      RunLocal(fp, a, b, init, name);
      RunOneLocal(fp, Run(fp, a, init), Run(fp, b, init), cmds[|cmds| - 1], name);
    }
  }

  /** Replaying a log leaves under each id what its last accepted write put there. */
  lemma {:induction false} RunLookup(fp: Arith, st: Collections, cmds: seq<Command>, name: string, id: U64)
    requires name in st
    ensures Lookup(Run(fp, st, cmds), name, id)
         == Overlay(Lookup(st, name, id), LastWrite(fp, st[name].dim, cmds, name, id))
  {
    if cmds != [] {
      var init := cmds[..|cmds| - 1];
      RunLookup(fp, st, init, name, id);
      RunKeepsSchema(fp, st, init);
      RunOneLookup(fp, Run(fp, st, init), cmds[|cmds| - 1], name, id);
    }
  }

  /** Two logs with the same last writes leave the same store. */
  lemma SameWritesSameStore(fp: Arith, st: Collections, a: seq<Command>, b: seq<Command>)
    requires forall name, id :: name in st ==>
      LastWrite(fp, st[name].dim, a, name, id) == LastWrite(fp, st[name].dim, b, name, id)
    ensures Run(fp, st, a) == Run(fp, st, b)
  {
    RunKeepsSchema(fp, st, a);
    RunKeepsSchema(fp, st, b);
    forall name, id ensures Lookup(Run(fp, st, a), name, id) == Lookup(Run(fp, st, b), name, id) {
      if name in st {
        RunLookup(fp, st, a, name, id);
        RunLookup(fp, st, b, name, id);
        assert LastWrite(fp, st[name].dim, a, name, id) == LastWrite(fp, st[name].dim, b, name, id);
      }
    }
    SameLookupsSameStore(Run(fp, st, a), Run(fp, st, b));
  }

  lemma {:induction false} LastWriteConcat(fp: Arith, dim: nat, a: seq<Command>, b: seq<Command>, name: string, id: U64)
    ensures LastWrite(fp, dim, a + b, name, id)
         == var w := LastWrite(fp, dim, b, name, id); if w.Some? then w else LastWrite(fp, dim, a, name, id)
  {
    if b == [] {
      assert a + b == a;
    } else {
      LastWriteConcat(fp, dim, a, b[..|b| - 1], name, id);
      assert (a + b)[..|a + b| - 1] == a + b[..|b| - 1];
    }
  }

  lemma LastWriteSnoc(fp: Arith, dim: nat, cmds: seq<Command>, cmd: Command, name: string, id: U64)
    ensures LastWrite(fp, dim, cmds + [cmd], name, id)
         == var w := Write(fp, dim, cmd, name, id); if w.Some? then w else LastWrite(fp, dim, cmds, name, id)
  {
    assert (cmds + [cmd])[..|cmds|] == cmds;
  }

  lemma {:induction false} RunConcat(fp: Arith, st: Collections, a: seq<Command>, b: seq<Command>)
    ensures Run(fp, st, a + b) == Run(fp, Run(fp, st, a), b)
  {
    if b == [] {
      assert a + b == a;
    } else {
      RunConcat(fp, st, a, b[..|b| - 1]);
      assert (a + b)[..|a + b| - 1] == a + b[..|b| - 1];
    }
  }

  lemma RunSnoc(fp: Arith, st: Collections, cmds: seq<Command>, cmd: Command)
    ensures Run(fp, st, cmds + [cmd]) == RunOne(fp, Run(fp, st, cmds), cmd).0
  {
    assert (cmds + [cmd])[..|cmds|] == cmds;
  }

  // ---- Replays and retries ----

  /** `later` overwrites nothing `first` wrote, except with the same content. */
  ghost predicate Agrees(fp: Arith, st: Collections, first: seq<Command>, later: seq<Command>) {
    forall name, id :: name in st ==>
      var v := LastWrite(fp, st[name].dim, first, name, id);
      var w := LastWrite(fp, st[name].dim, later, name, id);
      v.Some? && w.Some? ==> v == w
  }

  lemma ReplayLookup(fp: Arith, st: Collections, a: seq<Command>, b: seq<Command>, c: seq<Command>,
                     name: string, id: U64)
    requires name in st
    ensures var dim := st[name].dim;
      var before := Overlay(Lookup(st, name, id), LastWrite(fp, dim, a, name, id));
      var v, w := LastWrite(fp, dim, b, name, id), LastWrite(fp, dim, c, name, id);
      && Lookup(Run(fp, st, a + b + c), name, id) == Overlay(Overlay(before, v), w)
      && Lookup(Run(fp, st, a + b + c + b), name, id) == Overlay(Overlay(before, w), v)
  {
    var dim := st[name].dim;
    RunLookup(fp, st, a + b + c, name, id);
    RunLookup(fp, st, a + b + c + b, name, id);
    LastWriteConcat(fp, dim, a + b + c, b, name, id);
    LastWriteConcat(fp, dim, a + b, c, name, id);
    LastWriteConcat(fp, dim, a, b, name, id);
  }

  /** Applying a stretch `b` of the log a second time is invisible exactly when what came
      after it (`c`) wrote nothing different to the ids `b` writes. */
  lemma ReplayInvisibleIff(fp: Arith, st: Collections, a: seq<Command>, b: seq<Command>, c: seq<Command>)
    ensures Run(fp, st, a + b + c + b) == Run(fp, st, a + b + c) <==> Agrees(fp, st, b, c)
  {
    var x, y := Run(fp, st, a + b + c + b), Run(fp, st, a + b + c);
    RunKeepsSchema(fp, st, a + b + c + b);
    RunKeepsSchema(fp, st, a + b + c);
    forall name, id | name in st
      ensures var v := LastWrite(fp, st[name].dim, b, name, id);
        var w := LastWrite(fp, st[name].dim, c, name, id);
        Lookup(x, name, id) == Lookup(y, name, id) <==> (v.Some? && w.Some? ==> v == w)
    {
      ReplayLookup(fp, st, a, b, c, name, id);
    }
    if Agrees(fp, st, b, c) {
      forall name, id ensures Lookup(x, name, id) == Lookup(y, name, id) {
        if name in st {
          assert Lookup(x, name, id) == Lookup(y, name, id);
        }
      }
      SameLookupsSameStore(x, y);
    }
  }

  /** Re-applying the end of the log changes nothing. */
  lemma SuffixReplayInvisible(fp: Arith, st: Collections, a: seq<Command>, b: seq<Command>)
    ensures Run(fp, st, a + b + b) == Run(fp, st, a + b)
  {
    assert Agrees(fp, st, b, []);
    ReplayInvisibleIff(fp, st, a, b, []);
    assert a + b + [] == a + b;
  }

  ghost predicate Names(cmd: Command, id: U64) {
    match cmd
    case Upsert(_, records) => exists r :: r in records && r.id == id
    case Delete(_, ids) => id in ids
  }

  /** A retried command with only commands on other ids (or collections) in between acts like one copy. */
  lemma RetryInvisible(fp: Arith, st: Collections, a: seq<Command>, cmd: Command, between: seq<Command>)
    requires forall i, id :: 0 <= i < |between| && between[i].collection == cmd.collection && Names(between[i], id) ==>
      !Names(cmd, id)
    ensures Run(fp, st, a + [cmd] + between + [cmd]) == Run(fp, st, a + [cmd] + between)
  {
    forall name, id | name in st && LastWrite(fp, st[name].dim, [cmd], name, id).Some?
      ensures LastWrite(fp, st[name].dim, between, name, id).None?
    {
      var dim := st[name].dim;
      assert [cmd][..0] == [] && LastWrite(fp, dim, [], name, id) == None;
      assert LastWrite(fp, dim, [cmd], name, id) == Write(fp, dim, cmd, name, id);
      WriteNames(fp, dim, cmd, name, id);
      NoWrite(fp, dim, between, cmd, name, id);
    }
    ReplayInvisibleIff(fp, st, a, [cmd], between);
  }

  lemma WriteNames(fp: Arith, dim: nat, cmd: Command, name: string, id: U64)
    requires Write(fp, dim, cmd, name, id).Some?
    ensures cmd.collection == name && Names(cmd, id)
  {
    if cmd.Upsert? {
      LastRecordIsOne(cmd.records, id);
    }
  }

  lemma {:induction false} NoWrite(fp: Arith, dim: nat, cmds: seq<Command>, cmd: Command, name: string, id: U64)
    requires cmd.collection == name && Names(cmd, id)
    requires forall i, x :: 0 <= i < |cmds| && cmds[i].collection == cmd.collection && Names(cmds[i], x) ==>
      !Names(cmd, x)
    ensures LastWrite(fp, dim, cmds, name, id).None?
  {
    if cmds != [] {
      var n := |cmds| - 1;
      NoWrite(fp, dim, cmds[..n], cmd, name, id);
      if Write(fp, dim, cmds[n], name, id).Some? {
        WriteNames(fp, dim, cmds[n], name, id);
      }
    }
  }

  /** What a command is said to have applied: the size of an accepted batch, the number of different ids a delete
      found, and 0 for a rejected command. */
  lemma AppliedCount(fp: Arith, st: Collections, cmd: Command)
    ensures var count := RunOne(fp, st, cmd).1;
      match cmd
      case Upsert(name, records) =>
        count == if name in st && DimsOk(st[name].dim, records) then AsU32(|records|) else 0
      case Delete(name, ids) =>
        count == if name in st then AsU32(|Found(ids, st[name].vectors)|) else 0
  {
    match cmd
    case Upsert(name, records) => InsertVerdict(fp, st, name, records);
    case Delete(name, ids) => DeleteVerdict(st, name, ids);
  }

  // A small store and command for concrete examples.

  const ONE_RECORD := VectorRecord(7, [], map[])

  const ONE_COLLECTION: Collections := map["c" := Collection(0, 1, map[])]

  const ONE_PUT := Upsert("c", [ONE_RECORD])

  lemma OnePutWrites(fp: Arith)
    ensures Write(fp, 0, ONE_PUT, "c", 7) == Some(Put(Stored(fp, ONE_RECORD)))
    ensures LastWrite(fp, 0, [ONE_PUT], "c", 7) == Some(Put(Stored(fp, ONE_RECORD)))
    ensures Lookup(Run(fp, ONE_COLLECTION, [ONE_PUT]), "c", 7) == Some(Stored(fp, ONE_RECORD))
  {
    assert LastRecord([ONE_RECORD], 7) == Some(ONE_RECORD);
    RunLookup(fp, ONE_COLLECTION, [ONE_PUT], "c", 7);
  }

  lemma OnePutStore(fp: Arith)
    ensures Run(fp, ONE_COLLECTION, [ONE_PUT]) == map["c" := Collection(0, 1, map[7 := Stored(fp, ONE_RECORD)])]
  {
    assert [ONE_PUT][..0] == [] && [ONE_RECORD][..0] == [];
    assert UpsertAll(fp, map[], [ONE_RECORD]) == map[7 := Stored(fp, ONE_RECORD)];
  }

  /** Without that condition a retry can bring a deleted record back. */
  lemma LateRetryResurrects(fp: Arith)
    ensures var del := Delete("c", [7]);
      && Lookup(Run(fp, ONE_COLLECTION, [ONE_PUT, del]), "c", 7) == None
      && Lookup(Run(fp, ONE_COLLECTION, [ONE_PUT, del, ONE_PUT]), "c", 7).Some?
  {
    var del := Delete("c", [7]);
    OnePutWrites(fp);
    RunLookup(fp, ONE_COLLECTION, [ONE_PUT, del], "c", 7);
    RunLookup(fp, ONE_COLLECTION, [ONE_PUT, del, ONE_PUT], "c", 7);
  }
}
