/** Collections are created outside the log, on each replica separately. When do replicas still agree? */
module Creates {
  import opened Numeric
  import opened StoreSpec
  import opened Replay
  import opened StateMachineSpec

  datatype Settings = Settings(dim: nat, shardCount: nat)

  /** What one replica sees, in its own order: creates and committed commands. */
  datatype LocalEvent = Created(name: string, settings: Settings) | Committed(cmd: Command)

  function Empty(s: Settings): Collection {
    Collection(s.dim, if s.shardCount == 0 then 1 else s.shardCount, map[])
  }

  function CreateWith(st: Collections, name: string, s: Settings): Collections {
    CreateIn(st, name, s.dim, s.shardCount).0
  }

  function Play(fp: Arith, events: seq<LocalEvent>): Collections {
    if events == [] then map[] else
      var before := Play(fp, events[..|events| - 1]);
      match events[|events| - 1]
      case Created(name, settings) => CreateWith(before, name, settings)
      case Committed(cmd) => RunOne(fp, before, cmd).0
  }

  /** The settings a name was first created with; later creates of it are rejected. */
  function FirstCreate(events: seq<LocalEvent>, name: string): Option<Settings> {
    if events == [] then None else
      var before := FirstCreate(events[..|events| - 1], name);
      var e := events[|events| - 1];
      if before.Some? then before
      else if e.Created? && e.name == name then Some(e.settings) else None
  }

  function CommandsOf(events: seq<LocalEvent>): seq<Command> {
    if events == [] then [] else
      var e := events[|events| - 1];
      CommandsOf(events[..|events| - 1]) + if e.Committed? then [e.cmd] else []
  }

  /** All creates and no commands. */
  function Schema(events: seq<LocalEvent>): Collections {
    if events == [] then map[] else
      var e := events[|events| - 1];
      var before := Schema(events[..|events| - 1]);
      if e.Created? then CreateWith(before, e.name, e.settings) else before
  }

  /** No command names a collection whose first create is still to come. */
  ghost predicate CreatesComeFirst(events: seq<LocalEvent>) {
    forall i, j :: 0 <= i < j < |events| && events[i].Committed? && events[j].Created? ==>
      events[i].cmd.collection == events[j].name ==> FirstCreate(events[..i], events[j].name).Some?
  }

  lemma CreateSwapsWithCommand(fp: Arith, st: Collections, cmd: Command, name: string, s: Settings)
    requires name in st || cmd.collection != name
    ensures CreateWith(RunOne(fp, st, cmd).0, name, s) == RunOne(fp, CreateWith(st, name, s), cmd).0
  {
    if name !in st && cmd.collection in st {
      SwapUpdates(st, name, Empty(s), cmd.collection, RunOne(fp, st, cmd).0[cmd.collection]);
    }
  }

  lemma SwapUpdates(st: Collections, a: string, x: Collection, b: string, y: Collection)
    requires a != b
    ensures st[a := x][b := y] == st[b := y][a := x]
  {
  }

  lemma {:induction false} CreateSwapsWithLog(fp: Arith, st: Collections, cmds: seq<Command>, name: string, s: Settings)
    requires name in st || forall i :: 0 <= i < |cmds| ==> cmds[i].collection != name
    ensures CreateWith(Run(fp, st, cmds), name, s) == Run(fp, CreateWith(st, name, s), cmds)
  {
    if cmds != [] {
      var n := |cmds| - 1;
      CreateSwapsWithLog(fp, st, cmds[..n], name, s);
      RunKeepsSchema(fp, st, cmds[..n]);
      CreateSwapsWithCommand(fp, Run(fp, st, cmds[..n]), cmds[n], name, s);
    }
  }

  /** The log ends with a record under `id`. */
  ghost predicate Leaves(fp: Arith, dim: nat, cmds: seq<Command>, name: string, id: U64) {
    var w := LastWrite(fp, dim, cmds, name, id);
    w.Some? && w.value.Put?
  }

  /** A create that comes after commands naming its collection matters exactly when those
      commands would have left a record there. */
  lemma LateCreateIff(fp: Arith, st: Collections, cmds: seq<Command>, name: string, s: Settings)
    requires name !in st
    ensures CreateWith(Run(fp, st, cmds), name, s) == Run(fp, CreateWith(st, name, s), cmds)
       <==> forall id :: !Leaves(fp, s.dim, cmds, name, id)
  {
    var late, early := CreateWith(Run(fp, st, cmds), name, s), Run(fp, CreateWith(st, name, s), cmds);
    RunKeepsSchema(fp, st, cmds);
    RunKeepsSchema(fp, CreateWith(st, name, s), cmds);
    forall n, id
      ensures Lookup(late, n, id) == Lookup(early, n, id) <==> n != name || !Leaves(fp, s.dim, cmds, name, id)
    {
      if n in early {
        RunLookup(fp, CreateWith(st, name, s), cmds, n, id);
        if n != name {
          RunLookup(fp, st, cmds, n, id);
        }
      }
    }
    if forall id :: !Leaves(fp, s.dim, cmds, name, id) {
      SameLookupsSameStore(late, early);
    } else {
      var id :| Leaves(fp, s.dim, cmds, name, id);
      assert Lookup(late, name, id) != Lookup(early, name, id);
    }
  }

  /** A create that arrives after an upsert into its collection loses the record. */
  lemma LateCreateExample(fp: Arith)
    ensures var settings := Settings(0, 1);
      && Lookup(CreateWith(Run(fp, map[], [ONE_PUT]), "c", settings), "c", ONE_RECORD.id) == None
      && Lookup(Run(fp, CreateWith(map[], "c", settings), [ONE_PUT]), "c", ONE_RECORD.id).Some?
  {
    OnePutWrites(fp);
    assert [ONE_PUT][..0] == [];
    assert Run(fp, map[], [ONE_PUT]) == map[];
    assert CreateWith(map[], "c", Settings(0, 1)) == ONE_COLLECTION;
  }

  lemma {:induction false} SchemaIsFirstCreates(events: seq<LocalEvent>, name: string)
    ensures match FirstCreate(events, name)
      case None => name !in Schema(events)
      case Some(s) => name in Schema(events) && Schema(events)[name] == Empty(s)
  {
    if events != [] {
      SchemaIsFirstCreates(events[..|events| - 1], name);
    }
  }

  lemma {:induction false} CommandsOfNames(events: seq<LocalEvent>, k: nat) returns (i: nat)
    requires k < |CommandsOf(events)|
    ensures i < |events| && events[i] == Committed(CommandsOf(events)[k])
  {
    var n := |events| - 1;
    if k < |CommandsOf(events[..n])| {
      i := CommandsOfNames(events[..n], k);
    } else {
      i := n;
    }
  }

  lemma {:induction false} FirstCreateGrows(events: seq<LocalEvent>, i: nat, name: string)
    requires i <= |events| && FirstCreate(events[..i], name).Some?
    ensures FirstCreate(events, name).Some?
  {
    if i < |events| {
      assert events[..|events| - 1][..i] == events[..i];
      FirstCreateGrows(events[..|events| - 1], i, name);
    } else {
      assert events[..i] == events;
    }
  }

  lemma {:induction false} PlayKnows(fp: Arith, events: seq<LocalEvent>, name: string)
    ensures name in Play(fp, events) <==> FirstCreate(events, name).Some?
  {
    if events != [] {
      PlayKnows(fp, events[..|events| - 1], name);
    }
  }

  /** Whatever a replica has seen, a create is accepted exactly when it is the first of its name. */
  lemma CreateAcceptedIff(fp: Arith, events: seq<LocalEvent>, name: string, s: Settings)
    ensures CreateIn(Play(fp, events), name, s.dim, s.shardCount).1
         == if FirstCreate(events, name).None? then Ok(()) else Err(CollectionExists(name))
  {
    PlayKnows(fp, events, name);
    CreateVerdict(Play(fp, events), name, s.dim, s.shardCount);
  }

  /** With creates first, a replica's store is the schema followed by the log, whatever the interleaving. */
  lemma {:induction false} PlayIsSchemaThenLog(fp: Arith, events: seq<LocalEvent>)
    requires CreatesComeFirst(events)
    ensures Play(fp, events) == Run(fp, Schema(events), CommandsOf(events))
  {
    if events != [] {
      var n := |events| - 1;
      var init, e := events[..n], events[n];
      assert forall i :: 0 <= i < n ==> events[..i] == init[..i];
      PlayIsSchemaThenLog(fp, init);
      var cmds := CommandsOf(init);
      match e
      case Created(name, settings) =>
        if name !in Schema(init) {
          forall k | 0 <= k < |cmds| ensures cmds[k].collection != name {
            var i := CommandsOfNames(init, k);
            if cmds[k].collection == name {
              assert events[i].Committed? && events[n].Created?;
              FirstCreateGrows(init, i, name);
              SchemaIsFirstCreates(init, name);
            }
          }
        }
        CreateSwapsWithLog(fp, Schema(init), cmds, name, settings);
        assert CommandsOf(events) == cmds;
      case Committed(cmd) =>
        var all := CommandsOf(events);
        assert all[..|all| - 1] == cmds;
    }
  }

  /** Two replicas with the same log and the same first settings per collection end equal. */
  lemma ReplicasAgree(fp: Arith, a: seq<LocalEvent>, b: seq<LocalEvent>)
    requires CreatesComeFirst(a) && CreatesComeFirst(b)
    requires CommandsOf(a) == CommandsOf(b)
    requires forall name :: FirstCreate(a, name) == FirstCreate(b, name)
    ensures Play(fp, a) == Play(fp, b)
  {
    forall name ensures name in Schema(a) <==> name in Schema(b)
      ensures name in Schema(a) ==> Schema(a)[name] == Schema(b)[name]
    {
      SchemaIsFirstCreates(a, name);
      SchemaIsFirstCreates(b, name);
    }
    assert Schema(a) == Schema(b);
    PlayIsSchemaThenLog(fp, a);
    PlayIsSchemaThenLog(fp, b);
  }

  /** Installing a snapshot clears collections its sender had not created yet: every later
      command on them is dropped by this replica. */
  lemma SnapshotForgetsCreate(fp: Arith, sender: Applied, cmd: Command)
    requires StoreOk(fp, sender.store) && cmd.collection !in sender.store
    ensures RunOne(fp, Install(fp, Build(sender)).store, cmd) == (sender.store, 0)
  {
    InstallUndoesBuild(fp, sender);
  }
}
