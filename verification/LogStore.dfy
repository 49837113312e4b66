/** The in-memory Raft log: a map from index to entry that must stay one contiguous window. */
module LogStoreSpec {
  import opened Seqs
  import opened StoreSpec
  import opened StateMachineSpec

  type Log = map<nat, Entry>

  /** The log as Raft sees it: everything up to `purged` is gone, `entries` follow it without gaps. */
  datatype Window = Window(purged: Option<LogId>, entries: seq<Entry>) {
    function First(): nat {
      if purged.None? then 0 else purged.value.index + 1
    }

    function End(): nat {
      First() + |entries|
    }

    /** The last entry, or the purge point when nothing is left. */
    function LastId(): Option<LogId> {
      if entries == [] then purged else Some(entries[|entries| - 1].logId)
    }

    /** Entries with index in [lo, hi), clamped to the window. */
    function Slice(lo: nat, hi: nat): seq<Entry> {
      var from := Clamp(lo);
      var to := Clamp(hi);
      if from <= to then entries[from..to] else []
    }

    function Clamp(index: nat): (i: nat)
      ensures i <= |entries|
    {
      if index <= First() then 0 else if index >= End() then |entries| else index - First()
    }
  }

  ghost predicate Numbered(entries: seq<Entry>, start: nat) {
    forall i :: 0 <= i < |entries| ==> entries[i].logId.index == start + i
  }

  /** The map holds exactly `entries`, at consecutive indices from `first`. */
  ghost predicate Holds(log: Log, first: nat, entries: seq<Entry>) {
    && Numbered(entries, first)
    && (forall i: nat :: i in log <==> first <= i < first + |entries|)
    && (forall i: nat :: i in log ==> log[i] == entries[i - first])
  }

  ghost predicate Represents(w: Window, purged: Option<LogId>, log: Log) {
    purged == w.purged && Holds(log, w.First(), w.entries)
  }

  // ---- The three mutations ----

  datatype LogOp = Append(entries: seq<Entry>) | Truncate(from: LogId) | Purge(upTo: LogId)

  function AppendTo(log: Log, entries: seq<Entry>): Log {
    if entries == [] then log else
      var last := entries[|entries| - 1];
      AppendTo(log, entries[..|entries| - 1])[last.logId.index := last]
  }

  function StepLog(purged: Option<LogId>, log: Log, op: LogOp): (Option<LogId>, Log) {
    match op
    case Append(entries) => (purged, AppendTo(log, entries))
    case Truncate(from) => (purged, map i | i in log && i < from.index :: log[i])
    case Purge(upTo) => (Some(upTo), map i | i in log && i > upTo.index :: log[i])
  }

  /** Appends are numbered without gaps, as every Raft request sends them. */
  ghost predicate WellNumbered(op: LogOp) {
    op.Append? && op.entries != [] ==> Numbered(op.entries, op.entries[0].logId.index)
  }

  /** Appends touch the window, purges do not move back over it; truncation is always fine. */
  ghost predicate Legal(w: Window, op: LogOp) {
    match op
    case Append(entries) => entries != [] ==> w.First() <= entries[0].logId.index <= w.End()
    case Truncate(_) => true
    case Purge(upTo) => w.entries != [] ==> w.First() <= upTo.index + 1
  }

  /** Entries written one by one: on top of an old one, or at the end. */
  function Overwrite(old': seq<Entry>, first: nat, entries: seq<Entry>): seq<Entry> {
    if entries == [] then old' else
      var before := Overwrite(old', first, entries[..|entries| - 1]);
      var last := entries[|entries| - 1];
      var at := last.logId.index - first;
      if 0 <= at < |before| then before[at := last] else before + [last]
  }

  /** The usual append extends the log by exactly the new entries. */
  lemma {:induction false} AppendAtEnd(old': seq<Entry>, first: nat, entries: seq<Entry>)
    requires Numbered(entries, first + |old'|)
    ensures Overwrite(old', first, entries) == old' + entries
  {
    if entries != [] {
      AppendAtEnd(old', first, entries[..|entries| - 1]);
      assert old' + entries == (old' + entries[..|entries| - 1]) + [entries[|entries| - 1]];
    }
  }

  function StepWindow(w: Window, op: LogOp): Window {
    match op
    case Append(entries) => w.(entries := Overwrite(w.entries, w.First(), entries))
    case Truncate(from) => w.(entries := w.entries[..w.Clamp(from.index)])
    case Purge(upTo) => Window(Some(upTo), w.entries[w.Clamp(upTo.index + 1)..])
  }

  lemma {:induction false} AppendContents(log: Log, entries: seq<Entry>, start: nat)
    requires Numbered(entries, start)
    ensures forall i: nat :: i in AppendTo(log, entries) <==> i in log || start <= i < start + |entries|
    ensures forall i: nat :: i in AppendTo(log, entries) ==>
      AppendTo(log, entries)[i] == if start <= i < start + |entries| then entries[i - start] else log[i]
  {
    if entries != [] {
      AppendContents(log, entries[..|entries| - 1], start);
    }
  }

  lemma {:induction false} AppendHolds(log: Log, first: nat, old': seq<Entry>, entries: seq<Entry>, start: nat)
    requires Holds(log, first, old') && Numbered(entries, start) && first <= start <= first + |old'|
    ensures Holds(AppendTo(log, entries), first, Overwrite(old', first, entries))
    ensures first + |Overwrite(old', first, entries)| >= start + |entries|
  {
    if entries != [] {
      var n := |entries| - 1;
      AppendHolds(log, first, old', entries[..n], start);
      PutHolds(AppendTo(log, entries[..n]), first, Overwrite(old', first, entries[..n]), entries[n]);
    }
  }

  lemma PutHolds(log: Log, first: nat, old': seq<Entry>, e: Entry)
    requires Holds(log, first, old') && first <= e.logId.index <= first + |old'|
    ensures var at := e.logId.index - first;
      Holds(log[e.logId.index := e], first, if at < |old'| then old'[at := e] else old' + [e])
  {
  }

  lemma TakeHolds(log: Log, first: nat, entries: seq<Entry>, cut: nat, log': Log)
    requires Holds(log, first, entries) && cut <= |entries|
    requires log' == map i | i in log && i < first + cut :: log[i]
    ensures Holds(log', first, entries[..cut])
  {
  }

  /** A legal mutation keeps the map a window and does to it what the abstract log does. */
  lemma StepRefines(w: Window, purged: Option<LogId>, log: Log, op: LogOp)
    requires Represents(w, purged, log) && WellNumbered(op) && Legal(w, op)
    ensures var (purged', log') := StepLog(purged, log, op); Represents(StepWindow(w, op), purged', log')
  {
    var (purged', log') := StepLog(purged, log, op);
    match op
    case Append(entries) =>
      if entries != [] {
        AppendHolds(log, w.First(), w.entries, entries, entries[0].logId.index);
      }
    case Truncate(from) =>
      TruncateRefines(w, purged, log, from, log');
    case Purge(upTo) =>
      PurgeRefines(w, purged, log, upTo, log');
  }

  lemma TruncateRefines(w: Window, purged: Option<LogId>, log: Log, from: LogId, log': Log)
    requires Represents(w, purged, log) && log' == map i | i in log && i < from.index :: log[i]
    ensures Represents(StepWindow(w, Truncate(from)), purged, log')
  {
    var cut := w.Clamp(from.index);
    assert log' == map i | i in log && i < w.First() + cut :: log[i];
    TakeHolds(log, w.First(), w.entries, cut, log');
  }

  lemma PurgeRefines(w: Window, purged: Option<LogId>, log: Log, upTo: LogId, log': Log)
    requires Represents(w, purged, log) && Legal(w, Purge(upTo)) && log' == map i | i in log && i > upTo.index :: log[i]
    ensures Represents(StepWindow(w, Purge(upTo)), Some(upTo), log')
  {
    var w' := StepWindow(w, Purge(upTo));
    DropHolds(log, w.First(), w.entries, upTo.index, w.Clamp(upTo.index + 1), log', w'.First(), w'.entries);
  }

  lemma DropHolds(log: Log, first: nat, entries: seq<Entry>, p: nat, cut: nat, log': Log, next: nat, rest: seq<Entry>)
    requires Holds(log, first, entries) && cut <= |entries|
    requires p + 1 == first + cut || (cut == |entries| && (entries == [] || p + 1 >= first + |entries|))
    requires log' == map i | i in log && i > p :: log[i]
    requires next == p + 1 && rest == entries[cut..]
    ensures Holds(log', next, rest)
  {
  }

  /** An illegal mutation leaves a gap: no window describes the result. */
  lemma IllegalStepBreaks(w: Window, purged: Option<LogId>, log: Log, op: LogOp, w': Window)
    requires Represents(w, purged, log) && WellNumbered(op) && !Legal(w, op)
    ensures var (purged', log') := StepLog(purged, log, op); !Represents(w', purged', log')
  {
    match op
    case Append(entries) =>
      var start := entries[0].logId.index;
      AppendContents(log, entries, start);
      assert start in AppendTo(log, entries);
      if start > w.End() {
        assert start - 1 !in AppendTo(log, entries);
      }
    case Purge(upTo) =>
      var (purged', log') := StepLog(purged, log, op);
      assert w.First() in log' && upTo.index + 1 !in log';
  }

  // ---- Whole histories ----

  function RunLog(ops: seq<LogOp>): (Option<LogId>, Log) {
    if ops == [] then (None, map[]) else
      var (purged, log) := RunLog(ops[..|ops| - 1]);
      StepLog(purged, log, ops[|ops| - 1])
  }

  function RunWindow(ops: seq<LogOp>): Window {
    if ops == [] then Window(None, []) else StepWindow(RunWindow(ops[..|ops| - 1]), ops[|ops| - 1])
  }

  ghost predicate LegalHistory(ops: seq<LogOp>) {
    forall i :: 0 <= i < |ops| ==> WellNumbered(ops[i]) && Legal(RunWindow(ops[..i]), ops[i])
  }

  /** Every legal history keeps the store one contiguous window after the purge point. */
  lemma {:induction false} HistoryRefines(ops: seq<LogOp>)
    requires LegalHistory(ops)
    ensures var (purged, log) := RunLog(ops); Represents(RunWindow(ops), purged, log)
  {
    if ops != [] {
      var init := ops[..|ops| - 1];
      assert forall i :: 0 <= i < |init| ==> init[..i] == ops[..i];
      HistoryRefines(init);
      var (purged, log) := RunLog(init);
      StepRefines(RunWindow(init), purged, log, ops[|ops| - 1]);
    }
  }

  // ---- Reads ----

  ghost predicate Ascending(keys: seq<nat>) {
    forall i, j :: 0 <= i < j < |keys| ==> keys[i] < keys[j]
  }

  /** `keys` are the stored indices in [lo, hi), in order; `entries` are theirs. */
  ghost predicate ReadsRange(log: Log, lo: nat, hi: nat, keys: seq<nat>, entries: seq<Entry>) {
    && Ascending(keys) && |entries| == |keys|
    && (forall i: nat :: i in keys <==> i in log && lo <= i < hi)
    && (forall k :: 0 <= k < |keys| ==> keys[k] in log && entries[k] == log[keys[k]])
  }

  lemma {:induction false} AscendingRun(keys: seq<nat>, lo: nat, hi: nat)
    requires Ascending(keys) && lo <= hi
    requires forall i: nat :: i in keys <==> lo <= i < hi
    ensures |keys| == hi - lo
    ensures forall k :: 0 <= k < |keys| ==> keys[k] == lo + k
    decreases hi - lo
  {
    if lo == hi {
      if keys != [] {
        HeadIn(keys);
      }
    } else {
      assert hi - 1 in keys;
      var n := |keys| - 1;
      assert keys[n] in keys;
      var k :| 0 <= k < |keys| && keys[k] == hi - 1;
      assert k == n;
      forall i: nat ensures i in keys[..n] <==> lo <= i < hi - 1 {
        if i in keys[..n] {
          var j :| 0 <= j < n && keys[..n][j] == i;
          assert keys[j] in keys && keys[j] < keys[n];
        }
        if lo <= i < hi - 1 {
          assert i in keys;
          var j :| 0 <= j < |keys| && keys[j] == i;
          assert keys[..n][j] == i;
        }
      }
      AscendingRun(keys[..n], lo, hi - 1);
    }
  }

  /** On a window, a range read is exactly the slice. */
  lemma RangeReadIsSlice(w: Window, purged: Option<LogId>, log: Log, lo: nat, hi: nat,
                         keys: seq<nat>, entries: seq<Entry>)
    requires Represents(w, purged, log) && ReadsRange(log, lo, hi, keys, entries)
    ensures entries == w.Slice(lo, hi)
  {
    var from, to := w.Clamp(lo), w.Clamp(hi);
    if from <= to {
      SliceOfRange(log, w.First(), w.entries, from, to, keys, entries);
    } else if keys != [] {
      HeadIn(keys);
    }
  }

  lemma SliceOfRange(log: Log, first: nat, stored: seq<Entry>, lo: nat, hi: nat, keys: seq<nat>, entries: seq<Entry>)
    requires Holds(log, first, stored) && lo <= hi <= |stored|
    requires Ascending(keys) && |entries| == |keys|
    requires forall i: nat :: i in keys <==> first + lo <= i < first + hi
    requires forall k :: 0 <= k < |keys| ==> keys[k] in log && entries[k] == log[keys[k]]
    ensures entries == stored[lo..hi]
  {
    AscendingRun(keys, first + lo, first + hi);
  }
}

module LogStore {
  import opened StoreSpec
  import opened StateMachineSpec
  import opened LogStoreSpec

  lemma {:induction false} Least(s: set<nat>) returns (i: nat)
    requires s != {}
    ensures i in s && forall j :: j in s ==> i <= j
  {
    i :| i in s;
    var rest := s - {i};
    if rest != {} {
      var y := Least(rest);
      assert forall j :: j in s ==> j == i || j in rest;
      i := if i < y then i else y;
    } else {
      assert s == {i};
    }
  }

  /** Ordered iteration of a BTreeMap key range. */
  method OrderedKeys(range: set<nat>) returns (keys: seq<nat>)
    ensures Ascending(keys) && forall i :: i in keys <==> i in range
  {
    keys := [];
    var rest := range;
    while rest != {}
      invariant rest <= range && Ascending(keys)
      invariant forall i :: i in keys <==> i in range - rest
      invariant forall i, j :: i in keys && j in rest ==> i < j
      decreases rest
    {
      ghost var first := Least(rest);
      var least :| least in rest && forall j :: j in rest ==> least <= j;
      assert forall k :: 0 <= k < |keys| ==> keys[k] in keys;
      keys := keys + [least];
      rest := rest - {least};
    }
  }

  class LogStore {
    var lastPurged: Option<LogId>
    var log: Log

    constructor ()
      ensures lastPurged == None && log == map[]
      ensures Represents(RunWindow([]), lastPurged, log)
    {
      lastPurged, log := None, map[];
    }

    method AppendEntries(entries: seq<Entry>)
      modifies this`log
      ensures (lastPurged, log) == StepLog(old(lastPurged), old(log), Append(entries))
    {
      for i := 0 to |entries|
        invariant log == AppendTo(old(log), entries[..i])
      {
        log := log[entries[i].logId.index := entries[i]];
        assert entries[..i + 1][..i] == entries[..i];
      }
      assert entries[..|entries|] == entries;
    }

    method TruncateFrom(logId: LogId)
      modifies this`log
      ensures (lastPurged, log) == StepLog(old(lastPurged), old(log), Truncate(logId))
    {
      var keys := OrderedKeys(set i | i in log && i >= logId.index);
      RemoveKeys(keys);
      assert forall i :: i in old(log) ==> (i !in keys <==> i < logId.index);
      assert log == StepLog(old(lastPurged), old(log), Truncate(logId)).1;
    }

    method PurgeUpTo(logId: LogId)
      modifies this`log, this`lastPurged
      ensures (lastPurged, log) == StepLog(old(lastPurged), old(log), Purge(logId))
    {
      lastPurged := Some(logId);
      var keys := OrderedKeys(set i | i in log && i <= logId.index);
      RemoveKeys(keys);
      assert forall i :: i in old(log) ==> (i !in keys <==> i > logId.index);
      assert log == StepLog(old(lastPurged), old(log), Purge(logId)).1;
    }

    method RemoveKeys(keys: seq<nat>)
      modifies this`log
      ensures log == map i | i in old(log) && i !in keys :: old(log)[i]
    {
      for k := 0 to |keys|
        invariant log == map i | i in old(log) && i !in keys[..k] :: old(log)[i]
      {
        log := log - {keys[k]};
        assert keys[..k + 1] == keys[..k] + [keys[k]];
      }
      assert keys[..|keys|] == keys;
    }

    /** The entries stored in [lo, hi), in index order: the slice, whenever the log is a window. */
    method TryGetLogEntries(lo: nat, hi: nat) returns (entries: seq<Entry>)
      ensures exists keys :: ReadsRange(log, lo, hi, keys, entries)
      ensures forall w :: Represents(w, lastPurged, log) ==> entries == w.Slice(lo, hi)
    {
      var keys := OrderedKeys(set i | i in log && lo <= i < hi);
      entries := [];
      for k := 0 to |keys|
        invariant |entries| == k
        invariant forall j :: 0 <= j < k ==> keys[j] in log && entries[j] == log[keys[j]]
      {
        assert keys[k] in keys;
        entries := entries + [log[keys[k]]];
      }
      assert ReadsRange(log, lo, hi, keys, entries);
      forall w | Represents(w, lastPurged, log) ensures entries == w.Slice(lo, hi) {
        RangeReadIsSlice(w, lastPurged, log, lo, hi, keys, entries);
      }
    }

    /** The purge point and the last log id. */
    method GetLogState() returns (purged: Option<LogId>, last: Option<LogId>)
      ensures purged == lastPurged
      ensures log == map[] ==> last == lastPurged
      ensures forall i :: i in log && (forall j :: j in log ==> j <= i) ==> last == Some(log[i].logId)
      ensures forall w :: Represents(w, lastPurged, log) ==> last == w.LastId()
    {
      purged := lastPurged;
      if log == map[] {
        last := lastPurged;
        assert forall w :: Represents(w, lastPurged, log) ==> w.First() !in log;
      } else {
        var keys := OrderedKeys(log.Keys);
        var k :| k in log;
        assert k in keys;
        var top := keys[|keys| - 1];
        assert top in keys;
        forall j | j in log ensures j <= top {
          assert j in keys;
        }
        last := Some(log[top].logId);
        forall w | Represents(w, lastPurged, log) ensures last == w.LastId() {
          assert w.End() - 1 in log;
        }
      }
    }
  }
}
