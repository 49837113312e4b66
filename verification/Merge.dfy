/** The aggregator's merge of shard answers, metadata included. */
module Merge {
  import opened Numeric
  import opened Record
  import opened Seqs
  import opened StoreSpec
  import opened TopKSpec
  import TopK

  datatype ScoredRecord = ScoredRecord(id: U64, score: F32, metadata: Metadata)

  function Scored(records: seq<ScoredRecord>): seq<ScoredId> {
    seq(|records|, i requires 0 <= i < |records| => ScoredId(records[i].id, records[i].score))
  }

  /** Metadata by id; the last record of an id wins. */
  function MetadataOf(records: seq<ScoredRecord>): map<U64, Metadata> {
    if records == [] then map[] else
      var last := records[|records| - 1];
      MetadataOf(records[..|records| - 1])[last.id := last.metadata]
  }

  /** Hands each ranked id its metadata and takes it out of the map. */
  function Attach(ranked: seq<ScoredId>, meta: map<U64, Metadata>): (r: seq<ScoredRecord>)
    ensures |r| == |ranked|
  {
    if ranked == [] then [] else
      var s := ranked[0];
      [ScoredRecord(s.id, s.score, if s.id in meta then meta[s.id] else map[])] + Attach(ranked[1..], meta - {s.id})
  }

  ghost function Merged(lists: seq<seq<ScoredRecord>>, k: nat): seq<ScoredRecord> {
    var all := Flatten(lists);
    Attach(SortTruncate(multiset(Scored(all)), k), MetadataOf(all))
  }

  method MergeScoredRecords(lists: seq<seq<ScoredRecord>>, k: nat) returns (result: seq<ScoredRecord>)
    ensures result == Merged(lists, k)
  {
    var all := Flatten(lists);
    var metadata: map<U64, Metadata> := map[];
    for i := 0 to |all|
      invariant metadata == MetadataOf(all[..i])
    {
      metadata := metadata[all[i].id := all[i].metadata];
      assert all[..i + 1][..i] == all[..i];
    }
    assert all[..|all|] == all;
    ScoredFlatten(lists);
    var ranked := TopK.MergeTopK(seq(|lists|, i requires 0 <= i < |lists| => Scored(lists[i])), k);
    result := Drain(ranked, metadata);
  }

  lemma {:induction false} ScoredFlatten(lists: seq<seq<ScoredRecord>>)
    ensures Flatten(seq(|lists|, i requires 0 <= i < |lists| => Scored(lists[i]))) == Scored(Flatten(lists))
  {
    var scored := seq(|lists|, i requires 0 <= i < |lists| => Scored(lists[i]));
    if lists != [] {
      ScoredFlatten(lists[1..]);
      assert scored[1..] == seq(|lists[1..]|, i requires 0 <= i < |lists[1..]| => Scored(lists[1..][i]));
      assert Scored(lists[0] + Flatten(lists[1..])) == Scored(lists[0]) + Scored(Flatten(lists[1..]));
    }
  }

  method Drain(ranked: seq<ScoredId>, metadata: map<U64, Metadata>) returns (result: seq<ScoredRecord>)
    ensures result == Attach(ranked, metadata)
  {
    result := [];
    var left: map<U64, Metadata> := metadata;
    for i := 0 to |ranked|
      invariant result + Attach(ranked[i..], left) == Attach(ranked, metadata)
    {
      var s := ranked[i];
      assert ranked[i..][0] == s && ranked[i..][1..] == ranked[i + 1..];
      SplitHead(result, Attach(ranked[i..], left));
      result := result + [ScoredRecord(s.id, s.score, if s.id in left then left[s.id] else map[])];
      left := left - {s.id};
    }
  }

  /** What each position of a merged answer carries: the ranked id and score, the metadata of the id
      the first time the id appears, and none for a repeated id. */
  lemma {:induction false} AttachMeaning(ranked: seq<ScoredId>, meta: map<U64, Metadata>, i: nat)
    requires i < |ranked|
    ensures Attach(ranked, meta)[i].id == ranked[i].id && Attach(ranked, meta)[i].score == ranked[i].score
    ensures Attach(ranked, meta)[i].metadata
         == if ranked[i].id in meta && forall j :: 0 <= j < i ==> ranked[j].id != ranked[i].id
            then meta[ranked[i].id] else map[]
  {
    if i > 0 {
      AttachMeaning(ranked[1..], meta - {ranked[0].id}, i - 1);
      assert forall j :: 0 < j < |ranked| ==> ranked[j] == ranked[1..][j - 1];
    }
  }

  /** Of several records with one id the last one's metadata is kept. */
  lemma {:induction false} LastMetadataStays(records: seq<ScoredRecord>, i: nat)
    requires i < |records| && forall j :: i < j < |records| ==> records[j].id != records[i].id
    ensures records[i].id in MetadataOf(records) && MetadataOf(records)[records[i].id] == records[i].metadata
  {
    if i < |records| - 1 {
      LastMetadataStays(records[..|records| - 1], i);
    }
  }

  lemma {:induction false} MetadataOfMeaning(records: seq<ScoredRecord>, id: U64)
    ensures id in MetadataOf(records) <==> exists r :: r in records && r.id == id
    ensures id in MetadataOf(records) ==>
      exists r :: r in records && r.id == id && r.metadata == MetadataOf(records)[id]
  {
    if records != [] {
      var n := |records| - 1;
      MetadataOfMeaning(records[..n], id);
      assert records == records[..n] + [records[n]];
      assert records[n] in records;
      assert forall r :: r in records <==> r in records[..n] || r == records[n];
    }
  }

  ghost predicate DistinctIds(records: seq<ScoredRecord>) {
    forall i, j :: 0 <= i < j < |records| ==> records[i].id != records[j].id
  }

  /** When no id is reported twice, every merged result is a record some shard sent, metadata and all. */
  lemma MergeKeepsRecords(lists: seq<seq<ScoredRecord>>, k: nat, i: nat)
    requires DistinctIds(Flatten(lists)) && i < |Merged(lists, k)|
    ensures Merged(lists, k)[i] in Flatten(lists)
  {
    var all := Flatten(lists);
    var ranked := SortTruncate(multiset(Scored(all)), k);
    TruncationIsKept(multiset(Scored(all)), k);
    forall j | 0 <= j < i ensures ranked[j].id != ranked[i].id {
      TwiceRanked(all, ranked, j, i);
    }
    AttachMeaning(ranked, MetadataOf(all), i);
    assert ranked[i] in multiset(ranked);
    SentOnce(all, ranked[i]);
  }

  /** A scored id of distinct records belongs to one of them, whose metadata the map holds. */
  lemma SentOnce(all: seq<ScoredRecord>, s: ScoredId)
    requires DistinctIds(all) && s in multiset(Scored(all))
    ensures s.id in MetadataOf(all) && ScoredRecord(s.id, s.score, MetadataOf(all)[s.id]) in all
  {
    var a :| 0 <= a < |all| && Scored(all)[a] == s;
    assert all[a] in all;
    MetadataOfMeaning(all, s.id);
    var sent :| sent in all && sent.id == s.id && sent.metadata == MetadataOf(all)[s.id];
    var b :| 0 <= b < |all| && all[b] == sent;
    assert a == b;
  }

  /** Two ranked positions with one id come from two sent records with that id. */
  lemma TwiceRanked(all: seq<ScoredRecord>, ranked: seq<ScoredId>, j: nat, i: nat)
    requires multiset(ranked) <= multiset(Scored(all)) && DistinctIds(all)
    requires j < i < |ranked|
    ensures ranked[j].id != ranked[i].id
  {
    var s := Scored(all);
    assert ranked[j] in multiset(ranked) && ranked[i] in multiset(ranked);
    var a :| 0 <= a < |s| && s[a] == ranked[j];
    var b :| 0 <= b < |s| && s[b] == ranked[i];
    if a == b {
      TwoOccurrences(ranked, j, i);
      OneOccurrence(s, a);
    }
  }

  lemma TwoOccurrences<T>(s: seq<T>, j: nat, i: nat)
    requires j < i < |s| && s[j] == s[i]
    ensures multiset(s)[s[i]] >= 2
  {
    assert s == s[..i] + s[i..];
    assert s[..i][j] in multiset(s[..i]) && s[i..][0] in multiset(s[i..]);
  }

  lemma OneOccurrence<T>(s: seq<T>, a: nat)
    requires a < |s| && forall x, y :: 0 <= x < y < |s| ==> s[x] != s[y]
    ensures multiset(s)[s[a]] == 1
  {
    assert s == s[..a] + [s[a]] + s[a + 1..];
    assert s[a] !in s[..a] && s[a] !in s[a + 1..];
  }

  /** The fan-out's bookkeeping: answers are merged, the rest are counted as failed. */
  method CollectAnswers(responses: seq<Option<seq<ScoredRecord>>>, k: nat)
    returns (merged: seq<ScoredRecord>, queried: nat, failed: nat)
    ensures merged == Merged(Answered(responses), k)
    ensures queried == |responses| && failed + |Answered(responses)| == queried
  {
    var lists: seq<seq<ScoredRecord>> := [];
    failed := 0;
    for i := 0 to |responses|
      invariant lists == Answered(responses[..i]) && failed + |lists| == i
    {
      assert responses[..i + 1][..i] == responses[..i];
      match responses[i]
      case Some(list) => lists := lists + [list];
      case None => failed := failed + 1;
    }
    assert responses[..|responses|] == responses;
    queried := |responses|;
    merged := MergeScoredRecords(lists, k);
  }

  function Answered(responses: seq<Option<seq<ScoredRecord>>>): seq<seq<ScoredRecord>> {
    if responses == [] then [] else
      var before := Answered(responses[..|responses| - 1]);
      match responses[|responses| - 1]
      case Some(list) => before + [list]
      case None => before
  }
}
