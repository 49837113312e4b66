/** The parallel brute-force scan: fold pieces into bounded heaps, reduce the heaps. */
module Search {
  import opened Numeric
  import opened Record
  import opened Similarity
  import opened TopKSpec
  import TopK

  function Score(fp: Arith, query: seq<F32>, e: StoredVector): ScoredId {
    ScoredId(e.record.id, CosineFromNorms(fp, e.record.embedding, query, e.normSq, NormSq(fp, query)))
  }

  function Scores(fp: Arith, query: seq<F32>, entries: seq<StoredVector>): seq<ScoredId> {
    seq(|entries|, i requires 0 <= i < |entries| => Score(fp, query, entries[i]))
  }

  lemma ScoresSnoc(fp: Arith, query: seq<F32>, entries: seq<StoredVector>, i: nat)
    requires i < |entries|
    ensures Scores(fp, query, entries[..i + 1]) == Scores(fp, query, entries[..i]) + [Score(fp, query, entries[i])]
  {
  }

  lemma ScoresSplit(fp: Arith, query: seq<F32>, entries: seq<StoredVector>, n: nat)
    requires n <= |entries|
    ensures Scores(fp, query, entries) == Scores(fp, query, entries[..n]) + Scores(fp, query, entries[n..])
  {
  }

  /** How the scheduler cuts the input: any binary tree over contiguous pieces. A cut at either end
      leaves an empty piece, which is the reduction's identity inserted at that place. */
  datatype Schedule = Whole | Cut(at: nat, left: Schedule, right: Schedule)

  method FoldPiece(fp: Arith, query: seq<F32>, queryNormSq: F32, piece: seq<StoredVector>, k: nat)
    returns (topk: TopK.TopK)
    requires queryNormSq == NormSq(fp, query)
    ensures fresh(topk) && topk.Valid() && topk.k == k
    ensures topk.seen == multiset(Scores(fp, query, piece))
  {
    topk := new TopK.TopK(k);
    for i := 0 to |piece|
      invariant fresh(topk) && topk.Valid() && topk.k == k
      invariant topk.seen == multiset(Scores(fp, query, piece[..i]))
    {
      var e := piece[i];
      var score := ComputeCosineFromNorms(fp, e.record.embedding, query, e.normSq, queryNormSq);
      topk.Push(ScoredId(e.record.id, score));
      ScoresSnoc(fp, query, piece, i);
    }
    assert piece[..|piece|] == piece;
  }

  method FoldReduce(fp: Arith, query: seq<F32>, queryNormSq: F32, entries: seq<StoredVector>, k: nat, how: Schedule)
    returns (topk: TopK.TopK)
    requires queryNormSq == NormSq(fp, query)
    ensures fresh(topk) && topk.Valid() && topk.k == k
    ensures topk.seen == multiset(Scores(fp, query, entries))
    decreases how
  {
    match how
    case Whole =>
      topk := FoldPiece(fp, query, queryNormSq, entries, k);
    case Cut(at, left, right) =>
      var n := Min(at, |entries|);
      topk := FoldReduce(fp, query, queryNormSq, entries[..n], k, left);
      var other := FoldReduce(fp, query, queryNormSq, entries[n..], k, right);
      topk.Merge(other);
      ScoresSplit(fp, query, entries, n);
  }

  /** Whatever the schedule, the scan returns the sorted and truncated list of all scores. */
  method BruteForceTopK(fp: Arith, entries: seq<StoredVector>, query: seq<F32>, k: nat, how: Schedule)
    returns (result: seq<ScoredId>)
    ensures result == SortTruncate(multiset(Scores(fp, query, entries)), k)
  {
    var queryNormSq := ComputeNormSq(fp, query);
    var topk := FoldReduce(fp, query, queryNormSq, entries, k, how);
    result := topk.IntoSortedVec();
  }
}
