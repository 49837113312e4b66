/** Records, scored ids and the ranking order between them. */
module Record {
  import opened Numeric

  type Metadata = map<string, string>

  datatype VectorRecord = VectorRecord(id: U64, embedding: seq<F32>, metadata: Metadata)

  /** A record and its squared norm, computed once when it is stored. */
  datatype StoredVector = StoredVector(record: VectorRecord, normSq: F32)

  datatype ScoredId = ScoredId(id: U64, score: F32)

  /** `Ord for ScoredId`: higher score is greater; on a tie the lower id is greater. */
  function Cmp(a: ScoredId, b: ScoredId): Ordering {
    TotalCmp(a.score, b.score).ThenWith(CmpInt(b.id, a.id))
  }

  predicate Beats(a: ScoredId, b: ScoredId) {
    Cmp(a, b) == Greater
  }

  /** The ranking is a strict total order on (id, score bits), so ties are never left open. */
  lemma RankingIsTotal(a: ScoredId, b: ScoredId, c: ScoredId)
    ensures Cmp(a, b) == Equal <==> a == b
    ensures Beats(a, b) <==> Cmp(b, a) == Less
    ensures a == b || (Beats(a, b) <==> !Beats(b, a))
    ensures Beats(a, b) && Beats(b, c) ==> Beats(a, c)
    ensures !Beats(a, b) && !Beats(b, c) ==> !Beats(a, c)
  {
  }

  /** Among finite scores the numerically higher one wins; equal scores go to the lower id. */
  lemma RankingDirection(a: ScoredId, b: ScoredId)
    requires Finite(a.score) && Finite(b.score)
    ensures Value(a.score) > Value(b.score) ==> Beats(a, b)
    ensures a.score == b.score ==> (Beats(a, b) <==> a.id < b.id)
  {
    TotalCmpIsNumeric(b.score, a.score);
  }
}
