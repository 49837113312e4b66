/** Cosine similarity over rounding floats, with squared norms computed once and cached. */
module Similarity {
  import opened Numeric

  /** Left-to-right sum of `a[i] * b[i]` over the first n places, in the loop's order. */
  function DotUpTo(fp: Arith, a: seq<F32>, b: seq<F32>, n: nat): F32
    requires n <= |a| && n <= |b|
  {
    if n == 0 then ZERO else fp.add(DotUpTo(fp, a, b, n - 1), fp.mul(a[n - 1], b[n - 1]))
  }

  /** The dot product of zipped slices stops at the shorter one. */
  function Dot(fp: Arith, a: seq<F32>, b: seq<F32>): F32 {
    DotUpTo(fp, a, b, Min(|a|, |b|))
  }

  function NormSq(fp: Arith, v: seq<F32>): F32 {
    DotUpTo(fp, v, v, |v|)
  }

  function CosineFromNorms(fp: Arith, a: seq<F32>, b: seq<F32>, aNormSq: F32, bNormSq: F32): F32 {
    if IsZero(aNormSq) || IsZero(bNormSq) then ZERO
    else fp.div(Dot(fp, a, b), fp.mul(fp.sqrt(aNormSq), fp.sqrt(bNormSq)))
  }

  function Cosine(fp: Arith, a: seq<F32>, b: seq<F32>): F32 {
    CosineFromNorms(fp, a, b, NormSq(fp, a), NormSq(fp, b))
  }

  method ComputeNormSq(fp: Arith, v: seq<F32>) returns (acc: F32)
    ensures acc == NormSq(fp, v)
  {
    acc := ZERO;
    for i := 0 to |v|
      invariant acc == DotUpTo(fp, v, v, i)
    {
      acc := fp.add(acc, fp.mul(v[i], v[i]));
    }
  }

  method ComputeCosineFromNorms(fp: Arith, a: seq<F32>, b: seq<F32>, aNormSq: F32, bNormSq: F32) returns (r: F32)
    ensures r == CosineFromNorms(fp, a, b, aNormSq, bNormSq)
  {
    if IsZero(aNormSq) || IsZero(bNormSq) {
      return ZERO;
    }
    var dot := ZERO;
    for i := 0 to Min(|a|, |b|)
      invariant dot == DotUpTo(fp, a, b, i)
    {
      dot := fp.add(dot, fp.mul(a[i], b[i]));
    }
    r := fp.div(dot, fp.mul(fp.sqrt(aNormSq), fp.sqrt(bNormSq)));
  }

  /** The naive loop with three accumulators yields the same bits as the separate loops. */
  method FusedCosine(fp: Arith, a: seq<F32>, b: seq<F32>) returns (r: F32)
    requires |a| == |b|
    ensures r == Cosine(fp, a, b)
  {
    var dot, aa, bb := ZERO, ZERO, ZERO;
    for i := 0 to |a|
      invariant dot == DotUpTo(fp, a, b, i) && aa == DotUpTo(fp, a, a, i) && bb == DotUpTo(fp, b, b, i)
    {
      dot, aa, bb := fp.add(dot, fp.mul(a[i], b[i])), fp.add(aa, fp.mul(a[i], a[i])), fp.add(bb, fp.mul(b[i], b[i]));
    }
    r := if IsZero(aa) || IsZero(bb) then ZERO else fp.div(dot, fp.mul(fp.sqrt(aa), fp.sqrt(bb)));
  }
}
