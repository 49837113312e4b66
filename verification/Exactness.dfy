/** What the float score means: computed without rounding, it is the cosine of the two vectors. */
module Exactness {
  import opened Numeric
  import opened Similarity
  import Geometry

  /** The number a float stands for. */
  type Reading = F32 -> real

  function Read(v: Reading, a: seq<F32>): (r: Geometry.Vector)
    ensures |r| == |a|
  {
    seq(|a|, i requires 0 <= i < |a| => v(a[i]))
  }

  /** No product or sum of the first n terms of the dot product is rounded. */
  ghost predicate DotExact(fp: Arith, v: Reading, a: seq<F32>, b: seq<F32>, n: nat)
    requires n <= |a| && n <= |b|
  {
    v(ZERO) == 0.0 && forall i :: 0 <= i < n ==> TermExact(fp, v, DotUpTo(fp, a, b, i), a[i], b[i])
  }

  ghost predicate TermExact(fp: Arith, v: Reading, sum: F32, x: F32, y: F32) {
    v(fp.mul(x, y)) == v(x) * v(y) && v(fp.add(sum, fp.mul(x, y))) == v(sum) + v(fp.mul(x, y))
  }

  /** The root of a squared norm is exact, and zero is recognised. */
  ghost predicate RootExact(fp: Arith, v: Reading, x: F32) {
    (IsZero(x) <==> v(x) == 0.0) && Geometry.IsRoot(v(fp.sqrt(x)), v(x))
  }

  ghost predicate QuotientExact(fp: Arith, v: Reading, d: F32, x: F32, y: F32) {
    && v(fp.mul(x, y)) == v(x) * v(y)
    && (v(fp.mul(x, y)) != 0.0 ==> v(fp.div(d, fp.mul(x, y))) == v(d) / v(fp.mul(x, y)))
  }

  /** No operation of the whole computation is rounded. */
  ghost predicate CosineExact(fp: Arith, v: Reading, a: seq<F32>, b: seq<F32>)
    requires |a| == |b|
  {
    && DotExact(fp, v, a, b, |a|) && DotExact(fp, v, a, a, |a|) && DotExact(fp, v, b, b, |b|)
    && RootExact(fp, v, NormSq(fp, a)) && RootExact(fp, v, NormSq(fp, b))
    && QuotientExact(fp, v, Dot(fp, a, b), fp.sqrt(NormSq(fp, a)), fp.sqrt(NormSq(fp, b)))
  }

  lemma {:induction false} DotSnoc(a: Geometry.Vector, b: Geometry.Vector)
    requires |a| == |b| > 0
    ensures var n := |a| - 1; Geometry.Dot(a, b) == Geometry.Dot(a[..n], b[..n]) + a[n] * b[n]
  {
    var n := |a| - 1;
    if n > 0 {
      DotSnoc(a[1..], b[1..]);
      assert a[1..][..n - 1] == a[..n][1..] && b[1..][..n - 1] == b[..n][1..];
    }
  }

  lemma ReadSnoc(v: Reading, a: seq<F32>, n: nat)
    requires 0 < n <= |a|
    ensures Read(v, a[..n])[..n - 1] == Read(v, a[..n - 1]) && Read(v, a[..n])[n - 1] == v(a[n - 1])
  {
  }

  lemma TermMeans(fp: Arith, v: Reading, sum: F32, x: F32, y: F32, d: real)
    requires TermExact(fp, v, sum, x, y) && v(sum) == d
    ensures v(fp.add(sum, fp.mul(x, y))) == d + v(x) * v(y)
  {
  }

  lemma {:induction false} DotMeans(fp: Arith, v: Reading, a: seq<F32>, b: seq<F32>, n: nat)
    requires n <= |a| == |b| && DotExact(fp, v, a, b, n)
    ensures v(DotUpTo(fp, a, b, n)) == Geometry.Dot(Read(v, a[..n]), Read(v, b[..n]))
  {
    if n > 0 {
      var m := n - 1;
      DotMeans(fp, v, a, b, m);
      DotSnoc(Read(v, a[..n]), Read(v, b[..n]));
      ReadSnoc(v, a, n);
      ReadSnoc(v, b, n);
      TermMeans(fp, v, DotUpTo(fp, a, b, m), a[m], b[m], Geometry.Dot(Read(v, a[..m]), Read(v, b[..m])));
    }
  }

  lemma NormMeans(fp: Arith, v: Reading, a: seq<F32>)
    requires DotExact(fp, v, a, a, |a|)
    ensures v(NormSq(fp, a)) == Geometry.NormSq(Read(v, a))
  {
    DotMeans(fp, v, a, a, |a|);
    assert a[..|a|] == a;
  }

  lemma RootsMultiply(ra: real, rb: real, x: real, y: real)
    requires Geometry.IsRoot(ra, x) && Geometry.IsRoot(rb, y)
    ensures ra * rb == 0.0 <==> x == 0.0 || y == 0.0
  {
    if x != 0.0 && y != 0.0 {
      assert ra != 0.0 && rb != 0.0;
      Geometry.ProductPositive(ra, rb);
    }
    if x == 0.0 {
      Geometry.ZeroSquare(ra);
    }
    if y == 0.0 {
      Geometry.ZeroSquare(rb);
    }
  }

  /** Exact norms and an exact dot product make an exact score. */
  lemma ScoreMeans(fp: Arith, v: Reading, a: seq<F32>, b: seq<F32>, x: F32, y: F32, ra: real, rb: real)
    requires RootExact(fp, v, x) && RootExact(fp, v, y) && v(ZERO) == 0.0
    requires QuotientExact(fp, v, Dot(fp, a, b), fp.sqrt(x), fp.sqrt(y))
    requires Geometry.IsRoot(ra, v(x)) && Geometry.IsRoot(rb, v(y))
    ensures v(CosineFromNorms(fp, a, b, x, y)) == if ra * rb == 0.0 then 0.0 else v(Dot(fp, a, b)) / (ra * rb)
  {
    Geometry.RootUnique(ra, v(fp.sqrt(x)), v(x));
    Geometry.RootUnique(rb, v(fp.sqrt(y)), v(y));
    RootsMultiply(ra, rb, v(x), v(y));
  }

  /** The roots the computation takes are the lengths of the vectors. */
  lemma RootsAreLengths(fp: Arith, v: Reading, a: seq<F32>, b: seq<F32>)
    requires |a| == |b| && CosineExact(fp, v, a, b)
    ensures Geometry.IsRoot(v(fp.sqrt(NormSq(fp, a))), Geometry.NormSq(Read(v, a)))
    ensures Geometry.IsRoot(v(fp.sqrt(NormSq(fp, b))), Geometry.NormSq(Read(v, b)))
  {
    NormMeans(fp, v, a);
    NormMeans(fp, v, b);
  }

  /** For every choice of operations and every reading of floats as numbers under which this computation is exact, the
      score is the dot product of the vectors over the product of their lengths, and 0 when one of them is zero;
      so it lies in [-1, 1]. */
  lemma CosineMeans(fp: Arith, v: Reading, a: seq<F32>, b: seq<F32>)
    requires |a| == |b| && CosineExact(fp, v, a, b)
    ensures forall ra, rb ::
      Geometry.IsRoot(ra, Geometry.NormSq(Read(v, a))) && Geometry.IsRoot(rb, Geometry.NormSq(Read(v, b))) ==>
        v(Cosine(fp, a, b)) == Geometry.Cosine(Read(v, a), Read(v, b), ra, rb)
    ensures -1.0 <= v(Cosine(fp, a, b)) <= 1.0
  {
    forall ra, rb
      | Geometry.IsRoot(ra, Geometry.NormSq(Read(v, a))) && Geometry.IsRoot(rb, Geometry.NormSq(Read(v, b)))
      ensures v(Cosine(fp, a, b)) == Geometry.Cosine(Read(v, a), Read(v, b), ra, rb)
    {
      CosineOver(fp, v, a, b, ra, rb);
    }
    RootsAreLengths(fp, v, a, b);
    var ra, rb := v(fp.sqrt(NormSq(fp, a))), v(fp.sqrt(NormSq(fp, b)));
    Geometry.CosineRange(Read(v, a), Read(v, b), ra, rb);
  }

  lemma CosineOver(fp: Arith, v: Reading, a: seq<F32>, b: seq<F32>, ra: real, rb: real)
    requires |a| == |b| && CosineExact(fp, v, a, b)
    requires Geometry.IsRoot(ra, Geometry.NormSq(Read(v, a))) && Geometry.IsRoot(rb, Geometry.NormSq(Read(v, b)))
    ensures v(Cosine(fp, a, b)) == Geometry.Cosine(Read(v, a), Read(v, b), ra, rb)
  {
    NormMeans(fp, v, a);
    NormMeans(fp, v, b);
    DotMeans(fp, v, a, b, |a|);
    assert a[..|a|] == a && b[..|b|] == b;
    ScoreMeans(fp, v, a, b, NormSq(fp, a), NormSq(fp, b), ra, rb);
  }

  const ONE: F32 := 0x3F80_0000

  /** Operations that are right on 0 and 1, and the reading of those two. */
  function Binary(): (Arith, Reading) {
    (Arith((x, y) => if x == ZERO then y else x, (x, y) => if x == ZERO || y == ZERO then ZERO else ONE,
           (x, y) => x, x => x),
     (x: F32) => if IsZero(x) then 0.0 else 1.0)
  }

  /** Such computations exist: under these operations the score of [1] against itself is exact, and 1. */
  lemma ExactExample()
    ensures var (fp, v) := Binary();
      CosineExact(fp, v, [ONE], [ONE]) && v(Cosine(fp, [ONE], [ONE])) == 1.0
  {
    var (fp, v) := Binary();
    assert DotUpTo(fp, [ONE], [ONE], 0) == ZERO && DotUpTo(fp, [ONE], [ONE], 1) == ONE;
  }

  lemma {:induction false} DotCommutes(fp: Arith, a: seq<F32>, b: seq<F32>, n: nat)
    requires n <= |a| && n <= |b| && forall x, y :: fp.mul(x, y) == fp.mul(y, x)
    ensures DotUpTo(fp, a, b, n) == DotUpTo(fp, b, a, n)
  {
    if n > 0 {
      DotCommutes(fp, a, b, n - 1);
    }
  }

  /** Rounded or not, record and query may change places, bit for bit, when multiplication commutes. */
  lemma CosineCommutes(fp: Arith, a: seq<F32>, b: seq<F32>)
    requires forall x, y :: fp.mul(x, y) == fp.mul(y, x)
    ensures Cosine(fp, a, b) == Cosine(fp, b, a)
  {
    DotCommutes(fp, a, b, Min(|a|, |b|));
  }
}
