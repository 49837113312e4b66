/** What cosine ranking means when arithmetic is exact. Kept apart from the rounding model. */
module Geometry {

  type Vector = seq<real>

  function Dot(a: Vector, b: Vector): real
    requires |a| == |b|
  {
    if a == [] then 0.0 else Dot(a[1..], b[1..]) + a[0] * b[0]
  }

  function NormSq(v: Vector): real {
    Dot(v, v)
  }

  function Scale(c: real, v: Vector): (w: Vector)
    ensures |w| == |v|
  {
    if v == [] then [] else [c * v[0]] + Scale(c, v[1..])
  }

  ghost predicate IsRoot(r: real, x: real) {
    r >= 0.0 && r * r == x
  }

  /** `cosine_from_norm_sq` with `ra`, `rb` the square roots of the two squared norms. */
  function Cosine(a: Vector, b: Vector, ra: real, rb: real): real
    requires |a| == |b|
  {
    if ra * rb == 0.0 then 0.0 else Dot(a, b) / (ra * rb)
  }

  lemma ProductPositive(x: real, y: real)
    requires x > 0.0 && y > 0.0
    ensures x * y > 0.0
  {
  }

  lemma SquareNonNegative(x: real)
    ensures x * x >= 0.0
  {
    assert (-x) * (-x) == x * x;
  }

  lemma SquaresOrder(u: real, v: real)
    requires v >= 0.0 && u * u <= v * v
    ensures u <= v
  {
    assert (u - v) * (u + v) == u * u - v * v;
    if u > v {
      ProductPositive(u - v, u + v);
    }
  }

  lemma MulMonotone(a: real, b: real, w: real)
    requires a <= b && w >= 0.0
    ensures a * w <= b * w
  {
    assert (b - a) * w == b * w - a * w;
    if a < b && w > 0.0 {
      ProductPositive(b - a, w);
    }
  }

  lemma MulInterchange(a: real, b: real, c: real, d: real)
    ensures (a * b) * (c * d) == (a * c) * (b * d)
  {
  }

  lemma FourTimesProduct(a: real, b: real)
    ensures 4.0 * (a * b) <= (a + b) * (a + b)
  {
    SquareNonNegative(a - b);
    assert (a + b) * (a + b) == (a - b) * (a - b) + 4.0 * (a * b);
  }

  /** The cross term of one place is bounded by the mixed products of the norms. */
  lemma CrossTerm(d: real, p: real, q: real, m: real, x2: real, y2: real)
    requires d * d <= p * q && m * m == x2 * y2
    requires p >= 0.0 && q >= 0.0 && x2 >= 0.0 && y2 >= 0.0
    ensures 2.0 * (d * m) <= p * y2 + q * x2
  {
    var v := p * y2 + q * x2;
    var u := d * m;
    MulMonotone(0.0, p, y2);
    MulMonotone(0.0, q, x2);
    MulInterchange(d, m, d, m);
    SquareNonNegative(m);
    MulMonotone(d * d, p * q, m * m);
    MulInterchange(p, y2, q, x2);
    CommuteProduct(x2, y2);
    FourTimesProduct(p * y2, q * x2);
    Doubled(u);
    SquaresOrder(2.0 * u, v);
  }

  lemma CommuteProduct(x: real, y: real)
    ensures x * y == y * x
  {
  }

  lemma Doubled(u: real)
    ensures (2.0 * u) * (2.0 * u) == 4.0 * (u * u)
  {
  }

  lemma ExpandProduct(a: real, b: real, c: real, d: real)
    ensures (a + b) * (c + d) == a * c + a * d + b * c + b * d
  {
  }

  /** One place of the Cauchy-Schwarz sum. */
  lemma CauchySchwarzStep(d: real, p: real, q: real, x: real, y: real)
    requires d * d <= p * q && p >= 0.0 && q >= 0.0
    ensures (d + x * y) * (d + x * y) <= (p + x * x) * (q + y * y)
  {
    SquareNonNegative(x);
    SquareNonNegative(y);
    MulInterchange(x, y, x, y);
    CrossTerm(d, p, q, x * y, x * x, y * y);
    ExpandProduct(d, x * y, d, x * y);
    ExpandProduct(p, x * x, q, y * y);
    CommuteProduct(d, x * y);
    CommuteProduct(q, x * x);
  }

  lemma CancelProduct(x: real, y: real, z: real)
    requires x != 0.0 && x * y == z
    ensures y == z / x
  {
  }

  lemma ZeroSquare(x: real)
    requires x * x == 0.0
    ensures x == 0.0
  {
    if x != 0.0 {
      CancelProduct(x, x, 0.0);
    }
  }

  lemma ZeroSum(x: real, n: real)
    requires n >= 0.0 && n + x * x == 0.0
    ensures n == 0.0 && x == 0.0
  {
    SquareNonNegative(x);
    assert n == 0.0;
    ZeroSquare(x);
  }

  lemma {:induction false} NormNonNegative(v: Vector)
    ensures NormSq(v) >= 0.0
    ensures NormSq(v) == 0.0 <==> forall i :: 0 <= i < |v| ==> v[i] == 0.0
  {
    if v != [] {
      NormNonNegative(v[1..]);
      SquareNonNegative(v[0]);
      if NormSq(v) == 0.0 {
        ZeroSum(v[0], NormSq(v[1..]));
      }
      assert forall i :: 0 < i < |v| ==> v[i] == v[1..][i - 1];
    }
  }

  /** Dot squared never exceeds the product of the squared norms, in every dimension. */
  lemma {:induction false} CauchySchwarz(a: Vector, b: Vector)
    requires |a| == |b|
    ensures Dot(a, b) * Dot(a, b) <= NormSq(a) * NormSq(b)
  {
    if a != [] {
      CauchySchwarz(a[1..], b[1..]);
      NormNonNegative(a[1..]);
      NormNonNegative(b[1..]);
      CauchySchwarzStep(Dot(a[1..], b[1..]), NormSq(a[1..]), NormSq(b[1..]), a[0], b[0]);
    }
  }

  lemma {:induction false} DotSymmetric(a: Vector, b: Vector)
    requires |a| == |b|
    ensures Dot(a, b) == Dot(b, a)
  {
    if a != [] {
      DotSymmetric(a[1..], b[1..]);
    }
  }

  lemma {:induction false} DotScale(c: real, a: Vector, b: Vector)
    requires |a| == |b|
    ensures Dot(Scale(c, a), b) == c * Dot(a, b)
  {
    if a != [] {
      DotScale(c, a[1..], b[1..]);
      assert Scale(c, a)[1..] == Scale(c, a[1..]);
    }
  }

  lemma NormScale(c: real, v: Vector)
    ensures NormSq(Scale(c, v)) == c * c * NormSq(v)
  {
    DotScale(c, v, Scale(c, v));
    DotSymmetric(v, Scale(c, v));
    DotScale(c, v, v);
  }

  lemma RootUnique(r: real, s: real, x: real)
    requires IsRoot(r, x) && IsRoot(s, x)
    ensures r == s
  {
    SquaresOrder(r, s);
    SquaresOrder(s, r);
  }

  /** Scores lie in [-1, 1]; a nonzero vector scores 1 against itself and a zero vector scores 0. */
  lemma CosineRange(a: Vector, b: Vector, ra: real, rb: real)
    requires |a| == |b| && IsRoot(ra, NormSq(a)) && IsRoot(rb, NormSq(b))
    ensures -1.0 <= Cosine(a, b, ra, rb) <= 1.0
    ensures (forall i :: 0 <= i < |a| ==> a[i] == 0.0) ==> Cosine(a, b, ra, rb) == 0.0
    ensures a == b && ra > 0.0 ==> Cosine(a, b, ra, rb) == 1.0
  {
    CauchySchwarz(a, b);
    NormNonNegative(a);
    var d, p := Dot(a, b), ra * rb;
    assert p * p == (ra * ra) * (rb * rb);
    if a == b {
      RootUnique(ra, rb, NormSq(a));
    }
    if p != 0.0 {
      SquaresOrder(d, p);
      SquaresOrder(-d, p);
      DivideBounds(d, p);
    }
    if NormSq(a) == 0.0 {
      RootUnique(ra, 0.0, 0.0);
    }
  }

  lemma DivideBounds(d: real, p: real)
    requires p > 0.0 && -p <= d <= p
    ensures -1.0 <= d / p <= 1.0
  {
    var q := d / p;
    assert (q - 1.0) * p == d - p && (-1.0 - q) * p == -p - d;
    if q > 1.0 {
      ProductPositive(q - 1.0, p);
    }
    if q < -1.0 {
      ProductPositive(-1.0 - q, p);
    }
  }

  /** Scaling a record by a positive factor changes no score, hence no ranking. */
  lemma CosineScaleInvariant(c: real, a: Vector, b: Vector, ra: real, rb: real, rca: real)
    requires c > 0.0 && |a| == |b|
    requires IsRoot(ra, NormSq(a)) && IsRoot(rb, NormSq(b)) && IsRoot(rca, NormSq(Scale(c, a)))
    ensures Cosine(Scale(c, a), b, rca, rb) == Cosine(a, b, ra, rb)
  {
    DotScale(c, a, b);
    ScaledRoot(c, a, ra, rca);
    MulAssoc(c, ra, rb);
    CancelFactor(c, Dot(a, b), ra * rb);
  }

  lemma MulAssoc(x: real, y: real, z: real)
    ensures (x * y) * z == x * (y * z)
  {
  }

  lemma ScaledRoot(c: real, a: Vector, ra: real, rca: real)
    requires c > 0.0 && IsRoot(ra, NormSq(a)) && IsRoot(rca, NormSq(Scale(c, a)))
    ensures rca == c * ra
  {
    NormScale(c, a);
    assert (c * ra) * (c * ra) == c * c * (ra * ra);
    RootUnique(rca, c * ra, NormSq(Scale(c, a)));
  }

  lemma CancelFactor(c: real, d: real, p: real)
    requires c > 0.0
    ensures c * p == 0.0 <==> p == 0.0
    ensures p != 0.0 ==> (c * d) / (c * p) == d / p
  {
    if p != 0.0 {
      var q := d / p;
      assert c * d == q * (c * p);
    }
  }

  /** Scaling the query by a positive factor preserves the order of any two records. */
  lemma QueryScalePreservesRanking(c: real, q: Vector, a: Vector, b: Vector, ra: real, rb: real, rq: real, rcq: real)
    requires c > 0.0 && |a| == |b| == |q|
    requires IsRoot(ra, NormSq(a)) && IsRoot(rb, NormSq(b))
    requires IsRoot(rq, NormSq(q)) && IsRoot(rcq, NormSq(Scale(c, q)))
    ensures Cosine(a, Scale(c, q), ra, rcq) < Cosine(b, Scale(c, q), rb, rcq)
       <==> Cosine(a, q, ra, rq) < Cosine(b, q, rb, rq)
  {
    CosineSymmetric(a, Scale(c, q), ra, rcq);
    CosineSymmetric(b, Scale(c, q), rb, rcq);
    CosineSymmetric(a, q, ra, rq);
    CosineSymmetric(b, q, rb, rq);
    CosineScaleInvariant(c, q, a, rq, ra, rcq);
    CosineScaleInvariant(c, q, b, rq, rb, rcq);
  }

  lemma CosineSymmetric(a: Vector, b: Vector, ra: real, rb: real)
    requires |a| == |b|
    ensures Cosine(a, b, ra, rb) == Cosine(b, a, rb, ra)
  {
    DotSymmetric(a, b);
  }
}
