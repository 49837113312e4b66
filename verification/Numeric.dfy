/** Machine numbers of the vector store: unsigned integers and binary32 floats. */
module Numeric {

  type U32 = x: int | 0 <= x < 0x1_0000_0000
  type U64 = x: int | 0 <= x < 0x1_0000_0000_0000_0000

  /** A binary32 float, given by its bit pattern. */
  type F32 = x: int | 0 <= x < 0x1_0000_0000

  const SIGN_BIT := 0x8000_0000
  const ZERO: F32 := 0

  /** The rounding float operations. Every result about scores holds for every choice of them;
      in particular none assumes associativity. */
  datatype Arith = Arith(
    add: (F32, F32) -> F32,
    mul: (F32, F32) -> F32,
    div: (F32, F32) -> F32,
    sqrt: F32 -> F32)

  /** `x == 0.0`: both signed zeros compare equal to 0.0. */
  predicate IsZero(x: F32) {
    x == ZERO || x == SIGN_BIT
  }

  datatype Ordering = Less | Equal | Greater {
    function ThenWith(next: Ordering): Ordering {
      if Equal? then next else this
    }
  }

  function CmpInt(a: int, b: int): Ordering {
    if a < b then Less else if a == b then Equal else Greater
  }

  /** The signed integer `f32::total_cmp` compares by: negative patterns have their low 31 bits flipped. */
  function TotalKey(x: F32): int {
    if x < SIGN_BIT then x else SIGN_BIT - 1 - x
  }

  /** totalOrder of section 5.10 of IEEE 754-2008, as `f32::total_cmp` computes it. */
  function TotalCmp(a: F32, b: F32): Ordering {
    CmpInt(TotalKey(a), TotalKey(b))
  }

  function Min(a: nat, b: nat): nat {
    if a <= b then a else b
  }

  const TWO_32 := 0x1_0000_0000

  /** `n as u32`: the low 32 bits. */
  function AsU32(n: nat): U32 {
    n % TWO_32
  }

  /** u32 addition that wraps. */
  function WrappingAdd(a: U32, b: U32): U32 {
    (a + b) % TWO_32
  }

  /** A count that fits is kept; from 2^32 on it starts again. */
  lemma CountsWrap(n: nat)
    ensures n < 4294967296 ==> AsU32(n) == n
    ensures AsU32(n + 4294967296) == AsU32(n)
  {
    assert n + TWO_32 == (n / TWO_32 + 1) * TWO_32 + n % TWO_32;
  }

  lemma WrappingSum(a: nat, b: nat)
    ensures WrappingAdd(AsU32(a), AsU32(b)) == AsU32(a + b)
  {
    var x, y := a / TWO_32, b / TWO_32;
    assert a == x * TWO_32 + AsU32(a) && b == y * TWO_32 + AsU32(b);
    assert a + b == (x + y) * TWO_32 + (AsU32(a) + AsU32(b));
  }

  // ---- total_cmp against the numbers the bit patterns stand for ----

  const INFINITY_BITS := 0x7F80_0000
  const FRACTION := 0x80_0000

  function Pow2(n: nat): nat {
    if n == 0 then 1 else 2 * Pow2(n - 1)
  }

  predicate Finite(x: F32) {
    Magnitude(x) < INFINITY_BITS
  }

  function Magnitude(x: F32): nat {
    if x < SIGN_BIT then x else x - SIGN_BIT
  }

  /** The value of a finite non-negative pattern, in units of 2^-149: the 23-bit fraction, with the hidden
      bit and the exponent's scale for normal numbers. */
  function Units(m: nat): nat
    requires m < INFINITY_BITS
  {
    var exponent, fraction := m / FRACTION, m % FRACTION;
    if exponent == 0 then fraction else (FRACTION + fraction) * Pow2(exponent - 1)
  }

  function Value(x: F32): int
    requires Finite(x)
  {
    var u: int := Units(Magnitude(x));
    if x < SIGN_BIT then u else -u
  }

  lemma {:induction false} Pow2Positive(n: nat)
    ensures Pow2(n) >= 1
  {
    if n > 0 {
      Pow2Positive(n - 1);
    }
  }

  lemma ScaleUp(a: nat, p: nat)
    requires p >= 1
    ensures a * p < (a + 1) * p
  {
    assert (a + 1) * p == a * p + p;
  }

  lemma UnitsStep(m: nat)
    requires m + 1 < INFINITY_BITS
    ensures Units(m) < Units(m + 1)
  {
    var e, f := m / FRACTION, m % FRACTION;
    assert m == e * FRACTION + f;
    if f + 1 < FRACTION {
      assert (m + 1) / FRACTION == e && (m + 1) % FRACTION == f + 1;
      if e > 0 {
        Pow2Positive(e - 1);
        ScaleUp(FRACTION + f, Pow2(e - 1));
      }
    } else {
      assert m + 1 == (e + 1) * FRACTION;
      assert (m + 1) / FRACTION == e + 1 && (m + 1) % FRACTION == 0;
      if e > 0 {
        Pow2Positive(e - 1);
        ScaleUp(FRACTION + f, Pow2(e - 1));
        assert FRACTION * Pow2(e) == FRACTION * (2 * Pow2(e - 1)) == (2 * FRACTION) * Pow2(e - 1);
      }
    }
  }

  lemma {:induction false} UnitsIncrease(a: nat, b: nat)
    requires a < b < INFINITY_BITS
    ensures Units(a) < Units(b)
    decreases b
  {
    UnitsStep(b - 1);
    if a < b - 1 {
      UnitsIncrease(a, b - 1);
    }
  }

  /** On finite floats `total_cmp` is the numeric order, refined only by putting -0.0 below +0.0. */
  lemma TotalCmpIsNumeric(x: F32, y: F32)
    requires Finite(x) && Finite(y)
    ensures Value(x) < Value(y) ==> TotalCmp(x, y) == Less
    ensures Value(x) == Value(y) ==> x == y || (IsZero(x) && IsZero(y))
    ensures TotalCmp(SIGN_BIT, ZERO) == Less
  {
    var a, b := Magnitude(x), Magnitude(y);
    assert Units(0) == 0;
    if a < b {
      UnitsIncrease(a, b);
    } else if b < a {
      UnitsIncrease(b, a);
    }
    if a > 0 {
      UnitsIncrease(0, a);
    }
    if b > 0 {
      UnitsIncrease(0, b);
    }
  }

  /** Comparing equal to 0.0 is having the value 0. */
  lemma ZeroIsNumeric(x: F32)
    requires Finite(x)
    ensures IsZero(x) <==> Value(x) == 0
  {
    if Magnitude(x) > 0 {
      UnitsIncrease(0, Magnitude(x));
    }
    assert Units(0) == 0;
  }

  /** What is not a number ranks outside the numbers and infinities: below them with the sign bit, above without. */
  lemma NansRankOutside(x: F32, y: F32)
    requires Magnitude(x) > INFINITY_BITS && Magnitude(y) <= INFINITY_BITS
    ensures TotalCmp(x, y) == if x < SIGN_BIT then Greater else Less
  {
  }
}
