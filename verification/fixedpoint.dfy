/**
  The rounding helpers of AtamaiWarp/vtkImageAmoebaGrid.cxx.

  With integer math switched on, a value v is held as the integer v * 2^14 (radix 14).
  `>>` on a signed int is modelled as an arithmetic shift, that is floor division by a
  power of two, and `<<` as multiplication by a power of two; integers are unbounded, so the
  int32 overflow the source warns about is not part of the model.  The floating-point
  helpers are modelled over `real`, with the platform-specific floor of a double taken
  to be the mathematical floor.
 */
module FixedPoint {

  /** 1.0 in fixed point: 1 << 14. */
  const One: int := 16384
  /** 0.5 in fixed point: 1 << 13. */
  const Half: int := 8192

  // ---------------------------------------------------------------------------
  // Fixed point

  /** The integer part, x >> 14: the largest integer whose fixed-point value is at most x. */
  function Floor(x: int): (r: int)
    ensures r * One <= x < r * One + One
  {
    x / 16384
  }

  /** The smallest integer whose fixed-point value is at least x. */
  function Ceil(x: int): (r: int)
    ensures x <= r * One < x + One
  {
    (One - 1 + x) / 16384
  }

  /** The nearest integer, halves rounded up. */
  function Round(x: int): (r: int)
    ensures r * One - Half <= x < r * One + Half
  {
    (x + Half) / 16384
  }

  /** The integer part and the fixed-point fraction left over. */
  function FloorFraction(x: int): (r: (int, int))
    ensures x == r.0 * One + r.1 && 0 <= r.1 < One
    ensures r.0 == Floor(x)
  {
    var ix := x / 16384;
    (ix, x - ix * One)
  }

  /**
    Rescale a raw product of two fixed-point numbers (radix 28) to radix 14, rounding
    to the nearest.
   */
  function QuikMul(xy: int): (r: int)
    ensures r * One - Half <= xy < r * One + Half
  {
    (xy + Half) / 16384
  }

  /**
    The product of two fixed-point numbers, computed from their integer parts and
    fractions so that no intermediate needs 28 fraction bits.
   */
  function Multiply(x: int, y: int): (r: int)
    ensures r == QuikMul(x * y)
  {
    var (hx, lx) := FloorFraction(x);
    var (hy, ly) := FloorFraction(y);
    MultiplyByParts(x, y);
    (lx * ly + Half) / 16384 + hx * ly + x * hy
  }

  lemma MultiplyByParts(x: int, y: int)
    ensures var (hx, lx) := FloorFraction(x);
            var (hy, ly) := FloorFraction(y);
            (x * y + Half) / 16384 == (lx * ly + Half) / 16384 + hx * ly + x * hy
  {
    var (hx, lx) := FloorFraction(x);
    var (hy, ly) := FloorFraction(y);
    var k := x * hy + hx * ly;
    assert x * y == x * (hy * One + ly);
    assert x * y == k * One + lx * ly by {
      assert x * (hy * One + ly) == x * hy * One + x * ly;
      assert x * ly == (hx * One + lx) * ly;
      assert (hx * One + lx) * ly == hx * ly * One + lx * ly;
    }
    DivAddMultiple(k, lx * ly + Half);
  }

  /** Adding a multiple of One adds its factor to the quotient. */
  lemma DivAddMultiple(k: int, n: int)
    ensures (k * One + n) / 16384 == k + n / 16384
  {
    var q := n / 16384;
    var rem := n % 16384;
    assert n == q * One + rem && 0 <= rem < One;
    assert k * One + n == (k + q) * One + rem;
    DivUnique(k * One + n, k + q, rem);
  }

  lemma DivUnique(n: int, q: int, rem: int)
    requires n == q * One + rem && 0 <= rem < One
    ensures n / 16384 == q
  {
  }

  /** Division as C does it: the quotient truncated toward zero. */
  function TruncatedDivision(a: int, b: int): (q: int)
    requires b != 0
    ensures Abs(a - q * b) < Abs(b)
    ensures a >= 0 ==> a - q * b >= 0
    ensures a <= 0 ==> a - q * b <= 0
  {
    var n := Abs(a) / Abs(b);
    TruncatedRemainder(a, b, n);
    if (a < 0) == (b < 0) then n else -n
  }

  lemma TruncatedRemainder(a: int, b: int, n: int)
    requires b != 0 && n == Abs(a) / Abs(b)
    ensures var q := if (a < 0) == (b < 0) then n else -n;
            Abs(a - q * b) < Abs(b) && (a >= 0 ==> a - q * b >= 0) && (a <= 0 ==> a - q * b <= 0)
  {
    var m := Abs(a) - n * Abs(b);
    assert 0 <= m < Abs(b);
    var q := if (a < 0) == (b < 0) then n else -n;
    if a >= 0 {
      if b > 0 {
        assert a - q * b == m;
      } else {
        assert q * b == n * Abs(b);
        assert a - q * b == m;
      }
    } else {
      if b > 0 {
        assert q * b == -(n * Abs(b));
        assert a - q * b == -m;
      } else {
        assert q * b == -(n * Abs(b));
        assert a - q * b == -m;
      }
    }
  }

  function Abs(x: int): (r: int)
    ensures r >= 0 && (r == x || r == -x)
  {
    if x < 0 then -x else x
  }

  /**
    The fixed-point reciprocal ((1 << 29) / x + 1) >> 1: for positive x the value whose
    product with x is closest to 1.0 * 1.0 in radix 28, within half of x.
   */
  function Inverse(x: int): (r: int)
    requires x != 0
    ensures x > 0 ==> 2 * One * One - x < 2 * r * x <= 2 * One * One + x
  {
    var q := TruncatedDivision(2 * One * One, x);
    InverseBound(x, q);
    (q + 1) / 2
  }

  lemma InverseBound(x: int, q: int)
    requires x != 0 && 0 <= 2 * One * One - q * x < Abs(x)
    ensures var r := (q + 1) / 2;
            x > 0 ==> 2 * One * One - x < 2 * r * x <= 2 * One * One + x
  {
    if x < 0 {
      return;
    }
    var r := (q + 1) / 2;
    var n := 2 * One * One;
    assert 2 * r <= q + 1 <= 2 * r + 1;
    assert 2 * r * x <= (q + 1) * x by {
      assert (q + 1 - 2 * r) * x >= 0;
    }
    assert (q + 1) * x <= (2 * r + 1) * x by {
      assert (2 * r - q) * x >= 0;
    }
    assert q * x <= n < q * x + x;
  }

  /** 1 - x in fixed point. */
  function OneMinusX(x: int): (r: int)
    ensures r + x == One
    ensures IsInteger(x) <==> IsInteger(r)
  {
    FloorOfShift(x);
    One - x
  }

  lemma FloorOfShift(x: int)
    ensures (One - x) % 16384 == 0 <==> x % 16384 == 0
  {
    var q := x / 16384;
    var rem := x % 16384;
    assert x == q * One + rem;
    assert One - x == (1 - q) * One - rem;
    if rem == 0 {
      DivUnique(One - x, 1 - q, 0);
    } else {
      DivUnique(One - x, -q, One - rem);
    }
  }

  /** Whether x is exactly 1.0. */
  function IsEqualToOne(x: int): (b: bool)
    ensures b <==> Floor(x) == 1 && IsInteger(x)
  {
    One == x
  }

  /** Whether x has no fraction: shifting out the fraction and back gives x again. */
  function IsInteger(x: int): (b: bool)
    ensures b <==> x % 16384 == 0
    ensures b <==> Floor(x) == Ceil(x)
  {
    x == (x / 16384) * One
  }

  // ---------------------------------------------------------------------------
  // Floating point, over the reals

  /** The floor of a double. */
  function FloorReal(x: real): (r: int)
    ensures r as real <= x < r as real + 1.0
  {
    x.Floor
  }

  /** Ceiling by way of floor: -floor(-x - 1) - 1 is the smallest integer at least x. */
  function CeilReal(x: real): (r: int)
    ensures x <= r as real < x + 1.0
  {
    -FloorReal(-x - 1.0) - 1
  }

  /** Round half up by way of floor: floor(x + 0.5). */
  function RoundReal(x: real): (r: int)
    ensures r as real - 0.5 <= x < r as real + 0.5
  {
    FloorReal(x + 0.5)
  }

  /** The integer part of a float and the fraction left over. */
  function FloorFractionReal(x: real): (r: (int, real))
    ensures x == r.0 as real + r.1 && 0.0 <= r.1 < 1.0
  {
    var ix := FloorReal(x);
    (ix, x - ix as real)
  }

  /** Whether a float equals its floor. */
  function IsIntegerReal(x: real): (b: bool)
    ensures b <==> FloorReal(x) == CeilReal(x)
    ensures b <==> FloorFractionReal(x).1 == 0.0
  {
    x == FloorReal(x) as real
  }
}
