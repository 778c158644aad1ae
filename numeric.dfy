/**
 * Machine integers and the numeric conversions of the .NET runtime that the
 * solvers rely on, written out over Dafny's unbounded integers and reals.
 */
module Numeric {
  import opened Wrappers

  const TWO_64: nat := 0x1_0000_0000_0000_0000

  /** C#'s `ulong` */
  type U64 = x: int | 0 <= x < TWO_64

  /** C#'s `uint` */
  type U32 = x: int | 0 <= x < 0x1_0000_0000

  /** C#'s `int` */
  type I32 = x: int | -0x8000_0000 <= x < 0x8000_0000

  /** A `double[3]`: a sensor reading, a position or a rotation. */
  type Vec3 = s: seq<real> | |s| == 3 witness [0.0, 0.0, 0.0]

  /** `start + rates · dt`, component by component. */
  function Advance(start: Vec3, rates: Vec3, dt: real): Vec3 {
    [start[0] + rates[0] * dt, start[1] + rates[1] * dt, start[2] + rates[2] * dt]
  }

  /** Advancing over no time stays at the start. */
  lemma AdvanceZero(start: Vec3, rates: Vec3, dt: real)
    requires dt == 0.0
    ensures Advance(start, rates, dt) == start
  {
    assert rates[0] * dt == rates[0] * 0.0 == 0.0;
    assert rates[1] * dt == rates[1] * 0.0 == 0.0;
    assert rates[2] * dt == rates[2] * 0.0 == 0.0;
  }

  const TWO_32: nat := 0x1_0000_0000

  /**
   * `frameCounter + 1` on a `uint` counter that started at 0 and was
   * incremented `i` times: both the increments and the addition wrap.
   */
  function CounterSucc(i: nat): (r: U32)
    ensures i + 1 < TWO_32 ==> r == i + 1
    ensures i + 1 == TWO_32 ==> r == 0
  {
    ((i % TWO_32) + 1) % TWO_32
  }

  lemma MulCancelLt(a: nat, b: nat, c: nat)
    requires a * c < b * c
    ensures a < b
  {
    assert (b - a) * c == b * c - a * c;
  }

  /** Incrementing the wrapped counter wraps the incremented count. */
  lemma CounterSuccWraps(i: nat)
    ensures CounterSucc(i) == (i + 1) % TWO_32
  {
    var q, m := i / TWO_32, i % TWO_32;
    assert i + 1 == q * TWO_32 + (m + 1);
    if m + 1 == TWO_32 {
      assert i + 1 == (q + 1) * TWO_32;
    }
  }

  /** `a.CompareTo(b)` on `ulong` / `uint`: -1, 0 or 1. */
  function CompareInt(a: int, b: int): (r: int)
    ensures r == -1 <==> a < b
    ensures r == 0 <==> a == b
    ensures r == 1 <==> a > b
  {
    if a < b then -1 else if a == b then 0 else 1
  }

  /** `a - b` on `ulong` in C#'s default unchecked context: wraps modulo 2^64. */
  function SubU64(a: U64, b: U64): (r: U64)
    ensures b <= a ==> r == a - b
    ensures a < b ==> r == a - b + TWO_64
  {
    if b <= a then a - b else a - b + TWO_64
  }

  /** `a * b` on `ulong` in C#'s default unchecked context: keeps the low 64 bits. */
  function MulU64(a: U64, b: U64): (r: U64)
    ensures a * b < TWO_64 ==> r == a * b
    ensures (a * b - r) % TWO_64 == 0
  {
    (a * b) % TWO_64
  }

  /**
   * For every delta of at least 2^32 ns the wrapped square is strictly
   * smaller than the true square.
   */
  lemma {:induction false} MulU64LosesLargeSquares(d: U64)
    requires d >= 0x1_0000_0000
    ensures MulU64(d, d) < d * d
  {
    assert d * d >= 0x1_0000_0000 * 0x1_0000_0000 by {
      MulMonotone(0x1_0000_0000, d);
    }
  }

  /**
   * Squaring a delta on `ulong`: exact below 2^32, 0 at exactly 2^32, and
   * smaller than the true square from there on.
   */
  lemma SquareU64(d: U64)
    ensures d < 0x1_0000_0000 ==> MulU64(d, d) == d * d
    ensures d == 0x1_0000_0000 ==> MulU64(d, d) == 0
    ensures d >= 0x1_0000_0000 ==> MulU64(d, d) < d * d
  {
    if d < 0x1_0000_0000 {
      MulMonotone(d, 0x1_0000_0000 - 1);
    } else {
      MulU64LosesLargeSquares(d);
    }
  }

  lemma {:induction false} MulMonotone(a: nat, b: nat)
    requires a <= b
    ensures a * a <= b * b
  {
    assert a * a <= a * b;
    assert a * b <= b * b;
  }

  /** The integer nearest to `x`, ties to the even neighbour (Math.Round's default). */
  function RoundHalfEven(x: real): (r: int)
    ensures x - 0.5 <= r as real <= x + 0.5
    ensures (r as real == x - 0.5 || r as real == x + 0.5) ==> r % 2 == 0
  {
    var f := x.Floor;
    var d := x - f as real;
    if d < 0.5 then f
    else if d > 0.5 then f + 1
    else if f % 2 == 0 then f
    else f + 1
  }

  /**
   * Convert.ToUInt64(double): round half to even, OverflowException outside
   * [-0.5, 2^64 - 0.5).
   */
  function ToU64(x: real): (r: Option<U64>)
    ensures r.None? <==> x < -0.5 || x >= TWO_64 as real - 0.5
    ensures r.Some? ==> x - 0.5 <= r.value as real <= x + 0.5
    ensures r.Some? && (r.value as real == x - 0.5 || r.value as real == x + 0.5) ==> r.value % 2 == 0
  {
    if x < -0.5 || x >= TWO_64 as real - 0.5 then None
    else
      Some(RoundHalfEven(x))
  }

  /** Truncation toward zero, as a cast from double to an integer type does. */
  function Truncate(x: real): (r: int)
    ensures 0.0 <= x ==> 0 <= r && r as real <= x < r as real + 1.0
    ensures x < 0.0 ==> r <= 0 && r as real - 1.0 < x <= r as real
  {
    if 0.0 <= x then x.Floor else -((-x).Floor)
  }

  /**
   * C#'s `%` on doubles: the remainder of the division truncated toward zero,
   * so the result has the sign of the dividend.
   */
  function FMod(x: real, y: real): (r: real)
    requires 0.0 < y
    ensures 0.0 <= x ==> 0.0 <= r < y
    ensures x < 0.0 ==> -y < r <= 0.0
    ensures 0.0 <= x < y ==> r == x
  {
    var q := Truncate(x / y);
    FModBounds(x, y, x / y, q);
    x - q as real * y
  }

  lemma FModBounds(x: real, y: real, z: real, q: int)
    requires 0.0 < y && z * y == x && q == Truncate(z)
    ensures 0.0 <= x ==> 0.0 <= x - q as real * y < y
    ensures x < 0.0 ==> -y < x - q as real * y <= 0.0
    ensures 0.0 <= x < y ==> q == 0
  {
    if 0.0 <= x {
      FModBoundsNonnegative(x, y, z, q);
    } else {
      FModBoundsNegative(x, y, z, q);
    }
  }

  lemma FModBoundsNonnegative(x: real, y: real, z: real, q: int)
    requires 0.0 < y && z * y == x && q == Truncate(z) && 0.0 <= x
    ensures 0.0 <= x - q as real * y < y
    ensures x < y ==> q == 0
  {
    if z < 0.0 {
      MulLt(z, 0.0, y);
    }
    assert q as real <= z < q as real + 1.0;
    BetweenMultiples(x, y, z, q as real);
    if x < y {
      UnitQuotient(x, y, z);
    }
  }

  /** A dividend below the divisor has a quotient in [0, 1). */
  lemma UnitQuotient(x: real, y: real, z: real)
    requires 0.0 < y && z * y == x && 0.0 <= x < y
    ensures 0.0 <= z < 1.0
  {
    if z < 0.0 {
      MulLt(z, 0.0, y);
    }
    assert z * y < 1.0 * y;
    MulLtCancel(z, 1.0, y);
  }

  lemma FModBoundsNegative(x: real, y: real, z: real, q: int)
    requires 0.0 < y && z * y == x && q == Truncate(z) && x < 0.0
    ensures -y < x - q as real * y <= 0.0
  {
    if 0.0 <= z {
      MulLe(0.0, z, y);
    }
    assert q as real - 1.0 < z <= q as real;
    BetweenMultiplesNeg(x, y, z, q as real);
  }

  lemma BetweenMultiples(x: real, y: real, z: real, a: real)
    requires 0.0 < y && z * y == x && a <= z < a + 1.0
    ensures a * y <= x < a * y + y
  {
    var b := a + 1.0;
    assert b * y == a * y + y;
    MulLe(a, z, y);
    MulLt(z, b, y);
    assert x < b * y;
  }

  lemma BetweenMultiplesNeg(x: real, y: real, z: real, a: real)
    requires 0.0 < y && z * y == x && a - 1.0 < z <= a
    ensures a * y - y < x <= a * y
  {
    var b := a - 1.0;
    assert b * y == a * y - y;
    MulLt(b, z, y);
    MulLe(z, a, y);
    assert b * y < x;
  }

  lemma MulLe(a: real, b: real, y: real)
    requires a <= b && 0.0 < y
    ensures a * y <= b * y
  {
    assert b * y - a * y == (b - a) * y;
  }

  lemma MulLtCancel(a: real, b: real, y: real)
    requires 0.0 < y && a * y < b * y
    ensures a < b
  {
    if b <= a {
      MulLe(b, a, y);
    }
  }

  lemma MulLt(a: real, b: real, y: real)
    requires a < b && 0.0 < y
    ensures a * y < b * y
  {
    assert b * y - a * y == (b - a) * y;
  }
}
