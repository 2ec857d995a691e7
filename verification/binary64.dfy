/**
 Binary64 numbers as the reals they stand for. An operation's result is a nearest number of the format:
 any one where the rule for ties does not matter, the one a fixed rounding gives where it does.

 The rounding lemmas hold of every format at least as fine as binary64 and symmetric about zero; the
 set of binary64 numbers is shown to be one.
 */
module Binary64 {
  type Format = iset<real>

  function Pow2(k: nat): (r: int)
    ensures r > 0
  {
    if k == 0 then 1 else 2 * Pow2(k - 1)
  }

  lemma {:induction false} Pow2Adds(a: nat, b: nat)
    ensures Pow2(a) * Pow2(b) == Pow2(a + b)
  {
    if a == 0 {
    } else {
      Pow2Adds(a - 1, b);
    }
  }

  const MANTISSA := 0x20_0000_0000_0000

  function Abs(x: real): real {
    if x < 0.0 then -x else x
  }

  /** `n` steps of a grid that divides each unit into 2^k parts. */
  function Grid(n: int, k: nat): real {
    n as real / Pow2(k) as real
  }

  ghost predicate IsScaled(x: real, m: int, k: int) {
    if k >= 0 then x == (m * Pow2(k)) as real else x * Pow2(-k) as real == m as real
  }

  ghost predicate Representable(x: real) {
    exists m: int, k: int :: -MANTISSA < m < MANTISSA && -1074 <= k <= 971 && IsScaled(x, m, k)
  }

  /** The finite binary64 numbers. */
  ghost function Binary64Numbers(): Format {
    iset x | Representable(x)
  }

  ghost predicate Fine(f: Format) {
    forall n: int, k: nat {:trigger Grid(n, k)} | -MANTISSA < n < MANTISSA && k <= 1074 :: Grid(n, k) in f
  }

  function Negated(x: real): real {
    -x
  }

  ghost predicate Symmetric(f: Format) {
    forall x {:trigger Negated(x)} :: x in f ==> Negated(x) in f
  }

  ghost predicate IsFormat(f: Format) {
    Fine(f) && Symmetric(f)
  }

  lemma Binary64IsFormat()
    ensures IsFormat(Binary64Numbers())
  {
    forall n: int, k: nat | -MANTISSA < n < MANTISSA && k <= 1074 ensures Grid(n, k) in Binary64Numbers() {
      var e: int := k;
      assert IsScaled(Grid(n, k), n, -e);
    }
    forall x | x in Binary64Numbers() ensures Negated(x) in Binary64Numbers() {
      var m, k :| -MANTISSA < m < MANTISSA && -1074 <= k <= 971 && IsScaled(x, m, k);
      if k >= 0 {
        assert ((-m) * Pow2(k)) as real == -((m * Pow2(k)) as real);
      } else {
        assert (-x) * Pow2(-k) as real == -(x * Pow2(-k) as real);
      }
      assert IsScaled(-x, -m, k);
    }
  }

  lemma OddIsNotScaled(m: int, k: int)
    requires -MANTISSA < m < MANTISSA
    ensures !IsScaled(9_007_199_254_740_993.0, m, k)
  {
    if k > 0 {
      assert m * Pow2(k) == 2 * (m * Pow2(k - 1));
    } else if k < 0 {
      assert 9_007_199_254_740_993.0 * Pow2(-k) as real >= 9_007_199_254_740_993.0;
    }
  }

  /** Integers are exact up to 2^53, and the next one is not a number of the format. */
  lemma FirstMissingInteger()
    ensures 9_007_199_254_740_992.0 in Binary64Numbers() && 9_007_199_254_740_993.0 !in Binary64Numbers()
  {
    assert Pow2(1) == 2;
    assert IsScaled(9_007_199_254_740_992.0, 4_503_599_627_370_496, 1);
    forall m: int, k: int | -MANTISSA < m < MANTISSA ensures !IsScaled(9_007_199_254_740_993.0, m, k) {
      OddIsNotScaled(m, k);
    }
  }

  /** `y` is a number of the format nearest to `x`. */
  ghost predicate Rounds(f: Format, x: real, y: real) {
    y in f && forall z :: z in f ==> Abs(y - x) <= Abs(z - x)
  }

  /** Conversion to an integer drops the fraction. */
  function Truncate(x: real): int {
    if x >= 0.0 then x.Floor else -(-x).Floor
  }

  lemma TruncateIsOdd(x: real)
    ensures Truncate(-x) == -Truncate(x)
  {
    if x == 0.0 {
      assert (-x).Floor == 0;
    }
  }

  lemma HasIntegers(f: Format, n: int)
    requires Fine(f) && -MANTISSA < n < MANTISSA
    ensures n as real in f
  {
    assert Grid(n, 0) == n as real;
  }

  lemma RoundingIsOdd(f: Format, x: real, y: real)
    requires Symmetric(f) && Rounds(f, x, y)
    ensures Rounds(f, -x, -y)
  {
    assert Negated(y) == -y;
    forall z | z in f ensures Abs(-y - -x) <= Abs(z - -x) {
      assert Negated(z) == -z;
      assert Abs(y - x) <= Abs(-z - x);
    }
  }

  lemma MemberRoundsToItself(f: Format, x: real, y: real)
    requires Rounds(f, x, y) && x in f
    ensures y == x
  {
    assert Abs(y - x) <= Abs(x - x);
  }

  /** Rounding is monotone across a number of the format. */
  lemma RoundingKeepsSide(f: Format, x: real, y: real, z: real)
    requires Rounds(f, x, y) && z in f
    ensures (x <= z ==> y <= z) && (z <= x ==> z <= y)
  {
    assert Abs(y - x) <= Abs(z - x);
  }

  lemma IntegerRoundsToItself(f: Format, n: int, y: real)
    requires Fine(f) && -MANTISSA < n < MANTISSA && Rounds(f, n as real, y)
    ensures y == n as real
  {
    HasIntegers(f, n);
    MemberRoundsToItself(f, n as real, y);
  }

  lemma RoundingStaysBetween(f: Format, x: real, y: real, lo: real, hi: real)
    requires Rounds(f, x, y) && lo in f && hi in f && lo <= x <= hi
    ensures lo <= y <= hi
  {
    assert Abs(y - x) <= Abs(lo - x) && Abs(y - x) <= Abs(hi - x);
  }

  lemma RoundingStaysBetweenIntegers(f: Format, x: real, y: real, lo: int, hi: int)
    requires Fine(f) && Rounds(f, x, y) && lo as real <= x <= hi as real
    requires -MANTISSA < lo && hi < MANTISSA
    ensures lo as real <= y <= hi as real
  {
    HasIntegers(f, lo);
    HasIntegers(f, hi);
    RoundingStaysBetween(f, x, y, lo as real, hi as real);
  }

  lemma Pow2Of36()
    ensures Pow2(36) == 0x10_0000_0000
  {
    assert Pow2(2) == 4;
    Pow2Adds(2, 2);
    Pow2Adds(4, 2);
    Pow2Adds(6, 6);
    Pow2Adds(12, 12);
    Pow2Adds(24, 12);
  }

  /** Rounding cannot carry a quotient over the next integer while a grid step of 2^-36 keeps them apart. */
  lemma FloorSurvivesRounding(f: Format, x: real, y: real, n: int)
    requires Fine(f) && Rounds(f, x, y) && 0 <= n < 0x1_FFFF
    requires n as real <= x <= (n + 1) as real - 1.0 / 68719476736.0
    ensures y.Floor == n
  {
    var top := (n + 1) * 0x10_0000_0000 - 1;
    Pow2Of36();
    HasIntegers(f, n);
    var g := Grid(top, 36);
    assert g == (n + 1) as real - 1.0 / 68719476736.0;
    RoundingStaysBetween(f, x, y, n as real, g);
  }

  lemma NearestGridPoint(x: real, p: real) returns (n: int)
    requires p > 0.0
    ensures Abs(n as real / p - x) * p * 2.0 <= 1.0
    ensures Abs(n as real) <= Abs(x) * p + 1.0
  {
    n := (x * p + 0.5).Floor;
    var g := n as real / p;
    assert g * p == n as real;
    assert (g - x) * p == n as real - x * p;
    if g >= x {
      assert Abs(g - x) * p == n as real - x * p;
    } else {
      assert Abs(g - x) * p == x * p - n as real;
    }
    if x >= 0.0 {
      assert Abs(x) * p == x * p;
    } else {
      assert Abs(x) * p == -(x * p);
      assert x * p <= 0.0;
    }
  }

  lemma HalfStep(near: real, far: real, p: real)
    requires near <= far && p > 0.0 && far * p * 2.0 <= 1.0
    ensures near * p * 2.0 <= 1.0
  {
    assert near * p <= far * p;
  }

  lemma BoundedByMantissa(n: int, bound: real)
    requires Abs(n as real) <= bound + 1.0 && bound <= (MANTISSA - 2) as real
    ensures -MANTISSA < n < MANTISSA
  {
  }

  lemma GridPointNear(f: Format, x: real, k: nat) returns (z: real)
    requires Fine(f) && k <= 1074 && Abs(x) * Pow2(k) as real <= (MANTISSA - 2) as real
    ensures z in f && Abs(z - x) * Pow2(k) as real * 2.0 <= 1.0
  {
    var p := Pow2(k) as real;
    var n := NearestGridPoint(x, p);
    assert -MANTISSA < n < MANTISSA by {
      BoundedByMantissa(n, Abs(x) * p);
    }
    z := n as real / p;
    assert z == Grid(n, k);
  }

  /** While 2^k times the number fits in the mantissa, rounding moves it by at most half a grid step. */
  lemma RoundingMovesLittle(f: Format, x: real, y: real, k: nat)
    requires Fine(f) && Rounds(f, x, y) && k <= 1074
    requires Abs(x) * Pow2(k) as real <= (MANTISSA - 2) as real
    ensures Abs(y - x) * Pow2(k) as real * 2.0 <= 1.0
  {
    var z := GridPointNear(f, x, k);
    assert Abs(y - x) <= Abs(z - x);
    HalfStep(Abs(y - x), Abs(z - x), Pow2(k) as real);
  }

  // ----- every real has a nearest number -----

  /** Distance in units of the finest binary64 grid. */
  ghost function Units(x: real): real {
    x * Pow2(1074) as real
  }

  lemma UnitsSubtract(x: real, y: real)
    ensures Units(x - y) == Units(x) - Units(y)
    ensures x < y ==> Units(x) < Units(y)
  {
    var p := Pow2(1074) as real;
    assert p > 0.0;
    assert (x - y) * p == x * p - y * p;
    if x < y {
      assert (y - x) * p > 0.0;
    }
  }

  ghost predicate IsUnits(x: real, n: int) {
    Units(x) == n as real
  }

  ghost predicate OnGrid(x: real) {
    exists n: int :: IsUnits(x, n)
  }

  /** Every number is a whole number of units. */
  ghost predicate Discrete(f: Format) {
    forall x :: x in f ==> OnGrid(x)
  }

  lemma ProductAsReal(a: int, b: int)
    ensures (a * b) as real == a as real * b as real
  {
  }

  lemma WholeIsOnGrid(x: real, n: int)
    requires x == n as real
    ensures OnGrid(x)
  {
    ProductAsReal(n, Pow2(1074));
    assert IsUnits(x, n * Pow2(1074));
  }

  lemma FractionTimes(x: real, m: int, q: int, r: int)
    requires x * q as real == m as real
    ensures x * (q * r) as real == (m * r) as real
  {
    ProductAsReal(q, r);
    ProductAsReal(m, r);
    assert x * (q as real * r as real) == (x * q as real) * r as real;
  }

  lemma FractionIsOnGrid(x: real, m: int, k: nat)
    requires k <= 1074 && x * Pow2(k) as real == m as real
    ensures OnGrid(x)
  {
    Pow2Adds(k, 1074 - k);
    FractionTimes(x, m, Pow2(k), Pow2(1074 - k));
    assert IsUnits(x, m * Pow2(1074 - k));
  }

  lemma ScaledIsOnGrid(x: real, m: int, k: int)
    requires -1074 <= k && IsScaled(x, m, k)
    ensures OnGrid(x)
  {
    if k >= 0 {
      WholeIsOnGrid(x, m * Pow2(k));
    } else {
      FractionIsOnGrid(x, m, -k);
    }
  }

  lemma Binary64IsDiscrete()
    ensures Discrete(Binary64Numbers())
  {
    forall x | x in Binary64Numbers() ensures OnGrid(x) {
      var m, k :| -MANTISSA < m < MANTISSA && -1074 <= k <= 971 && IsScaled(x, m, k);
      ScaledIsOnGrid(x, m, k);
    }
  }

  /** The largest number of the format that is not above `x`. */
  ghost predicate IsFloor(f: Format, x: real, y: real) {
    y in f && y <= x && forall z :: z in f && z <= x ==> z <= y
  }

  /** A larger number below `x` is at least one unit closer. */
  lemma CloserByOneUnit(f: Format, x: real, y: real, z: real)
    requires Discrete(f) && y in f && z in f && y < z <= x
    ensures 0 <= Units(x - z).Floor < Units(x - y).Floor
  {
    assert OnGrid(y) && OnGrid(z);
    UnitsSubtract(x, y);
    UnitsSubtract(x, z);
    UnitsSubtract(y, z);
    UnitsSubtract(z, x);
    UnitsSubtract(x, x);
    var n: int :| IsUnits(y, n);
    var m: int :| IsUnits(z, m);
    assert m >= n + 1;
    assert Units(x - z) <= Units(x - y) - 1.0;
  }

  lemma {:induction false} FloorExists(f: Format, x: real, y: real)
    requires Discrete(f) && y in f && y <= x
    ensures exists z :: IsFloor(f, x, z)
    decreases Units(x - y).Floor
  {
    if exists z :: z in f && y < z <= x {
      var z :| z in f && y < z <= x;
      CloserByOneUnit(f, x, y, z);
      FloorExists(f, x, z);
    } else {
      assert IsFloor(f, x, y);
    }
  }

  /** The smallest number of the format that is not below `x`. */
  ghost predicate IsCeiling(f: Format, x: real, y: real) {
    y in f && x <= y && forall z :: z in f && x <= z ==> y <= z
  }

  lemma CeilingExists(f: Format, x: real, y: real)
    requires Discrete(f) && Symmetric(f) && y in f && x <= y
    ensures exists z :: IsCeiling(f, x, z)
  {
    assert Negated(y) in f;
    FloorExists(f, -x, -y);
    var w :| IsFloor(f, -x, w);
    assert Negated(w) in f;
    forall z | z in f && x <= z ensures -w <= z {
      assert Negated(z) in f;
    }
    assert IsCeiling(f, x, -w);
  }

  lemma NearestOfTwo(f: Format, x: real, lo: real, hi: real)
    requires IsFloor(f, x, lo) && IsCeiling(f, x, hi)
    ensures Rounds(f, x, lo) || Rounds(f, x, hi)
  {
  }

  lemma NearestExists(f: Format, x: real)
    requires Discrete(f) && IsFormat(f)
    ensures exists y :: Rounds(f, x, y)
  {
    HasIntegers(f, 0);
    if x >= 0.0 {
      NearestAboveZero(f, x);
    } else {
      NearestAboveZero(f, -x);
      var y :| Rounds(f, -x, y);
      RoundingIsOdd(f, -x, y);
      assert Rounds(f, x, -y);
    }
  }

  lemma NearestAboveZero(f: Format, x: real)
    requires Discrete(f) && IsFormat(f) && 0.0 in f && x >= 0.0
    ensures exists y :: Rounds(f, x, y)
  {
    FloorExists(f, x, 0.0);
    var lo :| IsFloor(f, x, lo);
    if exists z :: z in f && x <= z {
      var z :| z in f && x <= z;
      CeilingExists(f, x, z);
      var hi :| IsCeiling(f, x, hi);
      NearestOfTwo(f, x, lo, hi);
    } else {
      assert Rounds(f, x, lo);
    }
  }

  /** A fixed rounding: always to a nearest number, with whatever rule for ties. */
  ghost predicate IsCorrect(f: Format, round: real -> real) {
    forall x :: Rounds(f, x, round(x))
  }

  ghost function Nearest(f: Format, x: real): real
    requires Discrete(f) && IsFormat(f)
  {
    NearestExists(f, x);
    var y :| Rounds(f, x, y);
    y
  }

  lemma CorrectRoundingExists()
    ensures exists round :: IsCorrect(Binary64Numbers(), round)
  {
    var f := Binary64Numbers();
    Binary64IsFormat();
    Binary64IsDiscrete();
    var round := (x: real) => Nearest(f, x);
    assert IsCorrect(f, round);
  }
}
