/** Conversion between fen and yuan: a fen amount survives the trip through a binary64 yuan amount. */
module Coin {
  import opened Binary64

  function Pow10(k: nat): (r: int)
    ensures r > 0
  {
    if k == 0 then 1 else 10 * Pow10(k - 1)
  }

  lemma {:induction false} Pow10Grows(a: nat, b: nat)
    requires a <= b
    ensures Pow10(a) <= Pow10(b)
    decreases b
  {
    if a == b {
    } else {
      Pow10Grows(a, b - 1);
    }
  }

  /** `coefficient` times ten to `exponent`. */
  datatype Decimal = Decimal(coefficient: int, exponent: int) {
    function Value(): real {
      if exponent >= 0 then (coefficient * Pow10(exponent)) as real
      else coefficient as real / Pow10(-exponent) as real
    }

    predicate FitsDigits(n: nat) {
      -Pow10(n) < coefficient < Pow10(n)
    }
  }

  /** `d` reads back as `y`, and no decimal that does has fewer digits. */
  ghost predicate IsShortest(round: real -> real, y: real, d: Decimal) {
    && round(d.Value()) == y
    && forall other: Decimal, n: nat :: round(other.Value()) == y && other.FitsDigits(n) ==> d.FitsDigits(n)
  }

  /** Division by one hundred is exact at two decimals, so only the conversion to a float rounds. */
  ghost function Fen2Yuan(round: real -> real, fen: int): real {
    round(fen as real / 100.0)
  }

  /** Shortest decimal of the float, times one hundred, truncated, converted to a float and to an integer. */
  ghost predicate IsYuan2Fen(round: real -> real, yuan: real, fen: int) {
    exists d :: IsShortest(round, yuan, d) && fen == Cents(round, d)
  }

  ghost function Cents(round: real -> real, d: Decimal): int {
    Truncate(round(Truncate(d.Value() * 100.0) as real))
  }

  lemma Pow2Values()
    ensures Pow2(9) == 512 && Pow2(20) == 1_048_576
  {
    assert Pow2(3) == 8;
    Pow2Adds(3, 3);
    Pow2Adds(6, 3);
    assert Pow2(1) == 2;
    Pow2Adds(9, 9);
    Pow2Adds(18, 1);
    Pow2Adds(19, 1);
  }

  /** Whatever reads back as a float below 10^13 is itself not far above it. */
  lemma PreimageIsBounded(f: Format, x: real, y: real, bound: int)
    requires Fine(f) && Rounds(f, x, y) && 0 <= bound < MANTISSA - 1
    requires -(bound as real) <= y <= bound as real
    ensures -((bound + 1) as real) <= x <= (bound + 1) as real
  {
    HasIntegers(f, bound + 1);
    HasIntegers(f, -(bound + 1));
    RoundingKeepsSide(f, x, y, (bound + 1) as real);
    RoundingKeepsSide(f, x, y, (-(bound + 1)) as real);
  }

  lemma RoundsWithin512th(f: Format, x: real, y: real)
    requires Fine(f) && Rounds(f, x, y) && Abs(x) <= 10000000000002.0
    ensures Abs(y - x) <= 1.0 / 1024.0
  {
    Pow2Values();
    RoundingMovesLittle(f, x, y, 9);
  }

  lemma SmallRoundsCloser(f: Format, x: real, y: real)
    requires Fine(f) && Rounds(f, x, y) && Abs(x) <= 1.0
    ensures Abs(y - x) <= 1.0 / 2097152.0
  {
    Pow2Values();
    RoundingMovesLittle(f, x, y, 20);
  }

  lemma SameFloatIsClose(f: Format, x: real, x': real, y: real)
    requires Fine(f) && Rounds(f, x, y) && Rounds(f, x', y)
    requires Abs(x) <= 10000000000000.0
    ensures Abs(x' - x) <= 1.0 / 512.0
    ensures Abs(x) <= 0.5 && Abs(x') <= 0.5 ==> Abs(x' - x) <= 1.0 / 1048576.0
  {
    RoundsWithin512th(f, x, y);
    PreimageIsBounded(f, x', y, 10_000_000_000_001);
    RoundsWithin512th(f, x', y);
    if Abs(x) <= 0.5 && Abs(x') <= 0.5 {
      SmallRoundsCloser(f, x, y);
      SmallRoundsCloser(f, x', y);
    }
  }

  // ----- the shortest decimal is the original -----

  /** A decimal with at most two fractional digits is a whole number of hundredths. */
  lemma CoarseIsHundredths(d: Decimal) returns (m: int)
    requires d.exponent >= -2
    ensures d.Value() * 100.0 == m as real
  {
    if d.exponent >= 0 {
      m := d.coefficient * Pow10(d.exponent) * 100;
    } else if d.exponent == -1 {
      assert Pow10(1) == 10;
      m := d.coefficient * 10;
    } else {
      assert Pow10(2) == 100;
      m := d.coefficient;
    }
  }

  lemma QuotientShrinks(c: int, p: int)
    requires p >= 1000
    ensures Abs(c as real / p as real) * 1000.0 <= Abs(c as real)
  {
    var v := c as real / p as real;
    assert v * p as real == c as real;
    if c >= 0 {
      assert v >= 0.0;
      assert v * 1000.0 <= v * p as real;
    } else {
      assert v <= 0.0;
      assert v * 1000.0 >= v * p as real;
    }
  }

  /** A decimal with three or more fractional digits is at most its coefficient in thousandths. */
  lemma FineIsSmall(d: Decimal)
    requires d.exponent <= -3
    ensures Abs(d.Value()) * 1000.0 <= Abs(d.coefficient as real)
  {
    assert Pow10(3) == 1000;
    Pow10Grows(3, -d.exponent);
    QuotientShrinks(d.coefficient, Pow10(-d.exponent));
  }

  lemma {:induction false} DigitCount(x: int) returns (n: nat)
    requires x != 0
    ensures Pow10(n) <= Magnitude(x) < Pow10(n + 1)
    decreases Magnitude(x)
  {
    if Magnitude(x) < 10 {
      n := 0;
    } else {
      var m := DigitCount(Magnitude(x) / 10);
      n := m + 1;
    }
  }

  function Magnitude(x: int): nat {
    if x < 0 then -x else x
  }

  /** The fen amount itself, in hundredths. */
  lemma OwnDecimal(round: real -> real, fen: int, d: Decimal, n: nat)
    requires IsShortest(round, Fen2Yuan(round, fen), d) && Decimal(fen, -2).FitsDigits(n)
    ensures d.FitsDigits(n)
  {
    assert Pow10(2) == 100;
    assert Decimal(fen, -2).Value() == fen as real / 100.0;
  }

  /** Three or more fractional digits leave an amount of one digit only. */
  lemma FineIsPowerOfTen(f: Format, round: real -> real, fen: int, d: Decimal, n: nat)
    requires Fine(f) && IsCorrect(f, round) && Magnitude(fen) <= 1_000_000_000_000_000
    requires Pow10(n) <= Magnitude(fen) < Pow10(n + 1) && d.exponent <= -3
    requires IsShortest(round, Fen2Yuan(round, fen), d)
    ensures Magnitude(fen) == Pow10(n)
  {
    OwnDecimal(round, fen, d, n + 1);
    FineIsSmall(d);
    SameFloatIsClose(f, fen as real / 100.0, d.Value(), Fen2Yuan(round, fen));
    MustBePowerOfTen(fen, d.coefficient, d.Value(), Pow10(n));
  }

  lemma OneDigitIsSmall(c: int, v: real, fen: int)
    requires fen != 0 && Magnitude(c) < 10 && Abs(v) * 1000.0 <= Abs(c as real)
    requires Abs(v - fen as real / 100.0) <= 1.0 / 512.0
    ensures Magnitude(fen) < 2 && Abs(v) <= 0.5
  {
  }

  /** Three or more fractional digits need more digits than the fen amount has. */
  lemma ShortestIsCoarse(f: Format, round: real -> real, fen: int, d: Decimal)
    requires Fine(f) && IsCorrect(f, round) && fen != 0 && Magnitude(fen) <= 1_000_000_000_000_000
    requires IsShortest(round, Fen2Yuan(round, fen), d)
    ensures d.exponent >= -2
  {
    if d.exponent <= -3 {
      var n := DigitCount(fen);
      FineIsPowerOfTen(f, round, fen, d, n);
      OneDigitIsShortest(round, fen, d, n);
      FineIsSmall(d);
      SameFloatIsClose(f, fen as real / 100.0, d.Value(), Fen2Yuan(round, fen));
      OneDigitIsSmall(d.coefficient, d.Value(), fen);
    }
  }

  /** Between the largest short thousandth and the fen amount there is no room, unless it is a power of ten. */
  lemma MustBePowerOfTen(fen: int, c: int, v: real, p: int)
    requires p <= Magnitude(fen) && Magnitude(c) < 10 * p
    requires Abs(v) * 1000.0 <= Abs(c as real)
    requires Abs(v - fen as real / 100.0) <= 1.0 / 512.0
    ensures Magnitude(fen) == p
  {
  }

  lemma OneDigitIsShortest(round: real -> real, fen: int, d: Decimal, n: nat)
    requires IsShortest(round, Fen2Yuan(round, fen), d) && Magnitude(fen) == Pow10(n)
    ensures Magnitude(d.coefficient) < 10
  {
    var one := Decimal(if fen > 0 then 1 else -1, n - 2);
    if n >= 2 {
      assert Pow10(n) == 100 * Pow10(n - 2);
    } else if n == 1 {
      assert Pow10(1) == 10;
    } else {
      assert Pow10(2) == 100;
    }
    assert one.Value() == fen as real / 100.0;
    assert Pow10(1) == 10;
    assert one.FitsDigits(1);
    assert d.FitsDigits(1);
  }

  /** Whatever rule breaks ties: up to 10^15 fen, the shortest decimal of the yuan float is the amount itself. */
  lemma ShortestIsOriginal(f: Format, round: real -> real, fen: int, d: Decimal)
    requires Fine(f) && IsCorrect(f, round) && Magnitude(fen) <= 1_000_000_000_000_000
    requires IsShortest(round, Fen2Yuan(round, fen), d)
    ensures d.Value() * 100.0 == fen as real
  {
    if fen == 0 {
      var zero := Decimal(0, 0);
      assert zero.Value() == fen as real / 100.0 && zero.FitsDigits(0);
      assert d.FitsDigits(0);
      assert d.coefficient == 0;
    } else {
      ShortestIsCoarse(f, round, fen, d);
      var m := CoarseIsHundredths(d);
      SameFloatIsClose(f, fen as real / 100.0, d.Value(), Fen2Yuan(round, fen));
      assert m == fen;
    }
  }

  lemma CentsAreOriginal(f: Format, round: real -> real, fen: int, d: Decimal)
    requires Fine(f) && IsCorrect(f, round) && Magnitude(fen) <= 1_000_000_000_000_000
    requires d.Value() * 100.0 == fen as real
    ensures Cents(round, d) == fen
  {
    assert Truncate(fen as real) == fen;
    IntegerRoundsToItself(f, fen, round(fen as real));
  }

  /** Up to 10^15 fen, the conversion to yuan and back is the identity, whatever rule breaks ties. */
  lemma RoundTrip(round: real -> real, fen: int, back: int)
    requires IsCorrect(Binary64Numbers(), round) && Magnitude(fen) <= 1_000_000_000_000_000
    requires IsYuan2Fen(round, Fen2Yuan(round, fen), back)
    ensures back == fen
  {
    Binary64IsFormat();
    var d :| IsShortest(round, Fen2Yuan(round, fen), d) && back == Cents(round, d);
    ShortestIsOriginal(Binary64Numbers(), round, fen, d);
    CentsAreOriginal(Binary64Numbers(), round, fen, d);
  }

  lemma TruncateDropsFraction(x: real)
    ensures Abs(Truncate(x) as real) <= Abs(x) < Abs(Truncate(x) as real) + 1.0
    ensures if x < 0.0 then Truncate(x) <= 0 else Truncate(x) >= 0
  {
  }

  /** Any yuan amount below 2^53 fen converts to its hundredths with the rest dropped, towards zero. */
  lemma Yuan2FenTruncates(round: real -> real, yuan: real, d: Decimal)
    requires IsCorrect(Binary64Numbers(), round) && IsShortest(round, yuan, d)
    requires Abs(d.Value() * 100.0) < 9_007_199_254_740_992.0
    ensures IsYuan2Fen(round, yuan, Cents(round, d))
    ensures var fen := Cents(round, d) as real;
      Abs(fen) <= Abs(d.Value() * 100.0) < Abs(fen) + 1.0 && (if d.Value() < 0.0 then fen <= 0.0 else fen >= 0.0)
  {
    var x := d.Value() * 100.0;
    var fen := Truncate(x);
    TruncateDropsFraction(x);
    Binary64IsFormat();
    IntegerRoundsToItself(Binary64Numbers(), fen, round(fen as real));
    TruncateDropsFraction(fen as real);
    assert Cents(round, d) == fen;
  }

  // ----- the conversions do evaluate -----

  /** Some decimal that reads back as `y` has at most `n` digits. */
  ghost predicate ReadsBackIn(round: real -> real, y: real, n: nat) {
    exists d: Decimal :: round(d.Value()) == y && d.FitsDigits(n)
  }

  lemma MoreDigitsFit(d: Decimal, n: nat, k: nat)
    requires d.FitsDigits(n) && n <= k
    ensures d.FitsDigits(k)
  {
    Pow10Grows(n, k);
  }

  lemma NoneShorter(round: real -> real, y: real, d: Decimal, n: nat)
    requires round(d.Value()) == y && d.FitsDigits(n)
    requires n > 0 ==> !ReadsBackIn(round, y, n - 1)
    ensures IsShortest(round, y, d)
  {
    forall other: Decimal, k: nat | round(other.Value()) == y && other.FitsDigits(k) ensures d.FitsDigits(k) {
      if k < n {
        MoreDigitsFit(other, k, n - 1);
      } else {
        MoreDigitsFit(d, n, k);
      }
    }
  }

  /** Among the decimals that read back as `y` there is one with fewest digits. */
  lemma {:induction false} ShortestExists(round: real -> real, y: real, d: Decimal, n: nat) returns (s: Decimal)
    requires round(d.Value()) == y && d.FitsDigits(n)
    ensures IsShortest(round, y, s)
    decreases n
  {
    if n > 0 && ReadsBackIn(round, y, n - 1) {
      var other: Decimal :| round(other.Value()) == y && other.FitsDigits(n - 1);
      s := ShortestExists(round, y, other, n - 1);
    } else {
      s := d;
      NoneShorter(round, y, d, n);
    }
  }

  /** Every fen amount up to 10^15 has a yuan float, and that float converts back to it. */
  lemma EveryFenConverts(round: real -> real, fen: int)
    requires IsCorrect(Binary64Numbers(), round) && Magnitude(fen) <= 1_000_000_000_000_000
    ensures IsYuan2Fen(round, Fen2Yuan(round, fen), fen)
  {
    var own := Decimal(fen, -2);
    var n := 0;
    if fen != 0 {
      n := DigitCount(fen);
    }
    assert Pow10(2) == 100;
    assert own.Value() == fen as real / 100.0 && own.FitsDigits(n + 1);
    var s := ShortestExists(round, Fen2Yuan(round, fen), own, n + 1);
    Binary64IsFormat();
    ShortestIsOriginal(Binary64Numbers(), round, fen, s);
    CentsAreOriginal(Binary64Numbers(), round, fen, s);
  }
}
