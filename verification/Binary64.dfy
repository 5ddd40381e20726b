/** Correct rounding to 53 significant bits: what IEEE 754 requires of double arithmetic, short of
    overflow and underflow. How ties are broken is left open. */
module Binary64 {
  import opened FixedPoint

  function Pow2(e: int): (r: real)
    ensures r > 0.0
    decreases if e < 0 then -e else e
  {
    if e == 0 then 1.0 else if e > 0 then 2.0 * Pow2(e - 1) else Pow2(e + 1) / 2.0
  }

  lemma {:induction false} Pow2Doubles(e: int)
    ensures Pow2(e + 1) == 2.0 * Pow2(e)
  {
  }

  lemma {:induction false} Pow2Splits(e: int, k: nat)
    ensures Pow2(e + k) == Pow2(e) * Pow2(k)
    decreases k
  {
    if k > 0 {
      Pow2Splits(e, k - 1);
      Pow2Doubles(e + k - 1);
    }
  }

  lemma {:induction false} Pow2Grows(d: int, e: int)
    requires d <= e
    ensures Pow2(d) <= Pow2(e)
    decreases e - d
  {
    if d < e {
      Pow2Doubles(e - 1);
      Pow2Grows(d, e - 1);
    }
  }

  /** `e` is the exponent of `x`. */
  predicate Binade(x: real, e: int) {
    Pow2(e) <= Abs(x) < Pow2(e + 1)
  }

  function Multiple(n: int, unit: real): real {
    n as real * unit
  }

  predicate OnGrid(r: real, x: real, e: int, n: int) {
    r == Multiple(n, Pow2(e - 52)) && -Pow2(e - 53) <= r - x <= Pow2(e - 53)
  }

  /** A nearest number with 53 significant bits, for an `x` of exponent `e`. */
  ghost predicate Nearest(r: real, x: real, e: int) {
    exists n: int :: OnGrid(r, x, e, n)
  }

  ghost predicate CorrectlyRounded(round: real -> real) {
    round(0.0) == 0.0 && forall x, e :: Binade(x, e) ==> Nearest(round(x), x, e)
  }

  // ---- every number has an exponent, and only one --------------------------------------------

  lemma HalfIsLess(y: real)
    requires y >= 1.0
    ensures 0 <= (y / 2.0).Floor < y.Floor
  {
  }

  lemma InverseHalves(x: real)
    requires 0.0 < x < 1.0
    ensures 1.0 / x > 1.0 && 1.0 / (2.0 * x) == (1.0 / x) / 2.0
  {
    var y := 1.0 / x;
    assert x * y == 1.0 && y > 0.0;
    assert (1.0 - x) * y > 0.0;
    var z := 1.0 / (2.0 * x);
    assert x * (2.0 * z - y) == 0.0;
  }

  function ExponentOf(x: real): (e: int)
    requires x > 0.0
    ensures Binade(x, e)
    decreases x < 1.0, if x >= 1.0 then x.Floor else (1.0 / x).Floor
  {
    if x >= 2.0 then
      HalfIsLess(x);
      var e := ExponentOf(x / 2.0) + 1;
      Pow2Doubles(e - 1);
      Pow2Doubles(e);
      e
    else if x >= 1.0 then
      0
    else
      InverseHalves(x);
      HalfIsLess(1.0 / x);
      var e := ExponentOf(2.0 * x) - 1;
      Pow2Doubles(e);
      Pow2Doubles(e + 1);
      e
  }

  lemma ExponentUnique(x: real, d: int, e: int)
    requires Binade(x, d) && Binade(x, e)
    ensures d == e
  {
    if d < e {
      Pow2Grows(d + 1, e);
    } else if e < d {
      Pow2Grows(e + 1, d);
    }
  }

  lemma ProductOfPowers(e: nat, k: nat, a: real, b: real)
    requires Pow2(e) == a && Pow2(k) == b
    ensures Pow2(e + k) == a * b
  {
    Pow2Splits(e, k);
  }

  lemma TwoTo53()
    ensures Pow2(53) == TWO_53
  {
    assert Pow2(1) == 2.0;
    ProductOfPowers(1, 1, 2.0, 2.0);
    ProductOfPowers(2, 2, 4.0, 4.0);
    ProductOfPowers(4, 4, 16.0, 16.0);
    ProductOfPowers(8, 8, 256.0, 256.0);
    ProductOfPowers(16, 16, 65536.0, 65536.0);
    ProductOfPowers(32, 16, 4294967296.0, 65536.0);
    ProductOfPowers(48, 4, 281474976710656.0, 16.0);
    ProductOfPowers(52, 1, 4503599627370496.0, 2.0);
  }

  lemma HalfUnit(e: int)
    ensures TWO_53 * Pow2(e - 53) == Pow2(e)
  {
    Pow2Splits(e - 53, 53);
    TwoTo53();
  }

  /** Correct rounding keeps the relative error within 2^-53. */
  lemma CorrectlyRoundedIsWithin(round: real -> real, x: real)
    requires CorrectlyRounded(round)
    ensures RoundedWithin(round, x)
  {
    if x != 0.0 {
      var e := ExponentOf(Abs(x));
      assert Binade(x, e);
      var n :| OnGrid(round(x), x, e, n);
      HalfUnit(e);
    }
  }

  function GridIndex(x: real, unit: real): int
    requires unit > 0.0
  {
    (x / unit + 0.5).Floor
  }

  function RoundTo(x: real, unit: real): real
    requires unit > 0.0
  {
    Multiple(GridIndex(x, unit), unit)
  }

  /** There is such a rounding. */
  function Double(x: real): real {
    if x == 0.0 then 0.0 else RoundTo(x, Pow2(ExponentOf(Abs(x)) - 52))
  }

  lemma Scaled(unit: real, d: real)
    requires unit > 0.0 && -0.5 <= d <= 0.5
    ensures -unit <= 2.0 * (d * unit) <= unit
  {
    assert (0.5 - d) * unit >= 0.0 && (0.5 + d) * unit >= 0.0;
  }

  lemma RoundToIsNear(x: real, unit: real)
    requires unit > 0.0
    ensures -unit <= 2.0 * (RoundTo(x, unit) - x) <= unit
  {
    var q, n := x / unit, GridIndex(x, unit) as real;
    assert q * unit == x;
    assert (n - q) * unit == n * unit - q * unit;
    Scaled(unit, n - q);
  }

  lemma DoubleOfExponent(x: real, e: int)
    requires Binade(x, e)
    ensures Double(x) == RoundTo(x, Pow2(e - 52))
  {
    ExponentUnique(Abs(x), e, ExponentOf(Abs(x)));
  }

  lemma DoubleOnGrid(x: real, e: int)
    requires Binade(x, e)
    ensures OnGrid(Double(x), x, e, GridIndex(x, Pow2(e - 52)))
  {
    DoubleOfExponent(x, e);
    RoundToIsNear(x, Pow2(e - 52));
    Pow2Doubles(e - 53);
  }

  lemma DoubleIsCorrectlyRounded()
    ensures CorrectlyRounded((x: real) => Double(x))
  {
    forall x, e | Binade(x, e)
      ensures Nearest(Double(x), x, e)
    {
      DoubleOnGrid(x, e);
    }
  }

  // ---- what single numbers round to ----------------------------------------------------------

  lemma InversePower(k: nat, a: real)
    requires Pow2(k) == a
    ensures Pow2(0 - k) == 1.0 / a
  {
    Pow2Splits(0 - k, k);
    assert Pow2(0 - k) * a / a == Pow2(0 - k);
  }

  lemma SameMultiple(n: int, n': int, unit: real)
    requires unit > 0.0 && -unit < Multiple(n', unit) - Multiple(n, unit) < unit
    ensures n' == n
  {
    var d := (n' - n) as real;
    assert Multiple(n', unit) - Multiple(n, unit) == d * unit;
    assert d >= 1.0 ==> (d - 1.0) * unit >= 0.0;
    assert d <= -1.0 ==> (-d - 1.0) * unit >= 0.0;
  }

  /** A number less than half a unit away from a grid point rounds to it. */
  lemma RoundsToGrid(round: real -> real, x: real, e: int, unit: real, n: int)
    requires CorrectlyRounded(round) && Binade(x, e) && unit == Pow2(e - 52)
    requires -unit < 2.0 * (Multiple(n, unit) - x) < unit
    ensures round(x) == Multiple(n, unit)
  {
    var n' :| OnGrid(round(x), x, e, n');
    Pow2Doubles(e - 53);
    SameMultiple(n, n', unit);
  }

  lemma SmallPowers()
    ensures Pow2(0) == 1.0 && Pow2(1) == 2.0 && Pow2(3) == 8.0 && Pow2(4) == 16.0
    ensures Pow2(6) == 64.0 && Pow2(7) == 128.0
    ensures Pow2(49) == 562949953421312.0
    ensures Pow2(52) == 4503599627370496.0
    ensures Pow2(59) == 576460752303423488.0
  {
    assert Pow2(1) == 2.0;
    assert Pow2(2) == 4.0;
    assert Pow2(3) == 8.0;
    ProductOfPowers(2, 2, 4.0, 4.0);
    ProductOfPowers(3, 3, 8.0, 8.0);
    ProductOfPowers(6, 1, 64.0, 2.0);
    ProductOfPowers(7, 7, 128.0, 128.0);
    ProductOfPowers(14, 14, 16384.0, 16384.0);
    ProductOfPowers(28, 14, 268435456.0, 16384.0);
    ProductOfPowers(42, 7, 4398046511104.0, 128.0);
    ProductOfPowers(49, 3, 562949953421312.0, 8.0);
    ProductOfPowers(52, 7, 4503599627370496.0, 128.0);
  }

  lemma SmallFractions()
    ensures Pow2(-7) == 1.0 / 128.0 && Pow2(-6) == 1.0 / 64.0
    ensures Pow2(-49) == 1.0 / 562949953421312.0
    ensures Pow2(-52) == 1.0 / 4503599627370496.0
    ensures Pow2(-59) == 1.0 / 576460752303423488.0
  {
    SmallPowers();
    InversePower(6, 64.0);
    InversePower(7, 128.0);
    InversePower(49, 562949953421312.0);
    InversePower(52, 4503599627370496.0);
    InversePower(59, 576460752303423488.0);
  }

  const UNIT_59: real := 1.0 / 576460752303423488.0

  /** Doubles of the four amounts that the comparison of 10.01 with 10.00 and of 1.01 with 1.00 needs. */
  lemma AmountsRound(round: real -> real)
    requires CorrectlyRounded(round)
    ensures round(0.01) == 5764607523034235.0 * UNIT_59
    ensures round(10.0) == 10.0 && round(1.0) == 1.0
    ensures round(10.01) == 10.0 + 5764607523034112.0 * UNIT_59
    ensures round(1.01) == 1.0 + 5764607523034240.0 * UNIT_59
  {
    SmallPowers();
    SmallFractions();
    RoundsToGrid(round, 0.01, -7, Pow2(-59), 5764607523034235);
    RoundsToGrid(round, 10.0, 3, Pow2(-49), 5629499534213120);
    RoundsToGrid(round, 1.0, 0, Pow2(-52), 4503599627370496);
    RoundsToGrid(round, 10.01, 3, Pow2(-49), 5635129033747333);
    RoundsToGrid(round, 1.01, 0, Pow2(-52), 4548635623644201);
  }

  /** Their differences are doubles already. */
  lemma DifferencesRound(round: real -> real)
    requires CorrectlyRounded(round)
    ensures round(5764607523034112.0 * UNIT_59) == 5764607523034112.0 * UNIT_59
    ensures round(5764607523034240.0 * UNIT_59) == 5764607523034240.0 * UNIT_59
  {
    SmallPowers();
    SmallFractions();
    RoundsToGrid(round, 5764607523034112.0 * UNIT_59, -7, Pow2(-59), 5764607523034112);
    RoundsToGrid(round, 5764607523034240.0 * UNIT_59, -7, Pow2(-59), 5764607523034240);
  }
}
