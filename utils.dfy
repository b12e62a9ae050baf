/**
  The tracker's numeric helpers: the test that decides whether two
  positions differ enough to count as a move, and rounding to a number of
  decimal places towards positive infinity.
*/
module Utils {
  import opened JavaLang
  import opened Nmea

  function Abs(x: real): (r: real)
    ensures r >= 0.0 && (r == x || r == -x)
  {
    if x < 0.0 then -x else x
  }

  /** The smallest change of latitude or longitude, in degrees, that counts as a move. */
  const Threshold: real := 0.001

  /**
    Whether two positions differ by at least the threshold in latitude or
    in longitude: a difference of degrees on each axis, not a distance.
  */
  predicate AreLocationsDifferent(a: Fix, b: Fix) {
    Abs(a.lat - b.lat) >= Threshold || Abs(a.lon - b.lon) >= Threshold
  }

  /** No position differs from itself. */
  lemma NotDifferentFromItself(a: Fix)
    ensures !AreLocationsDifferent(a, a)
  {
  }

  lemma DifferentIsSymmetric(a: Fix, b: Fix)
    ensures AreLocationsDifferent(a, b) == AreLocationsDifferent(b, a)
  {
  }

  /** Only latitude and longitude take part: time, fix, quality, course, altitude and speed do not. */
  lemma DifferentReadsOnlyCoordinates(a: Fix, b: Fix, a2: Fix, b2: Fix)
    requires a.lat == a2.lat && a.lon == a2.lon && b.lat == b2.lat && b.lon == b2.lon
    ensures AreLocationsDifferent(a, b) == AreLocationsDifferent(a2, b2)
  {
  }

  /** Small moves do not add up: two steps below the threshold can together reach it. */
  lemma DifferentIsNotTransitive()
    ensures var a, b, c := Unset.(lat := 0.0), Unset.(lat := 0.0006), Unset.(lat := 0.0012);
      !AreLocationsDifferent(a, b) && !AreLocationsDifferent(b, c) && AreLocationsDifferent(a, c)
  {
  }

  // ---------------------------------------------------------------------
  // Rounding

  /** 10 raised to an integer power. */
  function Scale(e: int): (r: real)
    ensures r > 0.0
    decreases if e < 0 then -e else e
  {
    if e == 0 then 1.0
    else if e > 0 then 10.0 * Scale(e - 1)
    else Scale(e + 1) / 10.0
  }

  /** The least integer not below x. */
  function Ceil(x: real): (n: int)
    ensures x <= n as real < x + 1.0
  {
    -((-x).Floor)
  }

  predicate IsWhole(x: real) {
    x.Floor as real == x
  }

  /** Whether r is a whole multiple of 10 to the power -precision. */
  predicate IsMultiple(r: real, precision: int) {
    IsWhole(r * Scale(precision))
  }

  /** v rounded up to a whole multiple of 1/s. */
  function CeilingTo(v: real, s: real): (r: real)
    requires s > 0.0
    ensures v <= r < v + 1.0 / s
  {
    var n := Ceil(v * s) as real;
    assert n / s == v + (n - v * s) / s;
    assert 0.0 <= (n - v * s) / s;
    n / s
  }

  lemma CeilingToIsWhole(v: real, s: real)
    requires s > 0.0
    ensures IsWhole(CeilingTo(v, s) * s)
  {
    DivTimes(Ceil(v * s), s);
    WholeOfInt(CeilingTo(v, s) * s, Ceil(v * s));
  }

  /** Rounding up to a whole multiple of 1/s never passes a multiple above v. */
  lemma CeilingToIsLeast(v: real, m: real, s: real)
    requires s > 0.0 && v <= m && IsWhole(m * s)
    ensures CeilingTo(v, s) <= m
  {
    var k := (m * s).Floor;
    assert v * s <= m * s;
    assert Ceil(v * s) <= k;
    assert Ceil(v * s) as real / s <= k as real / s;
    assert m * s / s == m;
  }

  lemma DivTimes(n: int, s: real)
    requires s > 0.0
    ensures n as real / s * s == n as real
  {
  }

  lemma WholeOfInt(x: real, n: int)
    requires x == n as real
    ensures IsWhole(x)
  {
  }

  /**
    round(value, precision): value set to precision decimal places with
    the CEILING rounding mode. The result is never below value and less
    than one step of 10 to the power -precision above it; the lemmas
    below show it is a whole number of steps and the least such number.
  */
  function Round(value: real, precision: int): (r: real)
    ensures value <= r < value + 1.0 / Scale(precision)
  {
    CeilingTo(value, Scale(precision))
  }

  /** round(value): six decimal places. */
  function RoundDefault(value: real): (r: real)
    ensures value <= r < value + 0.000001
  {
    assert Scale(6) == 1000000.0;
    Round(value, 6)
  }

  /** The result has at most precision decimal places. */
  lemma RoundIsMultiple(value: real, precision: int)
    ensures IsMultiple(Round(value, precision), precision)
  {
    CeilingToIsMultiple(value, precision);
    MultipleOfEqual(CeilingTo(value, Scale(precision)), Round(value, precision), precision);
  }

  /** Rounding up to a whole multiple of 10 to the power -precision gives such a multiple. */
  lemma CeilingToIsMultiple(value: real, precision: int)
    ensures IsMultiple(CeilingTo(value, Scale(precision)), precision)
  {
    CeilingToIsWhole(value, Scale(precision));
  }

  /** Being a multiple carries over to an equal number. */
  lemma MultipleOfEqual(x: real, y: real, precision: int)
    requires IsMultiple(x, precision) && x == y
    ensures IsMultiple(y, precision)
  {
  }

  /** No multiple of the step lies between value and its rounding. */
  lemma RoundIsLeast(value: real, precision: int, m: real)
    requires IsMultiple(m, precision) && value <= m
    ensures Round(value, precision) <= m
  {
    CeilingToIsLeast(value, m, Scale(precision));
  }

  /** A value that already has at most precision decimal places is left as it is. */
  lemma RoundKeepsMultiples(m: real, precision: int)
    requires IsMultiple(m, precision)
    ensures Round(m, precision) == m
  {
    RoundIsLeast(m, precision, m);
  }

  /** Rounding a value that is already rounded changes nothing. */
  lemma RoundIdempotent(value: real, precision: int)
    ensures Round(Round(value, precision), precision) == Round(value, precision)
  {
    RoundIsMultiple(value, precision);
    RoundKeepsMultiples(Round(value, precision), precision);
  }
}
