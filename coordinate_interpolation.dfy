/** Points along the path between two positions A and B given in degrees of
    latitude and longitude: the great-circle (haversine) distance between
    them, the number of points at a given spacing in metres, and the points
    themselves, evenly spaced in latitude and longitude from A to B. The
    points come out as (latitude, longitude) pairs. */
module CoordinateInterpolation {
  import opened Errors
  import opened Elementary
  import opened RealFacts

  // ---------------------------------------------------------------------
  // Distance
  // ---------------------------------------------------------------------

  /** The haversine of the central angle between A and B:
      sin^2(dlat / 2) + cos(lat_a) cos(lat_b) sin^2(dlon / 2), all angles in
      radians. */
  function HaversineHalfAngle(
    m: Functions, latitudePointA: real, longitudePointA: real,
    latitudePointB: real, longitudePointB: real): real
    requires Lawful(m)
  {
    var longitudeA := Radians(m, longitudePointA);
    var latitudeA := Radians(m, latitudePointA);
    var longitudeB := Radians(m, longitudePointB);
    var latitudeB := Radians(m, latitudePointB);
    var distanceLongitude := longitudeA - longitudeB;
    var distanceLatitude := latitudeA - latitudeB;
    var sinLatitude := m.sin(distanceLatitude / 2.0);
    var sinLongitude := m.sin(distanceLongitude / 2.0);
    sinLatitude * sinLatitude
      + m.cos(latitudeA) * m.cos(latitudeB) * (sinLongitude * sinLongitude)
  }

  /** CoordinateInterpolation.calculate_distance_km: 2 asin(sqrt(hav)) times
      the Earth radius of 6371 km. math.sqrt fails on a negative haversine
      and math.asin on a root above 1, both with a math domain error; any
      distance computed is non-negative. */
  function CalculateDistanceKm(
    m: Functions, latitudePointA: real, longitudePointA: real,
    latitudePointB: real, longitudePointB: real): (r: Result<real>)
    requires Lawful(m)
    ensures var haversine := HaversineHalfAngle(m, latitudePointA, longitudePointA, latitudePointB, longitudePointB);
      r.Err? <==> haversine < 0.0 || m.sqrt(haversine) > 1.0
    ensures r.Err? ==> r.error == MathDomainError
    ensures r.Ok? ==> r.value >= 0.0
  {
    var haversineHalfAngle := HaversineHalfAngle(m, latitudePointA, longitudePointA, latitudePointB, longitudePointB);
    if haversineHalfAngle < 0.0 then Err(MathDomainError)
    else
      var root := m.sqrt(haversineHalfAngle);
      if root > 1.0 then Err(MathDomainError)
      else
        var greatCircleAngularDistance := 2.0 * m.asin(root);
        var radiusEarth := 6371.0;
        Ok(greatCircleAngularDistance * radiusEarth)
  }

  /** The haversine term does not depend on the order of A and B. */
  lemma HaversineSymmetric(
    m: Functions, latitudePointA: real, longitudePointA: real,
    latitudePointB: real, longitudePointB: real)
    requires Lawful(m) && Symmetric(m)
    ensures HaversineHalfAngle(m, latitudePointA, longitudePointA, latitudePointB, longitudePointB)
         == HaversineHalfAngle(m, latitudePointB, longitudePointB, latitudePointA, longitudePointA)
  {
    var latitudeA := Radians(m, latitudePointA);
    var latitudeB := Radians(m, latitudePointB);
    var longitudeA := Radians(m, longitudePointA);
    var longitudeB := Radians(m, longitudePointB);
    var sinLatitude := m.sin((latitudeA - latitudeB) / 2.0);
    var sinLatitudeSwapped := m.sin((latitudeB - latitudeA) / 2.0);
    var sinLongitude := m.sin((longitudeA - longitudeB) / 2.0);
    var sinLongitudeSwapped := m.sin((longitudeB - longitudeA) / 2.0);
    assert sinLatitudeSwapped == -sinLatitude;
    assert sinLongitudeSwapped == -sinLongitude;
    SquareOfNegation(sinLatitude, sinLatitude, sinLatitudeSwapped, sinLatitudeSwapped);
    SquareOfNegation(sinLongitude, sinLongitude, sinLongitudeSwapped, sinLongitudeSwapped);
  }

  /** The distance from A to B is the distance from B to A. */
  lemma DistanceSymmetric(
    m: Functions, latitudePointA: real, longitudePointA: real,
    latitudePointB: real, longitudePointB: real)
    requires Lawful(m) && Symmetric(m)
    ensures CalculateDistanceKm(m, latitudePointA, longitudePointA, latitudePointB, longitudePointB)
         == CalculateDistanceKm(m, latitudePointB, longitudePointB, latitudePointA, longitudePointA)
  {
    HaversineSymmetric(m, latitudePointA, longitudePointA, latitudePointB, longitudePointB);
  }

  /** A point is at distance 0 from itself. */
  lemma DistanceZeroAtSamePoint(m: Functions, latitude: real, longitude: real)
    requires Lawful(m) && Symmetric(m)
    ensures CalculateDistanceKm(m, latitude, longitude, latitude, longitude) == Ok(0.0)
  {
    SinZero(m);
    assert HaversineHalfAngle(m, latitude, longitude, latitude, longitude) == 0.0;
    SqrtUnique(m, 0.0, 0.0);
  }

  // ---------------------------------------------------------------------
  // Number of points
  // ---------------------------------------------------------------------

  /** Python's round() on a float: the nearest integer, and on a tie (x
      exactly half-way between two integers) the even one. */
  function RoundHalfEven(x: real): (n: int)
    ensures -0.5 <= n as real - x <= 0.5
    ensures n as real - x == 0.5 || n as real - x == -0.5 ==> n % 2 == 0
  {
    var floor := x.Floor;
    var fraction := x - floor as real;
    if fraction < 0.5 then floor
    else if fraction > 0.5 then floor + 1
    else if floor % 2 == 0 then floor
    else floor + 1
  }

  /** The two properties in the contract of RoundHalfEven determine it: any
      integer within 1/2 of x that is even on a tie is RoundHalfEven(x). */
  lemma RoundHalfEvenUnique(x: real, k: int)
    requires -0.5 <= k as real - x <= 0.5
    requires k as real - x == 0.5 || k as real - x == -0.5 ==> k % 2 == 0
    ensures RoundHalfEven(x) == k
  {
    var n := RoundHalfEven(x);
    if n < k {
      assert false;
    } else if n > k {
      assert false;
    }
  }

  /** Rounding leaves an integer unchanged. */
  lemma RoundHalfEvenOfInteger(k: int)
    ensures RoundHalfEven(k as real) == k
  {
    RoundHalfEvenUnique(k as real, k);
  }

  /** CoordinateInterpolation.calculate_number_of_points: the distance in
      metres divided by the granularity, rounded half to even. A failure of
      the distance propagates; a granularity of 0 raises ZeroDivisionError.
      The count is the integer nearest to distance / granularity, the even
      one on a tie. */
  function CalculateNumberOfPoints(
    m: Functions, latitudePointA: real, longitudePointA: real,
    latitudePointB: real, longitudePointB: real, granularityMeters: real): (r: Result<int>)
    requires Lawful(m)
    ensures var distance := CalculateDistanceKm(m, latitudePointA, longitudePointA, latitudePointB, longitudePointB);
      && (distance.Err? ==> r == Err(distance.error))
      && (distance.Ok? && granularityMeters == 0.0 ==> r == Err(ZeroDivisionError))
      && (r.Ok? <==> distance.Ok? && granularityMeters != 0.0)
    ensures var distance := CalculateDistanceKm(m, latitudePointA, longitudePointA, latitudePointB, longitudePointB);
      r.Ok? ==>
        var exact := distance.value * 1000.0 / granularityMeters;
        && -0.5 <= r.value as real - exact <= 0.5
        && (r.value as real - exact == 0.5 || r.value as real - exact == -0.5 ==> r.value % 2 == 0)
  {
    match CalculateDistanceKm(m, latitudePointA, longitudePointA, latitudePointB, longitudePointB)
    case Err(e) => Err(e)
    case Ok(distanceKm) =>
      var distanceMeters := distanceKm * 1000.0;
      if granularityMeters == 0.0 then Err(ZeroDivisionError)
      else Ok(RoundHalfEven(distanceMeters / granularityMeters))
  }

  /** With a positive granularity the count is never negative. */
  lemma NumberOfPointsNonNegative(
    m: Functions, latitudePointA: real, longitudePointA: real,
    latitudePointB: real, longitudePointB: real, granularityMeters: real)
    requires Lawful(m)
    requires granularityMeters > 0.0
    ensures var count := CalculateNumberOfPoints(m, latitudePointA, longitudePointA, latitudePointB, longitudePointB, granularityMeters);
      count.Ok? ==> count.value >= 0
  {
    var distance := CalculateDistanceKm(m, latitudePointA, longitudePointA, latitudePointB, longitudePointB);
    if distance.Ok? {
      NonNegativeQuotient(distance.value * 1000.0, granularityMeters);
    }
  }

  // ---------------------------------------------------------------------
  // Interpolation
  // ---------------------------------------------------------------------

  /** i / d for 0 <= i <= d: a fraction in [0, 1], 0 only at i = 0 and 1 only
      at i = d. */
  function Fraction(i: int, d: int): (r: real)
    requires 0 <= i <= d && 0 < d
    ensures 0.0 <= r <= 1.0
    ensures r == 0.0 <==> i == 0
    ensures r == 1.0 <==> i == d
  {
    NonNegativeQuotient(i as real, d as real);
    QuotientAtMostOne(i as real, d as real);
    QuotientOne(i as real, d as real);
    i as real / d as real
  }

  /** numpy.linspace(0, 1, count) over exact reals: count samples i / (count - 1)
      from 0 to 1, so [] for count 0 and [0] for count 1; a negative count
      raises ValueError. Every sample lies in [0, 1], the first is 0 and, with
      two or more samples, the last is 1. */
  function Linspace(count: int): (r: Result<seq<real>>)
    ensures r.Err? <==> count < 0
    ensures r.Err? ==> r.error == ValueError
    ensures r.Ok? ==> |r.value| == count
    ensures r.Ok? ==> forall i :: 0 <= i < |r.value| ==> 0.0 <= r.value[i] <= 1.0
    ensures r.Ok? && count >= 1 ==> r.value[0] == 0.0
    ensures r.Ok? && count >= 2 ==> r.value[count - 1] == 1.0
  {
    if count < 0 then Err(ValueError)
    else if count == 0 then Ok([])
    else if count == 1 then Ok([0.0])
    else Ok(seq(count, i requires 0 <= i < count => Fraction(i, count - 1)))
  }

  /** The samples of linspace strictly increase. */
  lemma LinspaceIncreasing(count: int, i: int, j: int)
    requires Linspace(count).Ok? && 0 <= i < j < count
    ensures Linspace(count).value[i] < Linspace(count).value[j]
  {
    var d := (count - 1) as real;
    assert Linspace(count).value[i] == i as real / d;
    assert Linspace(count).value[j] == j as real / d;
    PositiveQuotient((j - i) as real, d);
    assert j as real / d - i as real / d == (j - i) as real / d;
  }

  /** The samples of linspace are equally spaced: consecutive samples differ
      by 1 / (count - 1), so sample i is i steps of that size from 0. */
  lemma LinspaceEquallySpaced(count: int, i: int)
    requires count >= 2 && 0 <= i < count - 1
    ensures Linspace(count).Ok?
    ensures Linspace(count).value[i + 1] - Linspace(count).value[i] == 1.0 / (count - 1) as real
  {
    var d := (count - 1) as real;
    assert Linspace(count).value[i] == i as real / d;
    assert Linspace(count).value[i + 1] == (i + 1) as real / d;
    QuotientDifference((i + 1) as real, i as real, d);
  }

  lemma QuotientDifference(x: real, y: real, d: real)
    requires d != 0.0
    ensures x / d - y / d == (x - y) / d
  {
  }

  lemma PositiveQuotient(x: real, y: real)
    requires x > 0.0 && y > 0.0
    ensures x / y > 0.0
  {
  }

  /** x lies between a and b, whichever of the two is larger. */
  predicate Between(x: real, a: real, b: real) {
    (a <= x <= b) || (b <= x <= a)
  }

  /** The point at parameter t on the way from a to b: a at t = 0, b at t = 1,
      and between a and b for every t in [0, 1]. */
  function Lerp(a: real, b: real, t: real): (r: real)
    ensures t == 0.0 ==> r == a
    ensures t == 1.0 ==> r == b
    ensures 0.0 <= t <= 1.0 ==> Between(r, a, b)
  {
    StepWithinSpan(a, b, t);
    a + t * (b - a)
  }

  /** The bounds are asserted as negated strict comparisons, the form in
      which the solver's nonlinear reasoning establishes them. */
  lemma StepWithinSpan(a: real, b: real, t: real)
    ensures 0.0 <= t <= 1.0 ==> Between(a + t * (b - a), a, b)
  {
    if 0.0 <= t <= 1.0 {
      if a <= b {
        assert !(t * (b - a) < 0.0);
        assert !(t * (b - a) > b - a) by {
          assert (1.0 - t) * (b - a) >= 0.0;
        }
      } else {
        assert !(t * (b - a) > 0.0);
        assert !(t * (b - a) < b - a) by {
          assert (1.0 - t) * (a - b) >= 0.0;
        }
      }
    }
  }

  /** CoordinateInterpolation.interpolate_coordinates: the count of points,
      then linspace over it, then each sample t turned into the pair
      (lat_a + t (lat_b - lat_a), lon_a + t (lon_b - lon_a)). The result has
      exactly as many entries as the count, starts at A, ends at B when there
      are at least two points, and every entry lies between A and B in both
      coordinates. A failing count propagates, and a negative count (from a
      negative granularity) makes linspace raise ValueError. */
  function InterpolateCoordinates(
    m: Functions, latitudePointA: real, longitudePointA: real,
    latitudePointB: real, longitudePointB: real, granularityMeters: real): (r: Result<seq<(real, real)>>)
    requires Lawful(m)
    ensures var count := CalculateNumberOfPoints(m, latitudePointA, longitudePointA, latitudePointB, longitudePointB, granularityMeters);
      && (count.Err? ==> r == Err(count.error))
      && (count.Ok? && count.value < 0 ==> r == Err(ValueError))
      && (r.Ok? <==> count.Ok? && count.value >= 0)
      && (r.Ok? ==> |r.value| == count.value)
    ensures r.Ok? && |r.value| >= 1 ==> r.value[0] == (latitudePointA, longitudePointA)
    ensures r.Ok? && |r.value| >= 2 ==> r.value[|r.value| - 1] == (latitudePointB, longitudePointB)
    ensures r.Ok? ==> forall i :: 0 <= i < |r.value| ==>
      Between(r.value[i].0, latitudePointA, latitudePointB) && Between(r.value[i].1, longitudePointA, longitudePointB)
  {
    match CalculateNumberOfPoints(m, latitudePointA, longitudePointA, latitudePointB, longitudePointB, granularityMeters)
    case Err(e) => Err(e)
    case Ok(numberOfPoints) =>
      match Linspace(numberOfPoints)
      case Err(e) => Err(e)
      case Ok(tValues) =>
        Ok(seq(|tValues|, i requires 0 <= i < |tValues| =>
          (Lerp(latitudePointA, latitudePointB, tValues[i]), Lerp(longitudePointA, longitudePointB, tValues[i]))))
  }

  /** The interpolated points are equally spaced along the segment from A to
      B: consecutive entries differ by exactly (lat_b - lat_a) / (n - 1) in
      latitude and (lon_b - lon_a) / (n - 1) in longitude, where n is the
      number of entries. Both coordinates therefore advance by the same
      fraction of their span, and with the first entry at A, entry i is
      i / (n - 1) of the way from A to B. */
  lemma InterpolationEquallySpaced(
    m: Functions, latitudePointA: real, longitudePointA: real,
    latitudePointB: real, longitudePointB: real, granularityMeters: real, i: int)
    requires Lawful(m)
    requires var r := InterpolateCoordinates(m, latitudePointA, longitudePointA, latitudePointB, longitudePointB, granularityMeters);
      r.Ok? && 0 <= i < |r.value| - 1
    ensures var r := InterpolateCoordinates(m, latitudePointA, longitudePointA, latitudePointB, longitudePointB, granularityMeters);
      var steps := (|r.value| - 1) as real;
      && r.value[i + 1].0 - r.value[i].0 == (latitudePointB - latitudePointA) / steps
      && r.value[i + 1].1 - r.value[i].1 == (longitudePointB - longitudePointA) / steps
  {
    var r := InterpolateCoordinates(m, latitudePointA, longitudePointA, latitudePointB, longitudePointB, granularityMeters);
    var count := |r.value|;
    var tValues := Linspace(count).value;
    assert r.value[i] == (Lerp(latitudePointA, latitudePointB, tValues[i]), Lerp(longitudePointA, longitudePointB, tValues[i]));
    assert r.value[i + 1] == (Lerp(latitudePointA, latitudePointB, tValues[i + 1]), Lerp(longitudePointA, longitudePointB, tValues[i + 1]));
    LinspaceEquallySpaced(count, i);
    LerpStep(latitudePointA, latitudePointB, tValues[i], tValues[i + 1], (count - 1) as real);
    LerpStep(longitudePointA, longitudePointB, tValues[i], tValues[i + 1], (count - 1) as real);
  }

  /** Moving the parameter of Lerp by 1 / d moves the point by (b - a) / d. */
  lemma LerpStep(a: real, b: real, s: real, t: real, d: real)
    requires d != 0.0 && t - s == 1.0 / d
    ensures Lerp(a, b, t) - Lerp(a, b, s) == (b - a) / d
  {
    assert Lerp(a, b, t) - Lerp(a, b, s) == (t - s) * (b - a);
  }

  /** From a point to itself, with any non-zero granularity, there are no
      points to interpolate and the result is empty. */
  lemma SamePointGivesNoPoints(m: Functions, latitude: real, longitude: real, granularityMeters: real)
    requires Lawful(m) && Symmetric(m)
    requires granularityMeters != 0.0
    ensures CalculateNumberOfPoints(m, latitude, longitude, latitude, longitude, granularityMeters) == Ok(0)
    ensures InterpolateCoordinates(m, latitude, longitude, latitude, longitude, granularityMeters) == Ok([])
  {
    DistanceZeroAtSamePoint(m, latitude, longitude);
    assert 0.0 * 1000.0 / granularityMeters == 0.0;
    RoundHalfEvenOfInteger(0);
  }

  /** With a positive granularity, interpolation fails only if the distance
      does. */
  lemma InterpolationDefinedForPositiveGranularity(
    m: Functions, latitudePointA: real, longitudePointA: real,
    latitudePointB: real, longitudePointB: real, granularityMeters: real)
    requires Lawful(m)
    requires granularityMeters > 0.0
    requires CalculateDistanceKm(m, latitudePointA, longitudePointA, latitudePointB, longitudePointB).Ok?
    ensures InterpolateCoordinates(m, latitudePointA, longitudePointA, latitudePointB, longitudePointB, granularityMeters).Ok?
  {
    NumberOfPointsNonNegative(m, latitudePointA, longitudePointA, latitudePointB, longitudePointB, granularityMeters);
  }
}
