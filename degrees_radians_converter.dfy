/** Conversion between an angle in radians and the same angle as whole
    degrees plus minutes of arc. */
module DegreesRadiansConverter {
  import opened Elementary
  import opened RealFacts

  /** Python's int() applied to a float: the integer part, truncated toward
      zero. It never has a larger magnitude than x, has the sign of x unless
      it is 0, and lies within 1 of x. */
  function Truncate(x: real): (n: int)
    ensures x >= 0.0 ==> 0 <= n && n as real <= x < n as real + 1.0
    ensures x <= 0.0 ==> n <= 0 && n as real - 1.0 < x <= n as real
  {
    if x >= 0.0 then x.Floor else -((-x).Floor)
  }

  /** DegreesRadiansConverter.convert_to_radians: the minutes are sixtieths of
      a degree and a degree is pi/180 radians. */
  function ConvertToRadians(m: Functions, degrees: real, minutes: real): (r: real)
    requires Lawful(m)
    ensures r * 180.0 == (60.0 * degrees + minutes) * m.pi / 60.0
  {
    var convertedMinutes := minutes * (1.0 / 60.0);
    var sumOfDegrees := degrees + convertedMinutes;
    sumOfDegrees * (m.pi / 180.0)
  }

  /** The angle in degrees that convert_to_degrees splits. */
  function InDegrees(m: Functions, radians: real): (d: real)
    requires Lawful(m)
    ensures d * m.pi == radians * 180.0
  {
    radians * (180.0 / m.pi)
  }

  /** DegreesRadiansConverter.convert_to_degrees: whole degrees by truncation
      toward zero, and the remaining fraction of a degree as minutes. The
      minutes lie strictly between -60 and 60 and never have the opposite sign
      to the angle, and whole degrees plus minutes/60 is the angle in degrees. */
  function ConvertToDegrees(m: Functions, radians: real): (r: (int, real))
    requires Lawful(m)
    ensures var (wholeDegrees, minutes) := r;
      && wholeDegrees as real + minutes / 60.0 == InDegrees(m, radians)
      && -60.0 < minutes < 60.0
      && (radians >= 0.0 ==> wholeDegrees >= 0 && minutes >= 0.0)
      && (radians <= 0.0 ==> wholeDegrees <= 0 && minutes <= 0.0)
  {
    var convertedToDegrees := InDegrees(m, radians);
    var wholeDegrees := Truncate(convertedToDegrees);
    var decimalFraction := convertedToDegrees - wholeDegrees as real;
    var minutes := decimalFraction * 60.0;
    (wholeDegrees, minutes)
  }

  /** The whole-degree part has no larger magnitude than the angle in degrees
      and differs from it by less than one degree. */
  lemma WholeDegreesWithinOne(m: Functions, radians: real)
    requires Lawful(m)
    ensures var w := ConvertToDegrees(m, radians).0 as real;
      var d := InDegrees(m, radians);
      Abs(w) <= Abs(d) < Abs(w) + 1.0
  {
  }

  /** Sixty minutes make one degree. */
  lemma SixtyMinutesMakeADegree(m: Functions, degrees: real)
    requires Lawful(m)
    ensures ConvertToRadians(m, degrees, 60.0) == ConvertToRadians(m, degrees + 1.0, 0.0)
  {
  }

  /** Splitting an angle into degrees and minutes and converting back gives
      the angle again (over exact reals). */
  lemma RadiansRoundTrip(m: Functions, radians: real)
    requires Lawful(m)
    ensures var (wholeDegrees, minutes) := ConvertToDegrees(m, radians);
      ConvertToRadians(m, wholeDegrees as real, minutes) == radians
  {
    var (w, mins) := ConvertToDegrees(m, radians);
    var d := InDegrees(m, radians);
    assert w as real + mins / 60.0 == d;
    var r := ConvertToRadians(m, w as real, mins);
    assert r * 180.0 == (w as real + mins / 60.0) * m.pi;
    assert r * 180.0 == d * m.pi;
    assert d * m.pi == radians * 180.0;
  }

  /** The zero angle is zero degrees and zero minutes. */
  lemma ZeroRadians(m: Functions)
    requires Lawful(m)
    ensures ConvertToDegrees(m, 0.0) == (0, 0.0)
  {
  }
}
