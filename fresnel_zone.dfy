/** The radius that must stay clear of obstacles between two radio stations:
    60 % of the first Fresnel zone radius, computed as 0.6 * sqrt(lambda * d) / 2
    from the wavelength lambda and the distance d between the stations (metres). */
module FresnelZone {
  import opened Errors
  import opened Elementary
  import RealFacts

  /** FresnelZone.calc_fresnel_zone. math.sqrt raises a domain error when the
      product of wavelength and distance is negative; otherwise the result is
      the unique non-negative r with r * r == 0.09 * wavelength * distance. */
  function CalcFresnelZone(m: Functions, wavelengthMeter: real, distanceMeter: real): (r: Result<real>)
    requires Lawful(m)
    ensures r.Err? <==> wavelengthMeter * distanceMeter < 0.0
    ensures r.Err? ==> r.error == MathDomainError
    ensures r.Ok? ==> 0.0 <= r.value && r.value * r.value == 0.09 * (wavelengthMeter * distanceMeter)
  {
    var product := wavelengthMeter * distanceMeter;
    if product < 0.0 then Err(MathDomainError)
    else Ok((m.sqrt(product) / 2.0) * 0.6)
  }

  /** The radius is 0.3 * sqrt(lambda * d): the 60 % factor and the halving
      collapse into one constant. */
  lemma FresnelZoneIsThreeTenthsOfRoot(m: Functions, wavelengthMeter: real, distanceMeter: real)
    requires Lawful(m)
    requires wavelengthMeter * distanceMeter >= 0.0
    ensures CalcFresnelZone(m, wavelengthMeter, distanceMeter)
         == Ok(0.3 * m.sqrt(wavelengthMeter * distanceMeter))
  {
  }

  /** Wavelength and distance play symmetric roles. */
  lemma FresnelZoneSymmetric(m: Functions, wavelengthMeter: real, distanceMeter: real)
    requires Lawful(m)
    ensures CalcFresnelZone(m, wavelengthMeter, distanceMeter)
         == CalcFresnelZone(m, distanceMeter, wavelengthMeter)
  {
    assert wavelengthMeter * distanceMeter == distanceMeter * wavelengthMeter;
  }

  /** A zero wavelength or a zero distance gives a zero radius, not an error. */
  lemma FresnelZoneZeroWhenEitherZero(m: Functions, wavelengthMeter: real, distanceMeter: real)
    requires Lawful(m)
    requires wavelengthMeter == 0.0 || distanceMeter == 0.0
    ensures CalcFresnelZone(m, wavelengthMeter, distanceMeter) == Ok(0.0)
  {
    assert wavelengthMeter * distanceMeter == 0.0;
    SqrtUnique(m, 0.0, 0.0);
  }

  /** The radius grows with the product of wavelength and distance. */
  lemma FresnelZoneMonotone(m: Functions, wavelengthMeter: real, distanceMeter: real, wavelength2: real, distance2: real)
    requires Lawful(m)
    requires 0.0 <= wavelengthMeter * distanceMeter <= wavelength2 * distance2
    ensures CalcFresnelZone(m, wavelengthMeter, distanceMeter).value
         <= CalcFresnelZone(m, wavelength2, distance2).value
  {
    var r1 := CalcFresnelZone(m, wavelengthMeter, distanceMeter).value;
    var r2 := CalcFresnelZone(m, wavelength2, distance2).value;
    assert r1 * r1 <= r2 * r2;
    RealFacts.SquareMonotone(r1, r2);
  }
}
