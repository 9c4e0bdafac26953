/** The top-level copy of the Fresnel zone calculator, kept beside the one in
    the propagation package. It is transcribed on its own and shown to agree
    with that copy on every input. */
module FresnelZoneStandalone {
  import opened Errors
  import opened Elementary
  import FresnelZone

  /** FresnelZone.calc_fresnel_zone in the top-level module. */
  function CalcFresnelZone(m: Functions, wavelengthMeter: real, distanceMeter: real): (r: Result<real>)
    requires Lawful(m)
    ensures r.Err? <==> wavelengthMeter * distanceMeter < 0.0
    ensures r.Err? ==> r.error == MathDomainError
    ensures r.Ok? ==> 0.0 <= r.value && r.value * r.value == 0.09 * (wavelengthMeter * distanceMeter)
  {
    var product := wavelengthMeter * distanceMeter;
    if product < 0.0 then Err(MathDomainError)
    else Ok((m.sqrt(product) / 2.0) * 0.6)
  }

  /** Both copies compute the same radius and fail on the same inputs, so
      every lemma about the propagation copy holds of this one. */
  lemma AgreesWithPropagationCopy(m: Functions, wavelengthMeter: real, distanceMeter: real)
    requires Lawful(m)
    ensures CalcFresnelZone(m, wavelengthMeter, distanceMeter)
         == FresnelZone.CalcFresnelZone(m, wavelengthMeter, distanceMeter)
  {
  }
}
