/** The Neustrelitz Peak Density Model (NPDM): the peak electron density of
    the ionospheric F2 layer, NmF2, is the product of five factors, one per
    physical driver -- local time (F1), season (F2), the geomagnetic field
    (F3), the equatorial ionization crests (F4) and solar activity (F5). The
    factors read fixed slots of one list of empirical coefficients:
    0-5 for F1, 6-7 for F2, 8 for F3, 9-10 for F4 and 11-12 for F5.

    Each factor is transcribed as the code computes it, quirks included (see
    the comments at each one). A factor fails with IndexError only when the
    coefficient list is too short for the slots that factor reads. */
module NeustrelitzPeakDensityModel {
  import opened Errors
  import opened Elementary
  import opened RealFacts

  // ---------------------------------------------------------------------
  // F1: local time, with the summer daytime bite-out
  // ---------------------------------------------------------------------

  /** LocalTimeF1.calculate_local_time_variations: the phases of the diurnal,
      semi-diurnal and ter-diurnal harmonics. The diurnal phase is shifted so
      that it is zero at 14:00, and the ter-diurnal phase runs 3/2 times as
      fast as the semi-diurnal one. */
  function LocalTimeVariations(m: Functions, localTimeHours: int): (r: (real, real, real))
    requires Lawful(m)
    ensures r.0 == 0.0 <==> localTimeHours == 14
    ensures 2.0 * r.2 == 3.0 * r.1
  {
    var phaseShift := 14;
    var diurnal := (2.0 * m.pi * (localTimeHours - phaseShift) as real) / 24.0;
    var semiDiurnal := (2.0 * m.pi * localTimeHours as real) / 12.0;
    var terDiurnal := (2.0 * m.pi * localTimeHours as real) / 8.0;
    ZeroProduct(2.0 * m.pi, (localTimeHours - phaseShift) as real);
    (diurnal, semiDiurnal, terDiurnal)
  }

  /** The cosine of the solar zenith angle, from latitude and declination. */
  function CosSolarZenithAngle(m: Functions, latitudeRadians: real, sunDeclinationRadians: real): real
  {
    m.sin(latitudeRadians) * m.sin(sunDeclinationRadians)
      + m.cos(latitudeRadians) * m.cos(sunDeclinationRadians)
  }

  /** LocalTimeF1.calculate_solar_zenith_angles. As written, the code takes the
      cosine of the cosine of the zenith angle; the "further adjusted" term adds
      the fixed correction PF1 = 0.4 to it, so it lies in [-0.6, 1.4], and the
      "adjusted" term differs from it by 0.4 plus the latitude-weighted sine of
      the declination. */
  function SolarZenithAngles(m: Functions, latitudeRadians: real, sunDeclinationRadians: real): (r: (real, real))
    requires Lawful(m)
    ensures -0.6 <= r.1 <= 1.4
    ensures r.0 == r.1 - 0.4 - (2.0 * latitudeRadians / m.pi) * m.sin(sunDeclinationRadians)
  {
    var solarZenithAngleCorrection := 0.4;
    var cosSolarZenithAngle := CosSolarZenithAngle(m, latitudeRadians, sunDeclinationRadians);
    var cosAdjustedZenithAngle := m.cos(cosSolarZenithAngle)
      - ((2.0 * latitudeRadians) / m.pi) * m.sin(sunDeclinationRadians);
    var cosFurtherAdjustedZenithAngle := m.cos(cosSolarZenithAngle) + solarZenithAngleCorrection;
    (cosAdjustedZenithAngle, cosFurtherAdjustedZenithAngle)
  }

  /** The hemisphere sign latitude / |latitude| used by the bite-out terms;
      Python raises ZeroDivisionError on the equator. */
  function HemisphereSign(latitudeRadians: real): (s: real)
    requires latitudeRadians != 0.0
    ensures latitudeRadians > 0.0 ==> s == 1.0
    ensures latitudeRadians < 0.0 ==> s == -1.0
  {
    SignQuotient(latitudeRadians);
    latitudeRadians / Abs(latitudeRadians)
  }

  /** The seasonal cosine of the bite-out, with its phase at day 181. */
  function BiteOutSeason(m: Functions, dayOfYear: int): real
    requires Lawful(m)
  {
    m.cos((2.0 * m.pi * (dayOfYear - 181) as real) / 365.25)
  }

  /** LocalTimeF1.calculate_local_time_at_beginning_of_bite_out. Undefined on
      the equator (ZeroDivisionError); elsewhere the onset is 13:00 moved by at
      most 1.5 hours, so it lies in [11.5, 14.5]. */
  function LocalTimeAtBeginningOfBiteOut(m: Functions, latitudeRadians: real, dayOfYear: int): (r: Result<real>)
    requires Lawful(m)
    ensures r.Err? <==> latitudeRadians == 0.0
    ensures r.Err? ==> r.error == ZeroDivisionError
    ensures r.Ok? ==> 11.5 <= r.value <= 14.5
  {
    if latitudeRadians == 0.0 then Err(ZeroDivisionError)
    else
      var season := BiteOutSeason(m, dayOfYear);
      var sign := HemisphereSign(latitudeRadians);
      ScaledByUnit(1.5 * season, sign);
      Ok(13.0 + 1.5 * season * sign)
  }

  /** The exponent of the latitude envelope of the bite-out. As written, it
      subtracts 45**2 from |latitude| (rather than squaring the difference)
      and divides by 2 * 14**2. */
  function LatitudeEnvelopeExponent(latitudeRadians: real): real
  {
    var fixedGeographicLatitude := 45.0;
    var gaussianHalfWidthDegree := 14.0;
    -((Abs(latitudeRadians) - fixedGeographicLatitude * fixedGeographicLatitude)
      / (2.0 * gaussianHalfWidthDegree * gaussianHalfWidthDegree))
  }

  /** The exponent of the time envelope of the bite-out. As written, it
      measures the distance from the onset time to the latitude (not to the
      local time), and multiplies by 3**2 after halving instead of dividing by
      2 * 3**2. It is never positive. */
  function TimeEnvelopeExponent(latitudeRadians: real, onset: real): (e: real)
    ensures e <= 0.0
  {
    var gaussianHalfWidthHours := 3.0;
    var distance := latitudeRadians - onset;
    SquareNonNegative(distance);
    -(distance * distance / 2.0 * (gaussianHalfWidthHours * gaussianHalfWidthHours))
  }

  /** LocalTimeF1.calculate_summer_daytime_bite_out. Undefined on the equator;
      elsewhere its magnitude never exceeds the latitude envelope, since the
      seasonal cosine, the time envelope and the hemisphere sign each have
      magnitude at most 1. */
  function SummerDaytimeBiteOut(m: Functions, latitudeRadians: real, dayOfYear: int): (r: Result<real>)
    requires Lawful(m)
    ensures r.Err? <==> latitudeRadians == 0.0
    ensures r.Err? ==> r.error == ZeroDivisionError
    ensures r.Ok? ==> Abs(r.value) <= m.exp(LatitudeEnvelopeExponent(latitudeRadians))
  {
    match LocalTimeAtBeginningOfBiteOut(m, latitudeRadians, dayOfYear)
    case Err(e) => Err(e)
    case Ok(onset) =>
      var latitudeEnvelope := m.exp(LatitudeEnvelopeExponent(latitudeRadians));
      var season := BiteOutSeason(m, dayOfYear);
      var timeEnvelope := m.exp(TimeEnvelopeExponent(latitudeRadians, onset));
      var sign := HemisphereSign(latitudeRadians);
      BiteOutWithinEnvelope(latitudeEnvelope, season, timeEnvelope, sign);
      Ok(latitudeEnvelope * season * timeEnvelope * sign)
  }

  lemma BiteOutWithinEnvelope(envelope: real, season: real, timeEnvelope: real, sign: real)
    requires envelope > 0.0
    requires -1.0 <= season <= 1.0
    requires 0.0 < timeEnvelope <= 1.0
    requires sign == 1.0 || sign == -1.0
    ensures Abs(envelope * season * timeEnvelope * sign) <= envelope
  {
    AbsScaledByUnit(envelope, season);
    AbsScaledByUnit(envelope * season, timeEnvelope);
    AbsScaledByUnit(envelope * season * timeEnvelope, sign);
  }

  /** The harmonic part of F1: the five local-time harmonics weighted by
      coefficients 0-4. */
  function Harmonics(m: Functions, localTimeHours: int, coefficients: seq<real>): real
    requires Lawful(m)
    requires |coefficients| >= 5
  {
    var (diurnal, semiDiurnal, terDiurnal) := LocalTimeVariations(m, localTimeHours);
    coefficients[0] * m.cos(diurnal)
      + coefficients[1] * m.cos(semiDiurnal) + coefficients[2] * m.sin(semiDiurnal)
      + coefficients[3] * m.cos(terDiurnal) + coefficients[4] * m.sin(terDiurnal)
  }

  /** LocalTimeF1.calculate_local_time_F1. The bite-out is computed before any
      coefficient is read, so on the equator the call fails with
      ZeroDivisionError whatever the list; elsewhere it fails with IndexError
      exactly when the list has fewer than the six slots F1 reads. */
  function LocalTimeF1(
    m: Functions,
    localTimeHours: int,
    latitudeRadians: real,
    sunDeclinationRadians: real,
    dayOfYear: int,
    coefficients: seq<real>): (r: Result<real>)
    requires Lawful(m)
    ensures latitudeRadians == 0.0 ==> r == Err(ZeroDivisionError)
    ensures latitudeRadians != 0.0 && |coefficients| < 6 ==> r == Err(IndexError)
    ensures r.Ok? <==> latitudeRadians != 0.0 && |coefficients| >= 6
  {
    var (cosAdjustedZenithAngle, cosFurtherAdjustedZenithAngle) :=
      SolarZenithAngles(m, latitudeRadians, sunDeclinationRadians);
    match SummerDaytimeBiteOut(m, latitudeRadians, dayOfYear)
    case Err(e) => Err(e)
    case Ok(biteOut) =>
      if |coefficients| < 6 then Err(IndexError)
      else
        Ok(m.cos(cosFurtherAdjustedZenithAngle)
           + Harmonics(m, localTimeHours, coefficients) * m.cos(cosAdjustedZenithAngle)
           + coefficients[5] * biteOut)
  }

  /** The harmonic part reads only coefficient slots 0-4. */
  lemma HarmonicsReadsOnlySlotsZeroToFour(
    m: Functions, localTimeHours: int, coefficients: seq<real>, others: seq<real>)
    requires Lawful(m)
    requires |coefficients| >= 5 && |others| >= 5 && coefficients[..5] == others[..5]
    ensures Harmonics(m, localTimeHours, coefficients) == Harmonics(m, localTimeHours, others)
  {
    forall i | 0 <= i < 5
      ensures coefficients[i] == others[i]
    {
      assert coefficients[i] == coefficients[..5][i];
      assert others[i] == others[..5][i];
    }
  }

  /** F1 reads only coefficient slots 0-5: lists that agree there give the
      same F1, whatever they hold in slots 6-12. */
  lemma LocalTimeF1ReadsOnlySlotsZeroToFive(
    m: Functions, localTimeHours: int, latitudeRadians: real, sunDeclinationRadians: real,
    dayOfYear: int, coefficients: seq<real>, others: seq<real>)
    requires Lawful(m)
    requires |coefficients| >= 6 && |others| >= 6 && coefficients[..6] == others[..6]
    ensures LocalTimeF1(m, localTimeHours, latitudeRadians, sunDeclinationRadians, dayOfYear, coefficients)
         == LocalTimeF1(m, localTimeHours, latitudeRadians, sunDeclinationRadians, dayOfYear, others)
  {
    assert coefficients[..5] == coefficients[..6][..5];
    assert others[..5] == others[..6][..5];
    HarmonicsReadsOnlySlotsZeroToFour(m, localTimeHours, coefficients, others);
    assert coefficients[5] == coefficients[..6][5];
    assert others[5] == others[..6][5];
    if latitudeRadians != 0.0 {
      assert LocalTimeF1(m, localTimeHours, latitudeRadians, sunDeclinationRadians, dayOfYear, coefficients).value
          == LocalTimeF1(m, localTimeHours, latitudeRadians, sunDeclinationRadians, dayOfYear, others).value;
    }
  }

  /** With coefficients 0-5 all zero, harmonics and bite-out drop out and F1
      is the cosine of the further adjusted zenith term,
      cos(cos(cos_zenith) + 0.4). */
  lemma LocalTimeF1WithZeroCoefficients(
    m: Functions, localTimeHours: int, latitudeRadians: real, sunDeclinationRadians: real,
    dayOfYear: int, coefficients: seq<real>)
    requires Lawful(m)
    requires latitudeRadians != 0.0 && |coefficients| >= 6
    requires forall i :: 0 <= i < 6 ==> coefficients[i] == 0.0
    ensures LocalTimeF1(m, localTimeHours, latitudeRadians, sunDeclinationRadians, dayOfYear, coefficients)
         == Ok(m.cos(m.cos(CosSolarZenithAngle(m, latitudeRadians, sunDeclinationRadians)) + 0.4))
  {
    assert Harmonics(m, localTimeHours, coefficients) == 0.0;
  }

  /** The harmonic part is bounded by the sum of the magnitudes of
      coefficients 0-4. */
  lemma HarmonicsBounded(m: Functions, localTimeHours: int, coefficients: seq<real>)
    requires Lawful(m)
    requires |coefficients| >= 5
    ensures Abs(Harmonics(m, localTimeHours, coefficients))
         <= Abs(coefficients[0]) + Abs(coefficients[1]) + Abs(coefficients[2])
            + Abs(coefficients[3]) + Abs(coefficients[4])
  {
    var (diurnal, semiDiurnal, terDiurnal) := LocalTimeVariations(m, localTimeHours);
    WeightedSumBounded(Harmonics(m, localTimeHours, coefficients),
      coefficients[0], m.cos(diurnal),
      coefficients[1], m.cos(semiDiurnal), coefficients[2], m.sin(semiDiurnal),
      coefficients[3], m.cos(terDiurnal), coefficients[4], m.sin(terDiurnal));
  }

  // ---------------------------------------------------------------------
  // F2: season
  // ---------------------------------------------------------------------

  /** SeasonalVariationF2.calculate_annual_variation: the annual phase, zero
      on day 18. */
  function AnnualVariation(m: Functions, dayOfYear: int): (r: real)
    requires Lawful(m)
    ensures r == 0.0 <==> dayOfYear == 18
  {
    var phaseShift := 18;
    ZeroProduct(2.0 * m.pi, (dayOfYear - phaseShift) as real);
    (2.0 * m.pi * (dayOfYear - phaseShift) as real) / 365.25
  }

  /** SeasonalVariationF2.calculate_semi_annual_variation: the semi-annual
      phase, zero on day 6. */
  function SemiAnnualVariation(m: Functions, dayOfYear: int): (r: real)
    requires Lawful(m)
    ensures r == 0.0 <==> dayOfYear == 6
  {
    var phaseShift := 6;
    ZeroProduct(4.0 * m.pi, (dayOfYear - phaseShift) as real);
    (4.0 * m.pi * (dayOfYear - phaseShift) as real) / 365.25
  }

  /** SeasonalVariationF2.calculate_seasonal_variation_F2: IndexError exactly
      when the list lacks slot 7; otherwise F2 lies within |c6| + |c7| of 1. */
  function SeasonalVariationF2(m: Functions, dayOfYear: int, coefficients: seq<real>): (r: Result<real>)
    requires Lawful(m)
    ensures r.Err? <==> |coefficients| < 8
    ensures r.Err? ==> r.error == IndexError
    ensures r.Ok? ==>
      1.0 - Abs(coefficients[6]) - Abs(coefficients[7]) <= r.value
        <= 1.0 + Abs(coefficients[6]) + Abs(coefficients[7])
  {
    var annualVariation := AnnualVariation(m, dayOfYear);
    var semiAnnualVariation := SemiAnnualVariation(m, dayOfYear);
    if |coefficients| < 8 then Err(IndexError)
    else
      var value := 1.0 + coefficients[6] * m.cos(annualVariation) + coefficients[7] * m.cos(semiAnnualVariation);
      ScaledByUnit(coefficients[6], m.cos(annualVariation));
      ScaledByUnit(coefficients[7], m.cos(semiAnnualVariation));
      AroundOne(value, coefficients[6] * m.cos(annualVariation), coefficients[7] * m.cos(semiAnnualVariation),
        Abs(coefficients[6]), Abs(coefficients[7]));
      Ok(value)
  }

  /** F2 reads only slots 6 and 7. */
  lemma SeasonalVariationF2ReadsOnlySlotsSixAndSeven(m: Functions, dayOfYear: int, coefficients: seq<real>, others: seq<real>)
    requires Lawful(m)
    requires |coefficients| >= 8 && |others| >= 8
    requires coefficients[6] == others[6] && coefficients[7] == others[7]
    ensures SeasonalVariationF2(m, dayOfYear, coefficients) == SeasonalVariationF2(m, dayOfYear, others)
  {
    assert SeasonalVariationF2(m, dayOfYear, coefficients).value == SeasonalVariationF2(m, dayOfYear, others).value;
  }

  /** Without seasonal coefficients F2 is exactly 1, on every day. */
  lemma SeasonalVariationF2IsOneWithoutCoefficients(m: Functions, dayOfYear: int, coefficients: seq<real>)
    requires Lawful(m)
    requires |coefficients| >= 8 && coefficients[6] == 0.0 && coefficients[7] == 0.0
    ensures SeasonalVariationF2(m, dayOfYear, coefficients) == Ok(1.0)
  {
  }

  // ---------------------------------------------------------------------
  // F3: geomagnetic field
  // ---------------------------------------------------------------------

  /** GeomagneticFieldDependencyF3.calculate_geomagentic_field_dependency:
      IndexError exactly when the list lacks slot 8; otherwise F3 lies within
      |c8| of 1. */
  function GeomagneticFieldDependencyF3(m: Functions, geomagneticLatitude: real, coefficients: seq<real>): (r: Result<real>)
    requires Lawful(m)
    ensures r.Err? <==> |coefficients| < 9
    ensures r.Err? ==> r.error == IndexError
    ensures r.Ok? ==> 1.0 - Abs(coefficients[8]) <= r.value <= 1.0 + Abs(coefficients[8])
  {
    if |coefficients| < 9 then Err(IndexError)
    else
      ScaledByUnit(coefficients[8], m.cos(geomagneticLatitude));
      Ok(1.0 + coefficients[8] * m.cos(geomagneticLatitude))
  }

  /** On the geomagnetic equator F3 is 1 + c8, and F3 depends on the list only
      through slot 8. */
  lemma GeomagneticFieldDependencyF3AtEquator(m: Functions, coefficients: seq<real>)
    requires Lawful(m)
    requires |coefficients| >= 9
    ensures GeomagneticFieldDependencyF3(m, 0.0, coefficients) == Ok(1.0 + coefficients[8])
  {
  }

  lemma GeomagneticFieldDependencyF3ReadsOnlySlotEight(
    m: Functions, geomagneticLatitude: real, coefficients: seq<real>, others: seq<real>)
    requires Lawful(m)
    requires |coefficients| >= 9 && |others| >= 9 && coefficients[8] == others[8]
    ensures GeomagneticFieldDependencyF3(m, geomagneticLatitude, coefficients)
         == GeomagneticFieldDependencyF3(m, geomagneticLatitude, others)
  {
  }

  /** F3 takes the same value at geomagnetic latitudes g and -g. */
  lemma GeomagneticFieldDependencyF3Symmetric(m: Functions, geomagneticLatitude: real, coefficients: seq<real>)
    requires Lawful(m) && Symmetric(m)
    ensures GeomagneticFieldDependencyF3(m, geomagneticLatitude, coefficients)
         == GeomagneticFieldDependencyF3(m, -geomagneticLatitude, coefficients)
  {
    assert m.cos(geomagneticLatitude) == m.cos(-geomagneticLatitude);
  }

  // ---------------------------------------------------------------------
  // F4: equatorial ionization crests
  // ---------------------------------------------------------------------

  /** IonizationCrestsF4.calculate_half_width: the crest width, narrowest at
      14:00. It lies in [10, 20) and is 10 exactly at local time 14, so the
      crest exponents never divide by zero. */
  function HalfWidth(m: Functions, localTimeHours: int): (w: real)
    requires Lawful(m)
    ensures 10.0 <= w < 20.0
    ensures w == 10.0 <==> localTimeHours == 14
  {
    var coefficientHalfWidthTime := 12.0;
    var offset := (localTimeHours - 14) as real;
    var exponent := -(offset * offset / (2.0 * (coefficientHalfWidthTime * coefficientHalfWidthTime)));
    GaussianExponent(offset, coefficientHalfWidthTime);
    20.0 - 10.0 * m.exp(exponent)
  }

  /** A crest exponent: minus the squared distance from the crest over twice
      the squared half-width. */
  function CrestExponent(m: Functions, geomagneticLatitude: real, localTimeHours: int, crest: real): (e: real)
    requires Lawful(m)
    ensures e <= 0.0
    ensures e == 0.0 <==> geomagneticLatitude == crest
  {
    var halfWidth := HalfWidth(m, localTimeHours);
    var distance := geomagneticLatitude - crest;
    GaussianExponent(distance, halfWidth);
    -(distance * distance / (2.0 * (halfWidth * halfWidth)))
  }

  /** IonizationCrestsF4.calculate_ionization_crest_1: the exponent of the
      northward crest, never positive and zero exactly at 16. */
  function IonizationCrest1(m: Functions, geomagneticLatitude: real, localTimeHours: int): (e: real)
    requires Lawful(m)
    ensures e <= 0.0
    ensures e == 0.0 <==> geomagneticLatitude == 16.0
  {
    var northwardCrestDegrees := 16.0;
    CrestExponent(m, geomagneticLatitude, localTimeHours, northwardCrestDegrees)
  }

  /** IonizationCrestsF4.calculate_ionization_crest_2: the exponent of the
      southward crest, never positive and zero exactly at -15. */
  function IonizationCrest2(m: Functions, geomagneticLatitude: real, localTimeHours: int): (e: real)
    requires Lawful(m)
    ensures e <= 0.0
    ensures e == 0.0 <==> geomagneticLatitude == -15.0
  {
    var southwardCrestDegrees := -15.0;
    CrestExponent(m, geomagneticLatitude, localTimeHours, southwardCrestDegrees)
  }

  /** IonizationCrestsF4.calculate_ionization_crest_F4: IndexError exactly
      when the list lacks slot 10; otherwise 1 plus the two crest terms,
      each weighted by its coefficient. */
  function IonizationCrestF4(m: Functions, geomagneticLatitude: real, localTimeHours: int, coefficients: seq<real>): (r: Result<real>)
    requires Lawful(m)
    ensures r.Err? <==> |coefficients| < 11
    ensures r.Err? ==> r.error == IndexError
  {
    var ionizationCrest1 := IonizationCrest1(m, geomagneticLatitude, localTimeHours);
    var ionizationCrest2 := IonizationCrest2(m, geomagneticLatitude, localTimeHours);
    if |coefficients| < 11 then Err(IndexError)
    else
      Ok(1.0 + coefficients[9] * m.exp(ionizationCrest1) + coefficients[10] * m.exp(ionizationCrest2))
  }

  /** Two crest terms with non-negative weights and Gaussian factors in
      (0, 1] add between 0 and the sum of the weights to 1. */
  lemma CrestTermsBounded(c1: real, g1: real, c2: real, g2: real)
    requires 0.0 < g1 <= 1.0 && 0.0 < g2 <= 1.0
    requires c1 >= 0.0 && c2 >= 0.0
    ensures 1.0 <= 1.0 + c1 * g1 + c2 * g2 <= 1.0 + c1 + c2
  {
    ScaledIntoUnit(c1, g1);
    ScaledIntoUnit(c2, g2);
  }

  /** With non-negative crest coefficients F4 is at least 1 (the crests only
      ever add to the background) and at most 1 + c9 + c10. */
  lemma IonizationCrestF4Bounded(m: Functions, geomagneticLatitude: real, localTimeHours: int, coefficients: seq<real>)
    requires Lawful(m)
    requires |coefficients| >= 11 && coefficients[9] >= 0.0 && coefficients[10] >= 0.0
    ensures 1.0 <= IonizationCrestF4(m, geomagneticLatitude, localTimeHours, coefficients).value
              <= 1.0 + coefficients[9] + coefficients[10]
  {
    var g1 := m.exp(IonizationCrest1(m, geomagneticLatitude, localTimeHours));
    var g2 := m.exp(IonizationCrest2(m, geomagneticLatitude, localTimeHours));
    assert IonizationCrestF4(m, geomagneticLatitude, localTimeHours, coefficients).value
      == 1.0 + coefficients[9] * g1 + coefficients[10] * g2;
    CrestTermsBounded(coefficients[9], g1, coefficients[10], g2);
  }

  /** F4 reads only slots 9 and 10. */
  lemma IonizationCrestF4ReadsOnlySlotsNineAndTen(
    m: Functions, geomagneticLatitude: real, localTimeHours: int, coefficients: seq<real>, others: seq<real>)
    requires Lawful(m)
    requires |coefficients| >= 11 && |others| >= 11
    requires coefficients[9] == others[9] && coefficients[10] == others[10]
    ensures IonizationCrestF4(m, geomagneticLatitude, localTimeHours, coefficients)
         == IonizationCrestF4(m, geomagneticLatitude, localTimeHours, others)
  {
    assert IonizationCrestF4(m, geomagneticLatitude, localTimeHours, coefficients).value
        == IonizationCrestF4(m, geomagneticLatitude, localTimeHours, others).value;
  }

  /** The northward crest contributes most at geomagnetic latitude 16, where
      its Gaussian factor is exactly 1. */
  lemma IonizationCrest1PeaksAtSixteen(m: Functions, geomagneticLatitude: real, localTimeHours: int, weight: real)
    requires Lawful(m)
    requires weight >= 0.0
    ensures weight * m.exp(IonizationCrest1(m, geomagneticLatitude, localTimeHours))
         <= weight * m.exp(IonizationCrest1(m, 16.0, localTimeHours)) == weight
  {
    AtMostOneNonNegative(weight, m.exp(IonizationCrest1(m, geomagneticLatitude, localTimeHours)));
  }

  /** The southward crest contributes most at geomagnetic latitude -15. */
  lemma IonizationCrest2PeaksAtMinusFifteen(m: Functions, geomagneticLatitude: real, localTimeHours: int, weight: real)
    requires Lawful(m)
    requires weight >= 0.0
    ensures weight * m.exp(IonizationCrest2(m, geomagneticLatitude, localTimeHours))
         <= weight * m.exp(IonizationCrest2(m, -15.0, localTimeHours)) == weight
  {
    AtMostOneNonNegative(weight, m.exp(IonizationCrest2(m, geomagneticLatitude, localTimeHours)));
  }

  // ---------------------------------------------------------------------
  // F5: solar activity
  // ---------------------------------------------------------------------

  /** SolarActivityF5.calculate_solar_activity_F5: IndexError exactly when the
      list lacks slot 12. The code multiplies the flux by a fixed
      delta F10.7 = 12. */
  function SolarActivityF5(solarFluxF107: real, coefficients: seq<real>): (r: Result<real>)
    ensures r.Err? <==> |coefficients| < 13
    ensures r.Err? ==> r.error == IndexError
  {
    var deltaF107 := 12.0;
    if |coefficients| < 13 then Err(IndexError)
    else Ok(coefficients[11] + coefficients[12] * solarFluxF107 * deltaF107)
  }

  /** At zero flux F5 is c11. */
  lemma SolarActivityF5AtZeroFlux(coefficients: seq<real>)
    requires |coefficients| >= 13
    ensures SolarActivityF5(0.0, coefficients) == Ok(coefficients[11])
  {
  }

  /** F5 is affine in the flux: it maps a weighted mean of two fluxes to the
      same weighted mean of their F5 values, and its slope is 12 * c12. */
  lemma SolarActivityF5Affine(x: real, y: real, t: real, coefficients: seq<real>)
    requires |coefficients| >= 13
    ensures SolarActivityF5(t * x + (1.0 - t) * y, coefficients).value
         == t * SolarActivityF5(x, coefficients).value + (1.0 - t) * SolarActivityF5(y, coefficients).value
    ensures SolarActivityF5(x, coefficients).value - SolarActivityF5(y, coefficients).value
         == 12.0 * coefficients[12] * (x - y)
  {
  }

  /** With a non-negative slot 12, more flux never gives a smaller F5. */
  lemma SolarActivityF5Monotone(x: real, y: real, coefficients: seq<real>)
    requires |coefficients| >= 13 && coefficients[12] >= 0.0 && x <= y
    ensures SolarActivityF5(x, coefficients).value <= SolarActivityF5(y, coefficients).value
  {
    SolarActivityF5Affine(x, y, 0.0, coefficients);
    ScaleMonotone(12.0 * coefficients[12], x, y);
  }

  /** F5 reads only slots 11 and 12. */
  lemma SolarActivityF5ReadsOnlySlotsElevenAndTwelve(solarFluxF107: real, coefficients: seq<real>, others: seq<real>)
    requires |coefficients| >= 13 && |others| >= 13
    requires coefficients[11] == others[11] && coefficients[12] == others[12]
    ensures SolarActivityF5(solarFluxF107, coefficients) == SolarActivityF5(solarFluxF107, others)
  {
    assert SolarActivityF5(solarFluxF107, coefficients).value == SolarActivityF5(solarFluxF107, others).value;
  }

  // ---------------------------------------------------------------------
  // The combiner
  // ---------------------------------------------------------------------

  /** NeustrelitzPeakDensityModel.calculate_neustrelitz_peak_electron_model:
      NmF2 is the product of the five factors; it is zero exactly when one of
      them is. */
  function NeustrelitzPeakElectronModel(f1: real, f2: real, f3: real, f4: real, f5: real): (nmF2: real)
    ensures nmF2 == 0.0 <==> f1 == 0.0 || f2 == 0.0 || f3 == 0.0 || f4 == 0.0 || f5 == 0.0
  {
    ZeroProduct(f1, f2);
    ZeroProduct(f1 * f2, f3);
    ZeroProduct(f1 * f2 * f3, f4);
    ZeroProduct(f1 * f2 * f3 * f4, f5);
    f1 * f2 * f3 * f4 * f5
  }

  /** Five unit factors give 1: a factor of 1 leaves the product unchanged. */
  lemma NeustrelitzPeakElectronModelIdentity(f: real)
    ensures NeustrelitzPeakElectronModel(1.0, 1.0, 1.0, 1.0, f) == f
    ensures NeustrelitzPeakElectronModel(1.0, 1.0, 1.0, 1.0, 1.0) == 1.0
  {
  }

}
