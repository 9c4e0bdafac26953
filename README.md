# Radio propagation and ionosphere formulas, in Dafny

This project models the computational core of a Python library for radio propagation and ionospheric physics:

- **Neustrelitz Peak Density Model (NPDM).** The peak electron density NmF2 of the ionospheric F2 layer is the product of five factors:
  - F1, local time, including the summer daytime bite-out;
  - F2, season;
  - F3, geomagnetic field;
  - F4, the equatorial ionization crests;
  - F5, solar activity.

  Each factor reads fixed slots of one list of thirteen empirical coefficients.
- **Angle conversion** between radians and whole degrees plus minutes of arc.
- **Coordinate interpolation.** It has three parts:
  - the haversine great-circle distance between two points;
  - a point count, which is that distance in metres divided by a granularity and rounded half-to-even as Python's `round` does;
  - the points along the straight line in latitude/longitude at `numpy.linspace(0, 1, n)`.

  The library has two copies: one returns `(latitude, longitude)` pairs, the other returns `{"latitude": …, "longitude": …}` dictionaries.
- **Knife-edge diffraction.** The Fresnel-Kirchhoff diffraction parameter of a single obstruction.
- **Fresnel zone clearance.** 60 % of the first Fresnel zone radius. The library has two copies of this calculator.

Every one of these is a closed-form expression over reals, so the model is functional: datatypes, functions and lemmas over Dafny `real`.

Python's `math` module is a parameter, `Elementary.Functions`, holding sin, cos, exp, asin, sqrt and pi. Two ghost predicates list the only facts the proofs use:

- `Lawful` holds these facts:
  - sin and cos lie in [-1, 1], and cos 0 = 1;
  - exp is positive, at most 1 on non-positive arguments, and equal to 1 only at 0;
  - asin 0 = 0, and asin is non-negative on [0, 1];
  - sqrt gives the non-negative square root of a non-negative argument;
  - pi > 0.
- `Symmetric` says that sin is odd and cos is even.

Python's run-time errors become `Errors.Result`:

- `ZeroDivisionError` for a float division by zero;
- `MathDomainError` for `math.sqrt` of a negative number or `math.asin` above 1. Python raises these as `ValueError("math domain error")`, the same class as `linspace`'s error below; the model gives them a name of their own so that each contract says which cause occurred;
- `IndexError` for a coefficient list that is too short;
- `ValueError` for `linspace` with a negative count.

Each function states exactly when it fails and with which error.

The NPDM factors are transcribed as the code computes them, including its unusual choices:

- the cosine of a cosine in the zenith terms;
- `|latitude| - 45**2` in the bite-out latitude envelope;
- the latitude where a local time would be expected in the bite-out time envelope, and a multiplication by `3**2` there;
- the fixed delta F10.7 = 12 in F5.

The lemmas prove properties of the code as written, not of the published model.

## Model

| member | source | states |
|---|---|---|
| NeustrelitzPeakDensityModel.LocalTimeVariations | electron_density_model/neustrelitz_peak_density_model.py:63-83 | the diurnal phase is zero exactly at 14:00; the ter-diurnal phase is 3/2 of the semi-diurnal phase |
| NeustrelitzPeakDensityModel.SolarZenithAngles | electron_density_model/neustrelitz_peak_density_model.py:85-107 | the further adjusted term, cos(cos zenith) + 0.4, lies in [-0.6, 1.4]; the adjusted term differs from it by 0.4 plus (2 lat / pi) sin(declination) |
| NeustrelitzPeakDensityModel.HemisphereSign | electron_density_model/neustrelitz_peak_density_model.py:118-119 | lat / \|lat\| is +1 north of the equator and -1 south of it |
| NeustrelitzPeakDensityModel.LocalTimeAtBeginningOfBiteOut | electron_density_model/neustrelitz_peak_density_model.py:109-121 | ZeroDivisionError exactly on the equator; otherwise the onset time lies in [11.5, 14.5] |
| NeustrelitzPeakDensityModel.TimeEnvelopeExponent | electron_density_model/neustrelitz_peak_density_model.py:137-138 | the exponent of the bite-out time envelope is never positive |
| NeustrelitzPeakDensityModel.SummerDaytimeBiteOut | electron_density_model/neustrelitz_peak_density_model.py:123-140 | ZeroDivisionError exactly on the equator; otherwise the bite-out's magnitude is at most the latitude envelope exp(-(\|lat\| - 45^2) / (2 * 14^2)) |
| NeustrelitzPeakDensityModel.LocalTimeF1 | electron_density_model/neustrelitz_peak_density_model.py:142-158 | F1 fails with ZeroDivisionError on the equator whatever the list holds, and otherwise with IndexError exactly when the list has fewer than 6 coefficients; it succeeds exactly when neither applies |
| NeustrelitzPeakDensityModel.HarmonicsReadsOnlySlotsZeroToFour | electron_density_model/neustrelitz_peak_density_model.py:155-156 | the harmonic part of F1 depends only on coefficients 0-4 |
| NeustrelitzPeakDensityModel.LocalTimeF1ReadsOnlySlotsZeroToFive | electron_density_model/neustrelitz_peak_density_model.py:142-158 | two lists that agree in slots 0-5 give the same F1, including the same error |
| NeustrelitzPeakDensityModel.LocalTimeF1WithZeroCoefficients | electron_density_model/neustrelitz_peak_density_model.py:155-156 | with c0 to c5 zero, F1 is cos(cos(cos zenith) + 0.4) |
| NeustrelitzPeakDensityModel.HarmonicsBounded | electron_density_model/neustrelitz_peak_density_model.py:155-156 | the harmonic part is bounded by \|c0\| + \|c1\| + \|c2\| + \|c3\| + \|c4\| |
| NeustrelitzPeakDensityModel.AnnualVariation | electron_density_model/neustrelitz_peak_density_model.py:202-217 | the annual phase is zero exactly on day 18 |
| NeustrelitzPeakDensityModel.SemiAnnualVariation | electron_density_model/neustrelitz_peak_density_model.py:219-233 | the semi-annual phase is zero exactly on day 6 |
| NeustrelitzPeakDensityModel.SeasonalVariationF2 | electron_density_model/neustrelitz_peak_density_model.py:235-250 | IndexError exactly when the list has fewer than 8 entries; otherwise F2 lies within \|c6\| + \|c7\| of 1 |
| NeustrelitzPeakDensityModel.SeasonalVariationF2ReadsOnlySlotsSixAndSeven | electron_density_model/neustrelitz_peak_density_model.py:248-249 | lists that agree in slots 6 and 7 give the same F2 |
| NeustrelitzPeakDensityModel.SeasonalVariationF2IsOneWithoutCoefficients | electron_density_model/neustrelitz_peak_density_model.py:235-250 | F2 is exactly 1 on every day when c6 = c7 = 0 |
| NeustrelitzPeakDensityModel.GeomagneticFieldDependencyF3 | electron_density_model/neustrelitz_peak_density_model.py:288-300 | IndexError exactly when the list has fewer than 9 entries; otherwise F3 lies within \|c8\| of 1 |
| NeustrelitzPeakDensityModel.GeomagneticFieldDependencyF3AtEquator | electron_density_model/neustrelitz_peak_density_model.py:297-298 | at geomagnetic latitude 0, F3 = 1 + c8 |
| NeustrelitzPeakDensityModel.GeomagneticFieldDependencyF3ReadsOnlySlotEight | electron_density_model/neustrelitz_peak_density_model.py:297-298 | lists that agree in slot 8 give the same F3 |
| NeustrelitzPeakDensityModel.GeomagneticFieldDependencyF3Symmetric | electron_density_model/neustrelitz_peak_density_model.py:297-298 | F3 takes the same value at geomagnetic latitudes g and -g |
| NeustrelitzPeakDensityModel.HalfWidth | electron_density_model/neustrelitz_peak_density_model.py:351-367 | the crest half-width lies in [10, 20) and is 10 exactly at local time 14, so it is never zero |
| NeustrelitzPeakDensityModel.CrestExponent | electron_density_model/neustrelitz_peak_density_model.py:379-404 | a crest exponent is never positive and is zero exactly at the crest latitude |
| NeustrelitzPeakDensityModel.IonizationCrest1 | electron_density_model/neustrelitz_peak_density_model.py:369-386 | the northward crest exponent is never positive and is zero exactly at g = 16 |
| NeustrelitzPeakDensityModel.IonizationCrest2 | electron_density_model/neustrelitz_peak_density_model.py:388-405 | the southward crest exponent is never positive and is zero exactly at g = -15 |
| NeustrelitzPeakDensityModel.IonizationCrestF4 | electron_density_model/neustrelitz_peak_density_model.py:407-423 | IndexError exactly when the list has fewer than 11 entries |
| NeustrelitzPeakDensityModel.IonizationCrestF4Bounded | electron_density_model/neustrelitz_peak_density_model.py:407-423 | with c9, c10 >= 0, F4 lies in [1, 1 + c9 + c10] |
| NeustrelitzPeakDensityModel.IonizationCrestF4ReadsOnlySlotsNineAndTen | electron_density_model/neustrelitz_peak_density_model.py:419-421 | lists that agree in slots 9 and 10 give the same F4 |
| NeustrelitzPeakDensityModel.IonizationCrest1PeaksAtSixteen | electron_density_model/neustrelitz_peak_density_model.py:369-386 | a non-negatively weighted northward crest term is largest at g = 16, where it equals its weight |
| NeustrelitzPeakDensityModel.IonizationCrest2PeaksAtMinusFifteen | electron_density_model/neustrelitz_peak_density_model.py:388-405 | a non-negatively weighted southward crest term is largest at g = -15, where it equals its weight |
| NeustrelitzPeakDensityModel.SolarActivityF5 | electron_density_model/neustrelitz_peak_density_model.py:462-476 | IndexError exactly when the list has fewer than 13 entries |
| NeustrelitzPeakDensityModel.SolarActivityF5AtZeroFlux | electron_density_model/neustrelitz_peak_density_model.py:471-474 | at zero flux, F5 = c11 |
| NeustrelitzPeakDensityModel.SolarActivityF5Affine | electron_density_model/neustrelitz_peak_density_model.py:471-474 | F5 maps a weighted mean of fluxes to the same weighted mean of values, with slope 12 c12 |
| NeustrelitzPeakDensityModel.SolarActivityF5Monotone | electron_density_model/neustrelitz_peak_density_model.py:471-474 | with c12 >= 0, F5 does not decrease as the flux grows |
| NeustrelitzPeakDensityModel.SolarActivityF5ReadsOnlySlotsElevenAndTwelve | electron_density_model/neustrelitz_peak_density_model.py:471-474 | lists that agree in slots 11 and 12 give the same F5 |
| NeustrelitzPeakDensityModel.NeustrelitzPeakElectronModel | electron_density_model/neustrelitz_peak_density_model.py:532-545 | NmF2 is zero exactly when one of the five factors is zero |
| NeustrelitzPeakDensityModel.NeustrelitzPeakElectronModelIdentity | electron_density_model/neustrelitz_peak_density_model.py:541-543 | four unit factors leave the fifth unchanged; five unit factors give 1 |
| DegreesRadiansConverter.Truncate | utils/DegreesRadiansConverter.py:13 | int() truncates toward zero: the result has the sign of x (or is 0) and lies within 1 of x, on the side of zero |
| DegreesRadiansConverter.ConvertToRadians | utils/DegreesRadiansConverter.py:5-9 | r * 180 = (degrees + minutes / 60) * pi |
| DegreesRadiansConverter.InDegrees | utils/DegreesRadiansConverter.py:12 | d * pi = radians * 180 |
| DegreesRadiansConverter.ConvertToDegrees | utils/DegreesRadiansConverter.py:11-16 | whole degrees + minutes / 60 is the angle in degrees; the minutes lie in (-60, 60); both parts share the sign of the angle |
| DegreesRadiansConverter.WholeDegreesWithinOne | utils/DegreesRadiansConverter.py:12-13 | the whole-degree part is no larger in magnitude than the angle in degrees and less than 1 smaller |
| DegreesRadiansConverter.SixtyMinutesMakeADegree | utils/DegreesRadiansConverter.py:6-8 | convert_to_radians(d, 60) = convert_to_radians(d + 1, 0) |
| DegreesRadiansConverter.RadiansRoundTrip | utils/DegreesRadiansConverter.py:5-16 | converting to degrees and minutes and back gives the original angle |
| DegreesRadiansConverter.ZeroRadians | utils/DegreesRadiansConverter.py:11-16 | the zero angle is (0, 0) |
| Elementary.Radians | propagation/coordinate_interpolation.py:14-17 | math.radians: r * 180 = degrees * pi |
| CoordinateInterpolation.CalculateDistanceKm | propagation/coordinate_interpolation.py:13-30 | MathDomainError exactly when the haversine term is negative or its root exceeds 1; otherwise the distance is non-negative |
| CoordinateInterpolation.HaversineSymmetric | propagation/coordinate_interpolation.py:19-22 | the haversine term is unchanged when A and B are swapped |
| CoordinateInterpolation.DistanceSymmetric | propagation/coordinate_interpolation.py:13-30 | the distance from A to B equals the distance from B to A, including failure |
| CoordinateInterpolation.DistanceZeroAtSamePoint | propagation/coordinate_interpolation.py:13-30 | the distance from a point to itself is 0 |
| CoordinateInterpolation.RoundHalfEven | propagation/coordinate_interpolation.py:34 | round() gives an integer within 1/2 of x, and the even one on a tie |
| CoordinateInterpolation.RoundHalfEvenUnique | propagation/coordinate_interpolation.py:34 | any integer within 1/2 of x, even on a tie, is round(x) |
| CoordinateInterpolation.RoundHalfEvenOfInteger | propagation/coordinate_interpolation.py:34 | an integral value rounds to itself |
| CoordinateInterpolation.CalculateNumberOfPoints | propagation/coordinate_interpolation.py:32-36 | a distance error propagates; granularity 0 raises ZeroDivisionError; otherwise the count is the integer nearest to 1000 * distance / granularity, even on a tie |
| CoordinateInterpolation.NumberOfPointsNonNegative | propagation/coordinate_interpolation.py:32-36 | with a positive granularity the count is never negative |
| CoordinateInterpolation.Fraction | propagation/coordinate_interpolation.py:41 | i / d lies in [0, 1], is 0 exactly at i = 0 and 1 exactly at i = d |
| CoordinateInterpolation.Linspace | propagation/coordinate_interpolation.py:41 | linspace(0, 1, n): ValueError exactly for negative n; otherwise n samples in [0, 1], the first 0 and (for n >= 2) the last 1 |
| CoordinateInterpolation.LinspaceIncreasing | propagation/coordinate_interpolation.py:41 | the samples are strictly increasing |
| CoordinateInterpolation.LinspaceEquallySpaced | propagation/coordinate_interpolation.py:41 | consecutive samples differ by exactly 1 / (n - 1), so sample i is i / (n - 1) |
| CoordinateInterpolation.Lerp | propagation/coordinate_interpolation.py:43-44 | a + t(b - a) is a at t = 0, b at t = 1, and between a and b for t in [0, 1] |
| CoordinateInterpolation.InterpolateCoordinates | propagation/coordinate_interpolation.py:38-48 | count errors propagate and a negative count raises ValueError; otherwise there are exactly count pairs, the first is A, the last is B when there are at least two, and every pair lies between A and B in both coordinates |
| CoordinateInterpolation.InterpolationEquallySpaced | propagation/coordinate_interpolation.py:41-46 | consecutive pairs differ by exactly ((lat_b - lat_a) / (n - 1), (lon_b - lon_a) / (n - 1)): the points are evenly spaced on the segment from A to B, both coordinates at the same fraction of the way |
| CoordinateInterpolation.SamePointGivesNoPoints | propagation/coordinate_interpolation.py:32-41 | from a point to itself, with a non-zero granularity, the count is 0 and the list is empty |
| CoordinateInterpolation.InterpolationDefinedForPositiveGranularity | propagation/coordinate_interpolation.py:38-48 | when the distance is defined and the granularity is positive, interpolation succeeds |
| CoordinatesInterpolation.Entry | propagation/coordinates_interpolation.py:126 | an entry has exactly the keys "latitude" and "longitude", holding the two coordinates |
| CoordinatesInterpolation.InterpolateCoordinates | propagation/coordinates_interpolation.py:117-129 | the same failures and length as the pair variant; every entry has exactly the two keys and lies between A and B; the first entry is A, and the last is B when there are at least two |
| CoordinatesInterpolation.AgreesWithPairs | propagation/coordinates_interpolation.py:117-129 | the dictionary variant fails exactly when the pair variant does, with the same error, and entry i holds pair i |
| CoordinatesInterpolation.EntriesEquallySpaced | propagation/coordinates_interpolation.py:119-127 | consecutive dictionaries differ by exactly (lat_b - lat_a) / (n - 1) under "latitude" and (lon_b - lon_a) / (n - 1) under "longitude" |
| CoordinatesInterpolation.SamePointGivesNoEntries | propagation/coordinates_interpolation.py:100-129 | from a point to itself, with a non-zero granularity, the list of dictionaries is empty |
| KnifeEdgeDiffraction.CalcKnifeEdgeDiffraction | propagation/knife_edge_diffraction.py:59-63 | ZeroDivisionError exactly when lambda d_tx d_rx = 0; MathDomainError exactly when the quotient under the root is negative; otherwise v^2 = h^2 * 2(d_tx + d_rx) / (lambda d_tx d_rx), and v is positive (negative) exactly when h is and d_tx + d_rx != 0 |
| KnifeEdgeDiffraction.KnifeEdgeSymmetricInDistances | propagation/knife_edge_diffraction.py:60-61 | swapping the receiver and transmitter distances changes nothing |
| KnifeEdgeDiffraction.KnifeEdgeLinearInHeight | propagation/knife_edge_diffraction.py:59-62 | scaling h by k scales v by k, and whether the call fails does not depend on h |
| FresnelZone.CalcFresnelZone | propagation/fresnel_zone.py:49 | MathDomainError exactly when lambda d < 0; otherwise r >= 0 and r^2 = 0.09 lambda d |
| FresnelZone.FresnelZoneIsThreeTenthsOfRoot | propagation/fresnel_zone.py:49 | r = 0.3 sqrt(lambda d) |
| FresnelZone.FresnelZoneSymmetric | propagation/fresnel_zone.py:49 | wavelength and distance can be exchanged |
| FresnelZone.FresnelZoneZeroWhenEitherZero | propagation/fresnel_zone.py:49 | a zero wavelength or a zero distance gives radius 0 |
| FresnelZone.FresnelZoneMonotone | propagation/fresnel_zone.py:49 | the radius grows with lambda d |
| FresnelZoneStandalone.CalcFresnelZone | fresnel_zone.py:10 | MathDomainError exactly when lambda d < 0; otherwise r >= 0 and r^2 = 0.09 lambda d |
| FresnelZoneStandalone.AgreesWithPropagationCopy | fresnel_zone.py:9-10 | the top-level copy equals the propagation copy on every input, so the FresnelZone lemmas apply to it |

## Left out

- Module-level demonstration code (prompts, printing) in the NPDM, interpolation, knife-edge and Fresnel zone files: this is I/O, not logic.
- The elevation fetcher (an HTTP request) and the elevation profile plotter (plotting) are not part of this model.
- Floating point is not modelled. The model uses exact reals, so it does not capture rounding error, NaN or infinity, or the concrete values of sin, cos, exp, asin, sqrt and pi. Those functions are abstract and constrained only by `Lawful` and `Symmetric`. Nor does it capture `OverflowError`, which float `**` raises instead of giving infinity: `(lat - onset)**2` in the bite-out (electron_density_model/neustrelitz_peak_density_model.py:138) and `(g - crest)**2` in the crests (:383, :402) overflow for magnitudes above about 1.3e154. The "fails exactly when" contracts of SummerDaytimeBiteOut, LocalTimeF1 and IonizationCrestF4 therefore hold only for inputs below that size.
- Periodicity of sin and cos is not assumed. No property here needs it.
- The unit of the geomagnetic latitude in F4 (degrees or radians) is not resolved. The arithmetic is transcribed with the crest latitudes 16 and -15 as written.
- NeustrelitzPeakDensityModel.HalfWidth: the local time is an integer, so `(t - 14)**2` is an exact square. The model takes it as a real square.
- NeustrelitzPeakDensityModel.LocalTimeF1: its contract states when F1 fails and which coefficient slots it reads. It gives no numeric range for F1 itself. Its two variable parts are bounded separately, by HarmonicsBounded and by SummerDaytimeBiteOut.
- NeustrelitzPeakDensityModel.IonizationCrestF4: its contract states only the failure case. Its range is stated separately in IonizationCrestF4Bounded, for non-negative crest coefficients.
- NeustrelitzPeakDensityModel.SolarActivityF5: its contract states only the failure case. Its value is characterised by SolarActivityF5AtZeroFlux and SolarActivityF5Affine.
- CoordinateInterpolation.CalculateDistanceKm: the distance is not compared with the true great-circle distance, which would need the geometry of the sphere. Only the failure cases, non-negativity, symmetry and the zero distance are stated.
- CoordinatesInterpolation.InterpolateCoordinates: the dictionary variant's distance and point count are the pair variant's expressions, so the model reuses those functions instead of transcribing them twice.
- Python's `list(zip(...))` and list comprehension over numpy arrays are modelled as sequences built index by index. numpy's float64 arrays are not modelled.
