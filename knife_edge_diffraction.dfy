/** The Fresnel-Kirchhoff diffraction parameter of a single knife-edge
    obstruction: v = h * sqrt(2 (d_tx + d_rx) / (lambda d_tx d_rx)), for an
    obstruction of height h at distances d_tx and d_rx from transmitter and
    receiver and a wavelength lambda (metres). */
module KnifeEdgeDiffraction {
  import opened Errors
  import opened Elementary
  import RealFacts

  /** KnifeEdgeDiffraction.calc_knife_edge_diffraction. Python raises
      ZeroDivisionError when the denominator lambda * d_tx * d_rx is zero and
      a math domain error when the quotient under the root is negative.
      Otherwise v squared is h squared times that quotient, and v has the sign
      of h (it is zero when h is, or when d_tx + d_rx is). */
  function CalcKnifeEdgeDiffraction(
    m: Functions,
    distanceReceiverObstruction: real,
    distanceTransmitterObstruction: real,
    heightObstruction: real,
    wavelengthMeter: real): (v: Result<real>)
    requires Lawful(m)
    ensures v == Err(ZeroDivisionError)
        <==> wavelengthMeter * distanceTransmitterObstruction * distanceReceiverObstruction == 0.0
    ensures v == Err(MathDomainError)
        <==> wavelengthMeter * distanceTransmitterObstruction * distanceReceiverObstruction != 0.0
             && 2.0 * (distanceTransmitterObstruction + distanceReceiverObstruction)
                / (wavelengthMeter * distanceTransmitterObstruction * distanceReceiverObstruction) < 0.0
    ensures v.Ok? ==>
      v.value * v.value
        == heightObstruction * heightObstruction
           * (2.0 * (distanceTransmitterObstruction + distanceReceiverObstruction)
              / (wavelengthMeter * distanceTransmitterObstruction * distanceReceiverObstruction))
    ensures v.Ok? ==>
      (v.value > 0.0 <==> heightObstruction > 0.0 && distanceTransmitterObstruction + distanceReceiverObstruction != 0.0)
    ensures v.Ok? ==>
      (v.value < 0.0 <==> heightObstruction < 0.0 && distanceTransmitterObstruction + distanceReceiverObstruction != 0.0)
  {
    var denominator := wavelengthMeter * distanceTransmitterObstruction * distanceReceiverObstruction;
    if denominator == 0.0 then Err(ZeroDivisionError)
    else
      var radicand := (2.0 * (distanceTransmitterObstruction + distanceReceiverObstruction)) / denominator;
      if radicand < 0.0 then Err(MathDomainError)
      else
        var root := m.sqrt(radicand);
        assert root * root == radicand;
        SignOfScaledRoot(heightObstruction, root, radicand, distanceTransmitterObstruction + distanceReceiverObstruction, denominator);
        Ok(heightObstruction * root)
  }

  /** h * root has the sign of h when root is the non-negative root of a
      quotient whose numerator is 2 * sum; the root is 0 exactly when the sum is. */
  lemma SignOfScaledRoot(h: real, root: real, radicand: real, sum: real, denominator: real)
    requires denominator != 0.0 && radicand == 2.0 * sum / denominator
    requires 0.0 <= root && root * root == radicand
    ensures (h * root)* (h * root) == h * h * radicand
    ensures h * root > 0.0 <==> h > 0.0 && sum != 0.0
    ensures h * root < 0.0 <==> h < 0.0 && sum != 0.0
  {
    if sum == 0.0 {
      assert radicand == 0.0;
      RealFacts.ZeroProduct(root, root);
    } else if h > 0.0 {
      assert radicand != 0.0;
      RealFacts.PositiveProduct(h, root);
    } else if h < 0.0 {
      assert radicand != 0.0;
      RealFacts.PositiveProduct(-h, root);
    }
  }

  /** Exchanging the transmitter and receiver distances changes nothing. */
  lemma KnifeEdgeSymmetricInDistances(m: Functions, dRx: real, dTx: real, h: real, wavelength: real)
    requires Lawful(m)
    ensures CalcKnifeEdgeDiffraction(m, dRx, dTx, h, wavelength)
         == CalcKnifeEdgeDiffraction(m, dTx, dRx, h, wavelength)
  {
    assert wavelength * dTx * dRx == wavelength * dRx * dTx;
    assert dTx + dRx == dRx + dTx;
  }

  /** The parameter is linear in the obstruction height: scaling h by k scales
      v by k, and whether the call fails does not depend on h. */
  lemma KnifeEdgeLinearInHeight(m: Functions, dRx: real, dTx: real, h: real, k: real, wavelength: real)
    requires Lawful(m)
    ensures CalcKnifeEdgeDiffraction(m, dRx, dTx, k * h, wavelength).Ok?
        == CalcKnifeEdgeDiffraction(m, dRx, dTx, h, wavelength).Ok?
    ensures CalcKnifeEdgeDiffraction(m, dRx, dTx, h, wavelength).Ok? ==>
      CalcKnifeEdgeDiffraction(m, dRx, dTx, k * h, wavelength).value
        == k * CalcKnifeEdgeDiffraction(m, dRx, dTx, h, wavelength).value
  {
  }
}
