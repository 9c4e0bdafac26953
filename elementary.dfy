/** Python's `math` module as the model sees it. The transcendental functions
    and the constant pi are not computed: they are supplied as a value of
    `Functions`, and `Lawful` and `Symmetric` list the only facts about them
    that the proofs may use. Every real realisation of sin, cos, exp, asin,
    sqrt and pi satisfies both, so nothing proved here depends on a particular
    floating-point library. */
module Elementary {
  import RealFacts

  datatype Functions = Functions(
    sin: real -> real,
    cos: real -> real,
    exp: real -> real,
    asin: real -> real,
    sqrt: real -> real,
    pi: real)

  ghost predicate Lawful(m: Functions) {
    && m.pi > 0.0
    // sin and cos are bounded, and cos(0) = 1
    && (forall x :: -1.0 <= m.sin(x) <= 1.0)
    && (forall x :: -1.0 <= m.cos(x) <= 1.0)
    && m.cos(0.0) == 1.0
    // exp is positive, at most 1 on the non-positive half-line, and 1 only at 0
    && (forall x :: m.exp(x) > 0.0)
    && (forall x :: x <= 0.0 ==> m.exp(x) <= 1.0)
    && (forall x :: m.exp(x) == 1.0 <==> x == 0.0)
    // asin(0) = 0 and asin is non-negative on [0, 1]
    && m.asin(0.0) == 0.0
    && (forall x :: 0.0 <= x <= 1.0 ==> m.asin(x) >= 0.0)
    // sqrt gives the non-negative square root of a non-negative argument
    && (forall x :: 0.0 <= x ==> 0.0 <= m.sqrt(x) && m.sqrt(x) * m.sqrt(x) == x)
  }

  /** sin is odd and cos is even. Kept apart from `Lawful` and required only
      where a proof needs it: these facts relate every pair of sine (or
      cosine) terms in scope, which makes large formulas slow to reason
      about. */
  ghost predicate Symmetric(m: Functions) {
    && (forall x, y :: x == -y ==> m.sin(x) == -m.sin(y))
    && (forall x, y :: x == -y ==> m.cos(x) == m.cos(y))
  }

  /** math.radians */
  function Radians(m: Functions, degrees: real): (r: real)
    requires Lawful(m)
    ensures r * 180.0 == degrees * m.pi
  {
    degrees * (m.pi / 180.0)
  }

  /** The sine of 0 is 0: a consequence of sin being odd. */
  lemma SinZero(m: Functions)
    requires Symmetric(m)
    ensures m.sin(0.0) == 0.0
  {
    assert 0.0 == -0.0;
  }

  /** The square root is unique: a non-negative y with y * y == x is sqrt(x). */
  lemma SqrtUnique(m: Functions, x: real, y: real)
    requires Lawful(m)
    requires 0.0 <= y && y * y == x
    ensures m.sqrt(x) == y
  {
    var s := m.sqrt(x);
    assert 0.0 <= s && s * s == x;
    assert (s - y) * (s + y) == 0.0;
    RealFacts.ZeroProduct(s - y, s + y);
  }
}
