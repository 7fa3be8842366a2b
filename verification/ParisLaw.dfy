/** Paris's law with the residual-stress corrections. Square root, power and the trigonometric
    functions are parameters with the few properties the proofs use; arithmetic is over the reals. */
module ParisLaw {
  import opened GrowthSeries
  import opened Reals
  import opened RungeKutta

  // `undefined` is what a result that is not a number is recorded as.
  datatype Calculus = Calculus(sqrt: real -> real, pow: (real, real) -> real, cos: real -> real, sin: real -> real,
                               pi: real, undefined: real)

  ghost predicate Sane(c: Calculus) {
    && c.pi > 0.0 && c.cos(0.0) == 1.0 && c.sin(0.0) == 0.0
    && (forall x: real, y: real {:trigger c.sqrt(x), c.sqrt(y)} :: 0.0 <= x <= y ==> 0.0 <= c.sqrt(x) <= c.sqrt(y))
    && (forall e: real, x: real, y: real {:trigger c.pow(x, e), c.pow(y, e)} ::
          e >= 0.0 && 0.0 <= x <= y ==> 0.0 <= c.pow(x, e) <= c.pow(y, e))
  }

  // Positive arguments have positive roots and powers.
  ghost predicate Strict(c: Calculus) {
    && c.sqrt(0.0) == 0.0 && (forall x: real :: x > 0.0 ==> c.sqrt(x) > 0.0)
    && (forall x: real, e: real :: x > 0.0 ==> c.pow(x, e) > 0.0)
  }

  // The square root, the square and the cube.
  ghost predicate Exact(c: Calculus) {
    forall x: real :: x >= 0.0 ==>
      c.sqrt(x) >= 0.0 && c.sqrt(x) * c.sqrt(x) == x && c.pow(x, 2.0) == x * x && c.pow(x, 3.0) == x * x * x
  }

  // The members of ParisLawParameters that the model reads.
  datatype Parameters = Parameters(C: real, m: real, maximumStress: real, minimumStress: real, residualParallel: real,
                                   residualPerpendicular: real, calibration: real, toughness: real,
                                   geometricFactor: real, frequency: real, correction: bool)

  const DEFAULTS := Parameters(0.00000000015, 3.0, 25000000.0, 2500000.0, -35000000.0, -20000000.0, 1.0, 1000000.0, 1.0,
                               1.0 / 10800.0, true)

  ghost predicate Plausible(c: Calculus, p: Parameters) {
    Sane(c) && p.C >= 0.0 && p.m >= 0.0 && p.frequency >= 0.0
  }

  // ------------------------------------------------- formulas

  function EffectiveStress(c: Calculus, p: Parameters, applied: real, angle: real): real {
    if !p.correction then applied else
    var cos2 := c.cos(angle) * c.cos(angle);
    var sin2 := c.sin(angle) * c.sin(angle);
    applied + 0.4 * (p.residualParallel * p.calibration * cos2 + p.residualPerpendicular * p.calibration * sin2)
  }

  // The stress that calculate_stress_intensity works with.
  function CorrectedStress(p: Parameters, stress: real): real {
    if !p.correction then stress else
    var parallel := p.residualParallel * p.calibration;
    var perpendicular := p.residualPerpendicular * p.calibration;
    var kSigma := 1.0 + (parallel + perpendicular) / (2.0 * Abs(stress) + 1.0);
    stress * kSigma + 0.3 * parallel
  }

  function Load(p: Parameters, stress: real): real { p.geometricFactor * CorrectedStress(p, stress) }

  function Root(c: Calculus, length: real): real { c.sqrt(c.pi * length) }

  function StressIntensity(c: Calculus, p: Parameters, length: real, stress: real): real {
    Load(p, stress) * Root(c, length)
  }

  function DeltaK(c: Calculus, p: Parameters, length: real): real {
    StressIntensity(c, p, length, EffectiveStress(c, p, p.maximumStress, 0.0))
    - StressIntensity(c, p, length, EffectiveStress(c, p, p.minimumStress, 0.0))
  }

  function GrowthRate(c: Calculus, p: Parameters, deltaK: real): real {
    if deltaK <= 0.0 then 0.0 else p.C * c.pow(deltaK, p.m)
  }

  // With a zero denominator the quotient is infinite, or, zero by zero, not a number.
  function CriticalLength(c: Calculus, p: Parameters): Limit
    requires c.pi != 0.0
  {
    var applied := p.geometricFactor * p.maximumStress;
    if applied != 0.0 then At(c.pow(p.toughness / applied, 2.0) / c.pi)
    else if p.toughness != 0.0 then Never
    else Undefined
  }

  // Growth per second.
  function Paris(c: Calculus, p: Parameters): real -> real {
    length => GrowthRate(c, p, DeltaK(c, p, length)) * p.frequency
  }

  // The stress range that drives growth, per unit of sqrt(pi * length).
  function Drive(c: Calculus, p: Parameters): real {
    Load(p, EffectiveStress(c, p, p.maximumStress, 0.0)) - Load(p, EffectiveStress(c, p, p.minimumStress, 0.0))
  }

  lemma DeltaKIsDriven(c: Calculus, p: Parameters, length: real)
    ensures DeltaK(c, p, length) == Drive(c, p) * Root(c, length)
  {
    hide Load, Root, EffectiveStress;
    Difference(Load(p, EffectiveStress(c, p, p.maximumStress, 0.0)),
               Load(p, EffectiveStress(c, p, p.minimumStress, 0.0)), Root(c, length));
  }

  lemma Difference(x: real, y: real, r: real)
    ensures x * r - y * r == (x - y) * r
  {
  }

  // ------------------------------------------------- what the corrections do

  // By how much residual stress shifts an applied stress, and how much it amplifies.
  function Offset(c: Calculus, p: Parameters): real { EffectiveStress(c, p, 0.0, 0.0) }

  function Residual(p: Parameters): real { p.calibration * (p.residualParallel + p.residualPerpendicular) }

  function Saturation(x: real): real { x / (2.0 * Abs(x) + 1.0) }

  // The corrected stress range, in the parameters.
  function Span(c: Calculus, p: Parameters): real {
    if !p.correction then p.maximumStress - p.minimumStress else
    p.maximumStress - p.minimumStress
    + Residual(p) * (Saturation(p.maximumStress + Offset(c, p)) - Saturation(p.minimumStress + Offset(c, p)))
  }

  lemma SaturationIncreases(x: real, y: real)
    requires x < y
    ensures Saturation(x) < Saturation(y)
  {
    var d, e := 2.0 * Abs(x) + 1.0, 2.0 * Abs(y) + 1.0;
    assert x * e < y * d by { CrossProducts(x, y); }
    QuotientsOrdered(x, y, d, e);
  }

  lemma CrossProducts(x: real, y: real)
    requires x < y
    ensures x * (2.0 * Abs(y) + 1.0) < y * (2.0 * Abs(x) + 1.0)
  {
    if x >= 0.0 || y <= 0.0 {
      assert x * Abs(y) == y * Abs(x);
    } else {
      assert x * Abs(y) <= 0.0 <= y * Abs(x);
    }
  }

  lemma QuotientsOrdered(x: real, y: real, d: real, e: real)
    requires d > 0.0 && e > 0.0 && x * e < y * d
    ensures x / d < y / e
  {
    var q, r := x / d, y / e;
    assert q * d == x && r * e == y;
    assert q * d * e == x * e && r * e * d == y * d;
    assert (r - q) * (d * e) > 0.0;
    assert d * e > 0.0;
  }

  lemma Corrected(p: Parameters, x: real)
    requires p.correction
    ensures CorrectedStress(p, x) == x + Residual(p) * Saturation(x) + 0.3 * (p.residualParallel * p.calibration)
  {
    var r, d := p.residualParallel * p.calibration + p.residualPerpendicular * p.calibration, 2.0 * Abs(x) + 1.0;
    assert r == Residual(p);
    Amplified(x, r, d);
  }

  lemma Amplified(x: real, r: real, d: real)
    requires d > 0.0
    ensures x * (1.0 + r / d) == x + r * (x / d)
  {
    assert x * (r / d) == r * (x / d) by { SameQuotient(x, r, d); }
  }

  lemma SameQuotient(x: real, r: real, d: real)
    requires d > 0.0
    ensures x * (r / d) == r * (x / d)
  {
    var q := 1.0 / d;
    assert r / d == r * q && x / d == x * q;
  }

  lemma EffectiveShifts(c: Calculus, p: Parameters, applied: real)
    ensures EffectiveStress(c, p, applied, 0.0) == applied + (if p.correction then Offset(c, p) else 0.0)
  {
  }

  /** The stress intensity of a stress: the stress itself, what residual stress amplifies of it, which is none
      at rest, and three tenths of the residual stress along the crack; that last part is the same for both
      ends of the range and cancels in it. */
  lemma IntensityInParts(c: Calculus, p: Parameters, length: real, stress: real)
    requires p.correction
    ensures var along, across := p.residualParallel * p.calibration, p.residualPerpendicular * p.calibration;
      StressIntensity(c, p, length, stress) ==
        p.geometricFactor * (stress + (along + across) * (stress / (2.0 * Abs(stress) + 1.0)) + 0.3 * along)
          * Root(c, length)
  {
    hide CorrectedStress, Root;
    var along, across := p.residualParallel * p.calibration, p.residualPerpendicular * p.calibration;
    Corrected(p, stress);
    assert Residual(p) == along + across;
  }

  /** The shift is four tenths of the residual stress along the crack; that across it has no part in it. */
  lemma OffsetIsParallel(c: Calculus, p: Parameters)
    requires Sane(c) && p.correction
    ensures Offset(c, p) == 0.4 * (p.residualParallel * p.calibration)
  {
    var x, y := p.residualParallel * p.calibration, p.residualPerpendicular * p.calibration;
    assert x * (c.cos(0.0) * c.cos(0.0)) == x && y * (c.sin(0.0) * c.sin(0.0)) == 0.0;
  }

  /** The load that drives growth is the corrected range times the geometric factor. */
  lemma DriveIsSpan(c: Calculus, p: Parameters)
    ensures Drive(c, p) == p.geometricFactor * Span(c, p)
  {
    hide CorrectedStress, EffectiveStress, Saturation, Residual, Offset;
    EffectiveShifts(c, p, p.maximumStress);
    EffectiveShifts(c, p, p.minimumStress);
    var x, y := EffectiveStress(c, p, p.maximumStress, 0.0), EffectiveStress(c, p, p.minimumStress, 0.0);
    if p.correction {
      Corrected(p, x);
      Corrected(p, y);
      Difference(Saturation(x), Saturation(y), Residual(p));
      assert Residual(p) * (Saturation(x) - Saturation(y)) == Residual(p) * Saturation(x) - Residual(p) * Saturation(y);
    } else {
      Uncorrected(p, x);
      Uncorrected(p, y);
    }
    Difference(CorrectedStress(p, x), CorrectedStress(p, y), p.geometricFactor);
    assert p.geometricFactor * CorrectedStress(p, x) == CorrectedStress(p, x) * p.geometricFactor;
    assert p.geometricFactor * CorrectedStress(p, y) == CorrectedStress(p, y) * p.geometricFactor;
  }

  lemma Uncorrected(p: Parameters, x: real)
    requires !p.correction
    ensures CorrectedStress(p, x) == x
  {
  }

  /** The corrections leave the applied range as it is exactly when they are off, the residual
      stresses cancel, or there is no range. */
  lemma SpanUnchangedIff(c: Calculus, p: Parameters)
    ensures Span(c, p) == p.maximumStress - p.minimumStress <==>
      !p.correction || p.calibration == 0.0 || p.residualParallel + p.residualPerpendicular == 0.0
      || p.maximumStress == p.minimumStress
  {
    hide Offset, Saturation;
    var x, y := p.maximumStress + Offset(c, p), p.minimumStress + Offset(c, p);
    if x < y { SaturationIncreases(x, y); }
    if y < x { SaturationIncreases(y, x); }
    ZeroProduct(p.calibration, p.residualParallel + p.residualPerpendicular);
    ZeroProduct(Residual(p), Saturation(x) - Saturation(y));
  }

  /** The documented range, geometric factor times applied stress range times the root, is what the
      code computes exactly when the corrections are off or the residual stresses cancel, or one of
      the factors is zero. */
  lemma DocumentedRangeIff(c: Calculus, p: Parameters, length: real)
    requires Strict(c) && c.pi > 0.0 && length >= 0.0
    ensures DeltaK(c, p, length) == p.geometricFactor * (p.maximumStress - p.minimumStress) * Root(c, length) <==>
      !p.correction || p.calibration == 0.0 || p.residualParallel + p.residualPerpendicular == 0.0
      || p.maximumStress == p.minimumStress || p.geometricFactor == 0.0 || length == 0.0
  {
    hide *;
    DeltaKIsDriven(c, p, length);
    DriveIsSpan(c, p);
    SpanUnchangedIff(c, p);
    RootZeroIff(c, length);
    SameProduct(p.geometricFactor, Span(c, p), p.maximumStress - p.minimumStress, Root(c, length), Drive(c, p));
  }

  lemma RootZeroIff(c: Calculus, length: real)
    requires Strict(c) && c.pi > 0.0 && length >= 0.0
    ensures Root(c, length) >= 0.0 && (Root(c, length) == 0.0 <==> length == 0.0)
  {
    if length > 0.0 { assert c.pi * length > 0.0; } else { assert c.pi * length == 0.0; }
  }

  lemma SameProduct(y: real, s: real, t: real, r: real, d: real)
    requires d == y * s
    ensures d * r == y * t * r <==> s == t || y == 0.0 || r == 0.0
  {
    assert d * r - y * t * r == y * (s - t) * r;
    if s != t && y != 0.0 && r != 0.0 {
      assert y * (s - t) != 0.0;
      assert y * (s - t) * r != 0.0;
    }
  }

  lemma RootMonotone(c: Calculus, a: real, b: real)
    requires Sane(c) && 0.0 <= a <= b
    ensures 0.0 <= Root(c, a) <= Root(c, b)
  {
    ScaledBy(c.pi, a, b);
    RootsOrdered(c, c.pi * a, c.pi * b);
  }

  lemma RootsOrdered(c: Calculus, x: real, y: real)
    requires Sane(c) && 0.0 <= x <= y
    ensures 0.0 <= c.sqrt(x) <= c.sqrt(y)
  {
  }

  lemma RootSquared(c: Calculus, a: real)
    requires Exact(c) && c.pi * a >= 0.0
    ensures Root(c, a) >= 0.0 && Root(c, a) * Root(c, a) == c.pi * a
  {
  }

  /** The critical length is where the stress intensity at the highest applied stress reaches the
      toughness; without a load no length is critical, unless the toughness is zero too, when the
      source compares with no number. */
  lemma CriticalIff(c: Calculus, p: Parameters, a: real)
    requires Exact(c) && c.pi > 0.0 && a >= 0.0 && p.toughness >= 0.0 && p.geometricFactor * p.maximumStress >= 0.0
    ensures var load := p.geometricFactor * p.maximumStress;
      && (Reached(CriticalLength(c, p), a) <==> load > 0.0 && load * Root(c, a) >= p.toughness)
      && (Below(CriticalLength(c, p), a) <==> load * Root(c, a) < p.toughness)
  {
    hide Root, CriticalLength, Exact;
    var load := p.geometricFactor * p.maximumStress;
    assert c.pi * a >= 0.0;
    RootSquared(c, a);
    if load == 0.0 {
      CriticalWithoutLoad(c, p);
    } else {
      var q := p.toughness / load;
      CriticalAt(c, p, q);
      assert c.pi * a == Root(c, a) * Root(c, a);
      RootAtLeast(p.toughness, load, q, c.pi, a, Root(c, a));
    }
  }

  lemma CriticalWithoutLoad(c: Calculus, p: Parameters)
    requires c.pi > 0.0 && p.geometricFactor * p.maximumStress == 0.0
    ensures CriticalLength(c, p) == if p.toughness != 0.0 then Never else Undefined
  {
  }

  lemma CriticalAt(c: Calculus, p: Parameters, q: real)
    requires Exact(c) && c.pi > 0.0 && p.geometricFactor * p.maximumStress > 0.0 && q >= 0.0
    requires q == p.toughness / (p.geometricFactor * p.maximumStress)
    ensures CriticalLength(c, p) == At(q * q / c.pi)
  {
  }

  lemma RootAtLeast(t: real, load: real, q: real, pi: real, a: real, r: real)
    requires load > 0.0 && pi > 0.0 && t >= 0.0 && q == t / load && r >= 0.0 && r * r == pi * a
    ensures q >= 0.0 && (q * q / pi <= a <==> t <= load * r)
  {
    assert q * load == t;
    assert q >= 0.0;
    QuotientAtMost(q * q, pi, a);
    SquaresOrdered(q, r);
    ProductsOrdered(load, q, r);
  }

  lemma QuotientAtMost(x: real, pi: real, a: real)
    requires pi > 0.0
    ensures x / pi <= a <==> x <= pi * a
  {
    var q := x / pi;
    assert q * pi == x;
    assert (a - q) * pi == a * pi - x;
    if q <= a { assert (a - q) * pi >= 0.0; } else { assert (q - a) * pi > 0.0; }
  }

  lemma SquaresOrdered(q: real, r: real)
    requires q >= 0.0 && r >= 0.0
    ensures q * q <= r * r <==> q <= r
  {
    if q <= r {
      assert (r - q) * (r + q) >= 0.0;
      assert (r - q) * (r + q) == r * r - q * q;
    } else {
      var e := q - r;
      assert q * q == r * r + 2.0 * (r * e) + e * e;
      assert r * e >= 0.0 && e * e > 0.0;
    }
  }

  lemma ProductsOrdered(d: real, x: real, y: real)
    requires d > 0.0
    ensures d * x <= d * y <==> x <= y
  {
    assert d * y - d * x == d * (y - x);
    if x <= y { assert d * (y - x) >= 0.0; } else { assert d * (x - y) > 0.0; }
  }

  lemma NoDriveNoGrowth(c: Calculus, p: Parameters, length: real)
    requires Sane(c) && length >= 0.0 && Drive(c, p) <= 0.0
    ensures DeltaK(c, p, length) <= 0.0 && Paris(c, p)(length) == 0.0
  {
    hide Drive, DeltaK, Root;
    DeltaKIsDriven(c, p, length);
    RootMonotone(c, length, length);
    Scaled(0.0, -Drive(c, p), Root(c, length));
    Difference(0.0, Drive(c, p), Root(c, length));
  }

  lemma ParisMonotone(c: Calculus, p: Parameters, a: real, b: real)
    requires Plausible(c, p) && 0.0 <= a <= b
    ensures 0.0 <= Paris(c, p)(a) <= Paris(c, p)(b)
  {
    hide Drive, DeltaK, Root, GrowthRate;
    if Drive(c, p) <= 0.0 {
      NoDriveNoGrowth(c, p, a);
      NoDriveNoGrowth(c, p, b);
    } else {
      RootMonotone(c, a, b);
      DeltaKIsDriven(c, p, a);
      DeltaKIsDriven(c, p, b);
      ScaledBy(Drive(c, p), Root(c, a), Root(c, b));
      RateMonotone(c, p, DeltaK(c, p, a), DeltaK(c, p, b));
      Scaled(GrowthRate(c, p, DeltaK(c, p, a)), GrowthRate(c, p, DeltaK(c, p, b)), p.frequency);
    }
  }

  /** The recorded rate is no smaller for a longer crack. */
  lemma RatesGrow(c: Calculus, p: Parameters, a: real, b: real)
    requires Plausible(c, p) && 0.0 <= a <= b
    ensures GrowthRate(c, p, DeltaK(c, p, a)) <= GrowthRate(c, p, DeltaK(c, p, b))
  {
    hide Drive, DeltaK, Root, GrowthRate;
    if Drive(c, p) <= 0.0 {
      NoDriveNoRate(c, p, a);
      NoDriveNoRate(c, p, b);
    } else {
      RootMonotone(c, a, b);
      DeltaKIsDriven(c, p, a);
      DeltaKIsDriven(c, p, b);
      ScaledBy(Drive(c, p), Root(c, a), Root(c, b));
      RateMonotone(c, p, DeltaK(c, p, a), DeltaK(c, p, b));
    }
  }

  lemma NoDriveNoRate(c: Calculus, p: Parameters, length: real)
    requires Sane(c) && length >= 0.0 && Drive(c, p) <= 0.0
    ensures GrowthRate(c, p, DeltaK(c, p, length)) == 0.0
  {
    hide Drive, DeltaK, Root, Paris;
    NoDriveNoGrowth(c, p, length);
  }

  lemma ScaledBy(d: real, x: real, y: real)
    requires 0.0 <= x <= y && 0.0 <= d
    ensures 0.0 <= d * x <= d * y
  {
  }

  lemma RateMonotone(c: Calculus, p: Parameters, x: real, y: real)
    requires Plausible(c, p) && 0.0 <= x <= y
    ensures 0.0 <= GrowthRate(c, p, x) <= GrowthRate(c, p, y)
  {
    assert 0.0 <= c.pow(x, p.m) <= c.pow(y, p.m);
    ScaledBy(p.C, c.pow(x, p.m), c.pow(y, p.m));
  }

  /** Whatever the stresses, Paris's law with the corrections is a growth law. */
  lemma ParisIsLaw(c: Calculus, p: Parameters)
    requires Plausible(c, p)
    ensures Law(Paris(c, p))
  {
    var g := Paris(c, p);
    forall a: real, b: real | 0.0 <= a <= b ensures 0.0 <= g(a) <= g(b) { ParisMonotone(c, p, a, b); }
  }

  /** When cracks grow at all: with a positive law, exactly when the corrected range times the
      geometric factor is positive. */
  lemma GrowsIff(c: Calculus, p: Parameters, length: real)
    requires Strict(c) && c.pi > 0.0 && p.C > 0.0 && p.frequency > 0.0 && length > 0.0
    ensures Paris(c, p)(length) > 0.0 <==> p.geometricFactor * Span(c, p) > 0.0
  {
    hide Drive, DeltaK, Root, Span;
    DriveIsSpan(c, p);
    DeltaKIsDriven(c, p, length);
    RootZeroIff(c, length);
    SignOfProduct(Drive(c, p), Root(c, length));
    if DeltaK(c, p, length) > 0.0 { PositivePower(c, p, DeltaK(c, p, length)); }
  }

  lemma SignOfProduct(x: real, r: real)
    requires r > 0.0
    ensures x * r > 0.0 <==> x > 0.0
  {
  }

  lemma PositivePower(c: Calculus, p: Parameters, x: real)
    requires Strict(c) && p.C > 0.0 && p.frequency > 0.0 && x > 0.0
    ensures p.C * c.pow(x, p.m) * p.frequency > 0.0
  {
    assert c.pow(x, p.m) > 0.0;
    assert p.C * c.pow(x, p.m) > 0.0;
  }

  /** With the default parameters the corrections turn the stress range negative. */
  lemma DefaultDriveIsNegative(c: Calculus)
    requires Sane(c)
    ensures Drive(c, DEFAULTS) < 0.0
  {
    assert EffectiveStress(c, DEFAULTS, DEFAULTS.maximumStress, 0.0) == 11000000.0;
    assert EffectiveStress(c, DEFAULTS, DEFAULTS.minimumStress, 0.0) == -11500000.0;
  }
}
