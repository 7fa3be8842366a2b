/** What a prediction comes to where it can be worked out by hand: corrections off, exponent two, and
    the square root and the square as they are. Growth is then proportional to the length. */
module ClosedForms {
  import opened Common
  import opened CrackGrowth
  import opened GrowthSeries
  import opened ParisLaw
  import opened Predictions
  import opened RungeKutta

  function Compound(q: real, k: nat): real { if k == 0 then 1.0 else q * Compound(q, k - 1) }

  // ------------------------------------------------- growth proportional to the length

  // The parameters for which the law is proportional to the length.
  ghost predicate Proportional(c: Calculus, p: Parameters) {
    && Plausible(c, p) && Exact(c) && p.m == 2.0 && !p.correction
    && p.geometricFactor * (p.maximumStress - p.minimumStress) > 0.0
  }

  // How much a length of one grows in a second.
  function UnitRate(c: Calculus, p: Parameters): real {
    var load := p.geometricFactor * (p.maximumStress - p.minimumStress);
    p.C * (load * load * c.pi) * p.frequency
  }

  lemma ProportionalRange(c: Calculus, p: Parameters, length: real)
    requires Proportional(c, p) && length >= 0.0
    ensures var load, k := p.geometricFactor * (p.maximumStress - p.minimumStress), DeltaK(c, p, length);
      k >= 0.0 && k * k == load * load * c.pi * length
  {
    hide DeltaK, Drive, Root, Exact;
    var load, root := p.geometricFactor * (p.maximumStress - p.minimumStress), Root(c, length);
    DriveIsSpan(c, p);
    DeltaKIsDriven(c, p, length);
    assert c.pi * length >= 0.0;
    RootSquared(c, length);
    SquareOfProduct(load, root, c.pi, length);
  }

  lemma SquareOfProduct(load: real, root: real, pi: real, length: real)
    requires load > 0.0 && root >= 0.0 && root * root == pi * length
    ensures load * root >= 0.0 && (load * root) * (load * root) == load * load * pi * length
  {
    assert (load * root) * (load * root) == load * load * (root * root);
    assert load * load * (pi * length) == load * load * pi * length;
  }

  lemma SquareAt(c: Calculus, x: real)
    requires Exact(c) && x >= 0.0
    ensures c.pow(x, 2.0) == x * x
  {
    var root := c.sqrt(x);
  }

  lemma ProportionalRate(c: Calculus, p: Parameters, length: real)
    requires Proportional(c, p) && length >= 0.0
    ensures var k := DeltaK(c, p, length); GrowthRate(c, p, k) == p.C * (k * k)
    ensures Paris(c, p)(length) == UnitRate(c, p) * length
  {
    hide DeltaK, Exact;
    ProportionalRange(c, p, length);
    var k, load := DeltaK(c, p, length), p.geometricFactor * (p.maximumStress - p.minimumStress);
    SquareAt(c, k);
    if k == 0.0 { assert k * k == 0.0; }
    Reordered(p.C, load * load * c.pi, length, p.frequency);
  }

  lemma Reordered(x: real, y: real, z: real, f: real)
    ensures x * (y * z) * f == x * y * f * z
  {
  }

  // Laws that agree on lengths agree on a step.
  lemma SameIncrement(g: real -> real, h: real -> real, dt: real, a: real)
    requires Law(g) && dt >= 0.0 && a >= 0.0 && forall x: real :: x >= 0.0 ==> g(x) == h(x)
    ensures Increment(g, dt, a) == Increment(h, dt, a)
  {
    hide Law, Mean, K1, Slope;
    StagesIncrease(g, dt, a);
    SlopeAtRest(g, dt, a);
    SlopeAtRest(h, dt, a);
    SameSlope(g, h, dt, a, 0.0);
    SameSlope(g, h, dt, a, 0.5 * K1(g, dt, a));
    SameSlope(g, h, dt, a, 0.5 * K2(g, dt, a));
    SameSlope(g, h, dt, a, K3(g, dt, a));
  }

  lemma SameSlope(g: real -> real, h: real -> real, dt: real, a: real, x: real)
    requires dt >= 0.0 && a >= 0.0 && x >= 0.0 && forall y: real :: y >= 0.0 ==> g(y) == h(y)
    ensures Slope(g, dt, a, x) == Slope(h, dt, a, x)
  {
    var moved := Moved(a, x, dt);
    assert x * dt >= 0.0;
    assert g(moved) == h(moved);
  }

  // The exponential up to its fourth-order term.
  function Exp4(z: real): real { 1.0 + z + z * z / 2.0 + z * z * z / 6.0 + z * z * z * z / 24.0 }

  // One step multiplies the length.
  lemma StepMultiplies(g: real -> real, r: real, dt: real, z: real, a: real)
    requires Law(g) && dt >= 0.0 && a >= 0.0 && (forall x: real :: x >= 0.0 ==> g(x) == r * x) && z == r * dt * dt
    ensures Stepper(g, dt)(a) == a * Exp4(z)
  {
    hide Law, Increment;
    var h := (x: real) => r * x;
    SameIncrement(g, h, dt, a);
    LinearLaw(h, r, dt, a);
  }

  lemma {:induction false} Multiplied(f: real -> real, q: real, a: real, k: nat)
    requires q >= 0.0 && a >= 0.0 && forall x: real :: x >= 0.0 ==> f(x) == x * q
    ensures Orbit(f, a, k) == a * Compound(q, k)
    decreases k
  {
    if k > 0 {
      assert f(a) == a * q && a * q >= 0.0;
      Multiplied(f, q, f(a), k - 1);
      assert (a * q) * Compound(q, k - 1) == a * (q * Compound(q, k - 1));
    }
  }

  lemma {:induction false} HourlyMultiplied(h: real -> real, r: real, a: real, k: nat)
    requires r >= 0.0 && a >= 0.0 && forall x: real :: x >= 0.0 ==> h(x) == r * x
    ensures HourlyOrbit(h, a, k) == a * Compound(1.0 + r, k)
    decreases k
  {
    if k > 0 {
      assert h(a) == r * a && r * a >= 0.0;
      HourlyMultiplied(h, r, a + h(a), k - 1);
      assert (a + r * a) * Compound(1.0 + r, k - 1) == a * ((1.0 + r) * Compound(1.0 + r, k - 1));
    }
  }

  // ------------------------------------------------- a prediction

  ghost predicate PredictsModel(c: Calculus, p: Parameters, crack: CrackInfo, horizon: nat, steps: nat,
                                r: Prediction<Parameters>)
    requires c.pi > 0.0 && horizon > 0
  {
    Predicts(GrowthOf(c, p, horizon, steps), crack, horizon, steps, r)
  }

  lemma RecordIsSeries(c: Calculus, p: Parameters, crack: CrackInfo, horizon: nat, steps: nat,
                       r: Prediction<Parameters>)
    requires c.pi > 0.0 && horizon > 0 && steps > 0 && crack.totalLength > 0.0
    requires PredictsModel(c, p, crack, horizon, steps, r)
    ensures r.samples.length ==
      Series(Stepper(Paris(c, p), StepTime(horizon, steps)), CriticalLength(c, p), crack.totalLength, steps)
    ensures StepTime(horizon, steps) == horizon as real * 3600.0 / steps as real
  {
    hide Paris, Stepper, Hourly, CriticalLength, Ranges, Rates, SampleStep, Times, Series, Sampled, Life;
  }

  lemma SeriesMultiplies(f: real -> real, critical: Limit, q: real, a: real, n: nat, i: nat)
    requires Grows(f) && q >= 0.0 && a >= 0.0 && (forall x: real :: x >= 0.0 ==> f(x) == x * q)
    requires i < |Series(f, critical, a, n)|
    ensures Series(f, critical, a, n)[i] == a * Compound(q, i)
  {
    hide Grows, Orbit, Series, Compound;
    SeriesFollowsOrbit(f, critical, a, n);
    Multiplied(f, q, a, i);
  }

  /** Every recorded length is the measured one times a fixed factor for each time step: the exponential,
      up to its fourth-order term, of the growth rate of a unit length times the square of the step. */
  lemma LengthsAreGeometric(c: Calculus, p: Parameters, crack: CrackInfo, horizon: nat, steps: nat,
                            r: Prediction<Parameters>, dt: real, z: real, i: nat)
    requires Proportional(c, p) && horizon > 0 && steps > 0 && crack.totalLength > 0.0
    requires PredictsModel(c, p, crack, horizon, steps, r) && i < |r.samples.length|
    requires dt == horizon as real * 3600.0 / steps as real && z == UnitRate(c, p) * dt * dt
    ensures r.samples.length[i] == crack.totalLength * Compound(Exp4(z), i)
  {
    hide Law, Grows, Paris, UnitRate, Stepper, Series, Compound, Exp4, StepTime, PredictsModel;
    var g, q := Paris(c, p), Exp4(z);
    var f := Stepper(g, dt);
    RecordIsSeries(c, p, crack, horizon, steps, r);
    RatesAreProportional(c, p);
    StepTimePositive(horizon, steps);
    FactorPositive(UnitRate(c, p), dt, z);
    forall x: real | x >= 0.0 ensures f(x) == x * q { StepMultiplies(g, UnitRate(c, p), dt, z, x); }
    StepperGrows(g, dt);
    SeriesMultiplies(f, CriticalLength(c, p), q, crack.totalLength, steps, i);
  }

  lemma RatesAreProportional(c: Calculus, p: Parameters)
    requires Proportional(c, p)
    ensures UnitRate(c, p) >= 0.0 && Law(Paris(c, p)) && Plausible(c, p)
    ensures forall x: real :: x >= 0.0 ==> Paris(c, p)(x) == UnitRate(c, p) * x
  {
    hide Law, Paris, UnitRate;
    ParisIsLaw(c, p);
    UnitRatePositive(c, p);
    forall x: real | x >= 0.0 ensures Paris(c, p)(x) == UnitRate(c, p) * x { ProportionalRate(c, p, x); }
  }

  lemma UnitRatePositive(c: Calculus, p: Parameters)
    requires Plausible(c, p)
    ensures UnitRate(c, p) >= 0.0
  {
    var load := p.geometricFactor * (p.maximumStress - p.minimumStress);
    assert load * load >= 0.0;
    assert load * load * c.pi >= 0.0;
    assert p.C * (load * load * c.pi) >= 0.0;
  }

  lemma FactorPositive(x: real, dt: real, z: real)
    requires x >= 0.0 && dt >= 0.0 && z == x * dt * dt
    ensures Exp4(z) >= 0.0
  {
    assert x * dt >= 0.0;
    assert z >= 0.0;
    assert z * z >= 0.0;
    assert z * z * z >= 0.0;
    assert z * z * z * z >= 0.0;
  }

  lemma SampleOf(c: Calculus, p: Parameters, crack: CrackInfo, horizon: nat, steps: nat, r: Prediction<Parameters>,
                 i: nat)
    requires c.pi > 0.0 && horizon > 0 && PredictsModel(c, p, crack, horizon, steps, r) && i < |r.samples.length|
    ensures |r.samples.timeHours| == |r.samples.deltaK| == |r.samples.rate| == |r.samples.length|
    ensures |r.samples.depth| == |r.samples.width| == |r.samples.length|
    ensures r.samples.deltaK[i] == DeltaK(c, p, r.samples.length[i])
    ensures r.samples.rate[i] == GrowthRate(c, p, r.samples.deltaK[i])
    ensures r.samples.timeHours[i] == RecordedTime(c, horizon, steps, i)
    ensures r.samples.depth[i] == Start(crack).depth + (r.samples.length[i] - Start(crack).length) * 0.4
    ensures r.samples.width[i] == Start(crack).width + (r.samples.length[i] - Start(crack).length) * 0.25
  {
    hide Paris, Stepper, Hourly, CriticalLength, SampleStep, Series, Life, StepTime, DeltaK, GrowthRate, RecordedTime;
    var g := GrowthOf(c, p, horizon, steps);
    assert Sampled(g, Start(crack), r.samples);
  }

  /** The range recorded beside a length is the applied load on the root of pi times the length, and the
      rate is its square times the coefficient. */
  lemma RatesAreSquares(c: Calculus, p: Parameters, crack: CrackInfo, horizon: nat, steps: nat,
                        r: Prediction<Parameters>, i: nat)
    requires Proportional(c, p) && horizon > 0 && steps > 0 && crack.totalLength > 0.0
    requires PredictsModel(c, p, crack, horizon, steps, r) && i < |r.samples.length|
    ensures |r.samples.deltaK| == |r.samples.rate| == |r.samples.length|
    ensures var load, k := p.geometricFactor * (p.maximumStress - p.minimumStress), r.samples.deltaK[i];
      && k >= 0.0 && k * k == load * load * c.pi * r.samples.length[i]
      && r.samples.rate[i] == p.C * (k * k)
  {
    hide Law, Grows, Paris, Stepper, Series, StepTime, PredictsModel, DeltaK, GrowthRate, Exact;
    SampleOf(c, p, crack, horizon, steps, r, i);
    RecordIsSeries(c, p, crack, horizon, steps, r);
    RatesAreProportional(c, p);
    StepTimePositive(horizon, steps);
    StepperGrows(Paris(c, p), StepTime(horizon, steps));
    LengthsPositive(Stepper(Paris(c, p), StepTime(horizon, steps)), CriticalLength(c, p), crack.totalLength, steps, i);
    ProportionalRange(c, p, r.samples.length[i]);
    ProportionalRate(c, p, r.samples.length[i]);
  }

  lemma LengthsPositive(f: real -> real, critical: Limit, a: real, n: nat, i: nat)
    requires Grows(f) && a >= 0.0 && i < |Series(f, critical, a, n)|
    ensures Series(f, critical, a, n)[i] >= a
  {
    hide Series, Orbit, Grows;
    SeriesFollowsOrbit(f, critical, a, n);
    OrbitGrows(f, a, i);
  }

  /** For any parameters: the samples are evenly spaced, from zero to the horizon, and depth and width
      start at what was measured, or at their defaults, and grow by 0.4 and 0.25 of what the length grows. */
  lemma SamplesInNumbers(c: Calculus, p: Parameters, crack: CrackInfo, horizon: nat, steps: nat,
                         r: Prediction<Parameters>, i: nat)
    requires c.pi > 0.0 && horizon > 0 && steps > 0
    requires PredictsModel(c, p, crack, horizon, steps, r) && i < |r.samples.length|
    ensures var s := r.samples;
      && |s.timeHours| == |s.depth| == |s.width| == |s.length|
      && s.timeHours[i] * steps as real == (i * horizon) as real
      && s.length[0] == (if crack.totalLength > 0.0 then crack.totalLength else 0.001)
      && s.depth[i] - 0.4 * (s.length[i] - s.length[0]) == (if crack.maxDepth > 0.0 then crack.maxDepth else 0.0005)
      && s.width[i] - 0.25 * (s.length[i] - s.length[0]) == (if crack.maxWidth > 0.0 then crack.maxWidth else 0.0001)
  {
    hide DeltaK, GrowthRate, PredictsModel, StepTime, TimeAt;
    SampleOf(c, p, crack, horizon, steps, r, i);
    FirstLength(c, p, crack, horizon, steps, r);
    TimeInHours(horizon, steps, i);
  }

  lemma FirstLength(c: Calculus, p: Parameters, crack: CrackInfo, horizon: nat, steps: nat, r: Prediction<Parameters>)
    requires c.pi > 0.0 && horizon > 0 && PredictsModel(c, p, crack, horizon, steps, r)
    ensures r.samples.length != [] && r.samples.length[0] == Start(crack).length
  {
    hide Paris, Stepper, Hourly, CriticalLength, SampleStep, Life, StepTime, DeltaK, GrowthRate, RecordedTime;
  }

  lemma TimeInHours(horizon: nat, steps: nat, i: nat)
    requires steps > 0
    ensures TimeAt(i, StepTime(horizon, steps)) * steps as real == (i * horizon) as real
  {
    TimeScales(i as real, horizon as real, steps as real);
    assert i as real * horizon as real == (i * horizon) as real;
  }

  /** The sample reported for 720 hours is the last one recorded by then. */
  lemma ReportedAt720(c: Calculus, p: Parameters, crack: CrackInfo, horizon: nat, steps: nat, r: Prediction<Parameters>)
    returns (k: nat)
    requires c.pi > 0.0 && horizon > 0 && steps > 0 && PredictsModel(c, p, crack, horizon, steps, r)
    ensures k < |r.samples.length| == |r.samples.timeHours| == |r.samples.depth| == |r.samples.width|
    ensures r.at720 == Sizes(r.samples.length[k], r.samples.depth[k], r.samples.width[k])
    ensures r.samples.timeHours[k] <= 720.0
    ensures k + 1 < |r.samples.timeHours| ==> r.samples.timeHours[k + 1] > 720.0
  {
    hide PredictsModel, StepTime, TimeAt, SampleStep;
    FirstLength(c, p, crack, horizon, steps, r);
    k := ReportedSample(c, p, crack, horizon, steps, r);
    SampleOf(c, p, crack, horizon, steps, r, k);
    SampleIsLastBy720(horizon, steps);
    TimesInOrder(horizon, steps, k, SampleStep(horizon, steps));
    if k + 1 < |r.samples.length| { SampleOf(c, p, crack, horizon, steps, r, k + 1); }
  }

  lemma ReportedSample(c: Calculus, p: Parameters, crack: CrackInfo, horizon: nat, steps: nat,
                       r: Prediction<Parameters>)
    returns (k: nat)
    requires c.pi > 0.0 && horizon > 0 && PredictsModel(c, p, crack, horizon, steps, r)
    ensures k < |r.samples.length| == |r.samples.depth| == |r.samples.width| && |r.samples.length| <= steps + 1
    ensures r.at720 == Sizes(r.samples.length[k], r.samples.depth[k], r.samples.width[k])
    ensures k <= SampleStep(horizon, steps) && (k + 1 < |r.samples.length| ==> k == SampleStep(horizon, steps) < steps)
  {
    hide Paris, Stepper, Hourly, CriticalLength, SampleStep, Life, StepTime, DeltaK, GrowthRate, RecordedTime;
    k := SampleAt720(GrowthOf(c, p, horizon, steps), |r.samples.length|);
  }

  lemma TimesInOrder(horizon: nat, steps: nat, i: nat, j: nat)
    requires horizon > 0 && steps > 0 && i <= j
    ensures TimeAt(i, StepTime(horizon, steps)) <= TimeAt(j, StepTime(horizon, steps))
  {
    hide StepTime;
    StepTimePositive(horizon, steps);
    Scaled(i as real, j as real, StepTime(horizon, steps));
  }

  /** Of two cracks under the model's law with complete records, neither rated CRITICAL, the longer is
      rated no lower. */
  lemma LongerRatedNoLowerByModel(c: Calculus, p: Parameters, crack: CrackInfo, longer: CrackInfo, horizon: nat,
                                  steps: nat, r: Prediction<Parameters>, l: Prediction<Parameters>)
    requires Plausible(c, p) && horizon > 0 && Start(crack).length <= Start(longer).length
    requires PredictsModel(c, p, crack, horizon, steps, r) && PredictsModel(c, p, longer, horizon, steps, l)
    requires |l.samples.length| == steps + 1 && r.risk != CRITICAL && l.risk != CRITICAL
    ensures Severity(r.risk) <= Severity(l.risk)
  {
    hide Paris, Stepper, Hourly, CriticalLength, Life, StepTime, DeltaK, GrowthRate, Predicts, Natural, Severity,
      SampleStep, Times;
    var g := GrowthOf(c, p, horizon, steps);
    ModelIsNatural(c, p, horizon, steps);
    forall a: real, b: real | 0.0 <= a <= b ensures g.rate(g.range(a)) <= g.rate(g.range(b)) { RatesGrow(c, p, a, b); }
    LongerRatedNoLower(g, crack, longer, horizon, steps, r, l);
  }

  // ------------------------------------------------- the remaining life

  // The load at the highest stress on a crack of this length is below the toughness.
  ghost predicate Holds(c: Calculus, p: Parameters, length: real) {
    var load := p.geometricFactor * p.maximumStress;
    load * load * c.pi * length < p.toughness * p.toughness
  }

  lemma HoldsIff(c: Calculus, p: Parameters, length: real)
    requires Exact(c) && c.pi > 0.0 && length >= 0.0 && p.toughness >= 0.0 && p.geometricFactor * p.maximumStress > 0.0
    ensures Below(CriticalLength(c, p), length) <==> Holds(c, p, length)
    ensures Reached(CriticalLength(c, p), length) <==> !Holds(c, p, length)
  {
    hide CriticalLength, Root, Exact;
    var load, root := p.geometricFactor * p.maximumStress, Root(c, length);
    CriticalIff(c, p, length);
    assert c.pi * length >= 0.0;
    RootSquared(c, length);
    SquareOfProduct(load, root, c.pi, length);
    SquaresOrdered(p.toughness, load * root);
  }

  // It is below it k hours on, the length growing by the factor q every hour.
  ghost predicate HoldsAfter(c: Calculus, p: Parameters, a: real, q: real, k: nat) { Holds(c, p, a * Compound(q, k)) }

  lemma SoundHour(c: Calculus, p: Parameters, h: real -> real, y: real, a: real, j: nat)
    requires Exact(c) && c.pi > 0.0 && p.toughness >= 0.0 && p.geometricFactor * p.maximumStress > 0.0
    requires y >= 0.0 && a >= 0.0 && forall x: real :: x >= 0.0 ==> h(x) == y * x
    ensures Below(CriticalLength(c, p), HourlyOrbit(h, a, j)) <==> HoldsAfter(c, p, a, 1.0 + y, j)
    ensures Reached(CriticalLength(c, p), HourlyOrbit(h, a, j)) <==> !HoldsAfter(c, p, a, 1.0 + y, j)
  {
    hide HourlyOrbit, CriticalLength, Holds, Compound, Exact;
    HourlyMultiplied(h, y, a, j);
    CompoundPositive(a, 1.0 + y, j);
    HoldsIff(c, p, a * Compound(1.0 + y, j));
  }

  /** The life estimated for a sound crack: one hour if it grows by less than 1e-15 in the first hour, and
      otherwise the first hour n at whose start the compounded length no longer holds, or 27778, the first
      whole number of hours that is not below 1e8 seconds. */
  lemma LifeIsCompounded(c: Calculus, p: Parameters, a: real, q: real) returns (n: nat)
    requires Proportional(c, p) && p.toughness >= 0.0 && p.geometricFactor * p.maximumStress > 0.0
    requires a >= 0.0 && Holds(c, p, a) && q == 1.0 + 3600.0 * UnitRate(c, p)
    ensures n == Life(Hourly(Paris(c, p)), CriticalLength(c, p), a) <= 27778
    ensures if (q - 1.0) * a < 0.000000000000001 then n == 1
            else (forall j: nat :: j < n ==> HoldsAfter(c, p, a, q, j)) && (n < 27778 ==> !HoldsAfter(c, p, a, q, n))
  {
    hide Law, Paris, UnitRate, Life, HourlyOrbit, CriticalLength, Holds, HoldsAfter, Exact, Hourly;
    var h, critical := Hourly(Paris(c, p)), CriticalLength(c, p);
    RatesAreProportional(c, p);
    HourlyIsLaw(Paris(c, p));
    forall x: real | x >= 0.0 ensures h(x) == (q - 1.0) * x { HourlyRate(Paris(c, p), UnitRate(c, p), x); }
    n := Life(h, critical, a);
    HoldsIff(c, p, a);
    if h(a) < STALL {
      StallIsOneHour(h, critical, a);
    } else {
      forall j: nat | j < n ensures HoldsAfter(c, p, a, q, j) {
        SoundHour(c, p, h, q - 1.0, a, j);
        LifeIsFirstCrossing(h, critical, a, j);
      }
      SoundHour(c, p, h, q - 1.0, a, n);
      LifeIsFirstCrossing(h, critical, a, n);
    }
  }

  lemma HourlyRate(g: real -> real, r: real, x: real)
    requires g(x) == r * x
    ensures Hourly(g)(x) == 3600.0 * r * x
  {
  }

  lemma {:induction false} CompoundPositive(a: real, q: real, k: nat)
    requires a >= 0.0 && q >= 0.0
    ensures Compound(q, k) >= 0.0 && a * Compound(q, k) >= 0.0
    decreases k
  {
    if k > 0 {
      CompoundPositive(a, q, k - 1);
      assert q * Compound(q, k - 1) >= 0.0;
    }
  }
}
