/** Of two cracks under one model, which is given the later failure. */
module FailureOrder {
  import opened Common
  import opened GrowthSeries
  import opened ParisLaw
  import opened Predictions
  import opened Reals
  import opened RungeKutta
  import opened CrackGrowth

  // ------------------------------------------------- time steps that divide the hour

  // What k steps of length dt grow at a constant rate x.
  function Repeat(x: real, dt: real, k: nat): real { x * dt * k as real }

  lemma RepeatNext(x: real, dt: real, k: nat)
    requires k > 0
    ensures Repeat(x, dt, k) == Repeat(x, dt, 1) + Repeat(x, dt, k - 1)
  {
  }

  lemma OnceAtMost(x: real, y: real, dt: real)
    requires 0.0 <= x <= y && dt >= 1.0
    ensures 0.0 <= Repeat(x, dt, 1) <= y * dt * dt
  {
    assert x * dt <= y * dt;
    assert y * dt * (dt - 1.0) >= 0.0;
  }

  lemma FirstSlope(g: real -> real, dt: real, a: real, b: real)
    requires 0.0 <= g(a) <= g(b) && dt >= 1.0
    ensures 0.0 <= Repeat(g(a), dt, 1) <= K1(g, dt, b) * dt
  {
    hide Repeat;
    OnceAtMost(g(a), g(b), dt);
  }

  lemma StepGrowth(g: real -> real, dt: real, a: real, b: real)
    requires Law(g) && dt >= 1.0 && 0.0 <= a <= b
    ensures 0.0 <= Repeat(g(a), dt, 1) && b + Repeat(g(a), dt, 1) <= Stepper(g, dt)(b)
  {
    hide Increment, Law, K1, Repeat;
    LawAt(g, a, b);
    StagesIncrease(g, dt, b);
    FirstSlope(g, dt, a, b);
  }

  lemma {:induction false} StepsAddUp(g: real -> real, dt: real, a: real, b: real, k: nat)
    requires Law(g) && dt >= 1.0 && 0.0 <= a <= b
    ensures b + Repeat(g(a), dt, k) <= Orbit(Stepper(g, dt), b, k)
    decreases k
  {
    hide Stepper, Law, Repeat;
    if k > 0 {
      StepGrowth(g, dt, a, b);
      RepeatNext(g(a), dt, k);
      StepsAddUp(g, dt, a, Stepper(g, dt)(b), k - 1);
    } else {
      NoSteps(g(a), dt);
    }
  }

  lemma NoSteps(x: real, dt: real)
    ensures Repeat(x, dt, 0) == 0.0
  {
  }

  /** With a time step of at least a second that divides the hour, the steps of an hour take a crack at
      least as far as an hour at its present growth. */
  lemma StepperCovers(g: real -> real, dt: real, m: nat)
    requires Law(g) && dt >= 1.0 && dt * m as real == HOUR
    ensures Covers(Stepper(g, dt), Hourly(g), m)
  {
    hide Stepper, Repeat, Law;
    forall a: real | a >= 0.0 ensures a + Hourly(g)(a) <= Orbit(Stepper(g, dt), a, m) {
      StepsAddUp(g, dt, a, a, m);
      Regroup(g(a), dt, m);
    }
  }

  lemma Regroup(x: real, dt: real, m: nat)
    ensures Repeat(x, dt, m) == x * (dt * m as real)
  {
  }

  lemma HourDivided(horizon: nat, m: nat)
    requires horizon > 0 && 0 < m <= 3600
    ensures StepTime(horizon, m * horizon) * m as real == 3600.0 && StepTime(horizon, m * horizon) >= 1.0
    ensures m * horizon > 0 && TimeAt(m * horizon, StepTime(horizon, m * horizon)) == horizon as real
  {
    var n: nat, x, y := m * horizon, m as real, horizon as real;
    assert n > 0 && n as real == x * y;
    hide StepTime;
    QuotientOfProduct(x, y);
    StepTimeIs(horizon, n, x * y);
    WholeHours(x, y, StepTime(horizon, n));
  }

  lemma StepTimeIs(horizon: nat, n: nat, x: real)
    requires n > 0 && n as real == x
    ensures StepTime(horizon, n) == horizon as real * 3600.0 / x
  {
  }

  lemma WholeHours(x: real, y: real, dt: real)
    requires x > 0.0 && dt == 3600.0 / x
    ensures dt * x == 3600.0 && x * y * dt / 3600.0 == y
  {
    var q := 3600.0 / x;
    assert q * x == 3600.0;
    assert x * y * dt == (dt * x) * y;
  }

  lemma QuotientOfProduct(x: real, y: real)
    requires x > 0.0 && y > 0.0
    ensures y * 3600.0 / (x * y) == 3600.0 / x
  {
    var r, w := x * y, y * 3600.0;
    assert r > 0.0;
    var q := w / r;
    assert q * r == w;
    assert (q * x) * y == q * r;
    assert (q * x - 3600.0) * y == 0.0;
    ZeroProduct(q * x - 3600.0, y);
    assert q * x == 3600.0;
  }

  lemma PlausiblePi(c: Calculus, p: Parameters)
    requires Plausible(c, p)
    ensures c.pi > 0.0
  {
  }

  lemma SomeSample<P>(g: Growth, crack: CrackInfo, horizon: nat, steps: nat, r: Prediction<P>)
    requires Predicts(g, crack, horizon, steps, r)
    ensures r.samples.length != []
  {
  }

  lemma ModelTime(c: Calculus, p: Parameters, horizon: nat, steps: nat, i: nat)
    requires c.pi > 0.0 && horizon > 0 && steps > 0
    ensures var g := GrowthOf(c, p, horizon, steps);
      && g.time(i) == TimeAt(i, StepTime(horizon, steps))
      && g.step == Stepper(Paris(c, p), StepTime(horizon, steps)) && g.hour == Hourly(Paris(c, p))
  {
    hide Paris, Stepper, Hourly, CriticalLength, StepTime, TimeAt, Ranges, Rates, SampleStep;
  }

  /** For predictions with a whole number of time steps per hour, of at least a second, over at most
      27778 hours: if the longer crack's record is cut short and the shorter one's is not, the longer
      one is given the later failure exactly when the shorter one stalls and the longer one is last
      recorded after the first hour. */
  lemma FailureOrderOfModel(c: Calculus, p: Parameters, crack: CrackInfo, longer: CrackInfo, horizon: nat, m: nat,
                            r: Prediction<Parameters>, l: Prediction<Parameters>)
    requires Plausible(c, p) && 0 < horizon <= LAST_HOUR && 0 < m <= 3600
    requires Predicts(GrowthOf(c, p, horizon, m * horizon), crack, horizon, m * horizon, r)
    requires Predicts(GrowthOf(c, p, horizon, m * horizon), longer, horizon, m * horizon, l)
    requires Start(crack).length <= Start(longer).length && |l.samples.length| <= m * horizon < |r.samples.length|
    ensures l.timeToFailure > r.timeToFailure <==>
      Hourly(Paris(c, p))(Start(crack).length) < STALL
      && TimeAt(|l.samples.length| - 1, StepTime(horizon, m * horizon)) > 1.0
  {
    hide Paris, Stepper, Hourly, Predicts, StepTime, TimeAt, Clock, Ticks, Natural, Law, Covers, GrowthOf, Life;
    hide Plausible;
    HourDivided(horizon, m);
    assert c.pi > 0.0 by { PlausiblePi(c, p); }
    SomeSample(GrowthOf(c, p, horizon, m * horizon), longer, horizon, m * horizon, l);
    ParisIsLaw(c, p);
    StepperCovers(Paris(c, p), StepTime(horizon, m * horizon), m);
    ModelIsNatural(c, p, horizon, m * horizon);
    ModelTime(c, p, horizon, m * horizon, m * horizon);
    ModelTime(c, p, horizon, m * horizon, |l.samples.length| - 1);
    FailureOrderByStall(GrowthOf(c, p, horizon, m * horizon), crack, longer, horizon, m, r, l);
  }

  // ------------------------------------------------- the order of remaining lives

  /** With the default parameters a longer crack never lives longer. */
  lemma DefaultLivesOrdered(c: Calculus, critical: Limit, a: real, b: real)
    requires Sane(c) && 0.0 <= a <= b
    ensures Life(Hourly(Paris(c, DEFAULTS)), critical, b) <= Life(Hourly(Paris(c, DEFAULTS)), critical, a)
  {
    hide Stepper, Hourly, Paris, Life, Rates, Ranges;
    DefaultsNeverGrow(c, 0.0, b);
    ParisIsLaw(c, DEFAULTS);
    HourlyIsLaw(Paris(c, DEFAULTS));
    LifeAntitoneIff(Hourly(Paris(c, DEFAULTS)), critical, a, b);
  }

  // A unit stress range without corrections, and a given coefficient and toughness.
  function UnitRange(C: real, toughness: real): Parameters {
    Parameters(C, 3.0, 1.0, 0.0, 0.0, 0.0, 0.0, toughness, 1.0, 1.0, false)
  }

  function Power(c: Calculus, length: real): real { c.pow(Root(c, length), 3.0) }

  // The second power is the square.
  ghost predicate Squares(c: Calculus) { forall x: real :: x >= 0.0 ==> c.pow(x, 2.0) == x * x }

  lemma UnitGrowth(c: Calculus, C: real, toughness: real, length: real)
    requires Sane(c) && C >= 0.0 && length >= 0.0
    ensures Root(c, length) >= 0.0 && Power(c, length) >= 0.0
    ensures Hourly(Paris(c, UnitRange(C, toughness)))(length) == if Root(c, length) == 0.0 then 0.0
      else C * Power(c, length) * HOUR
  {
    hide Root;
    RootMonotone(c, length, length);
    DeltaKIsDriven(c, UnitRange(C, toughness), length);
    assert c.pow(Root(c, length), 3.0) >= 0.0;
  }

  // The toughness decides only when a crack fails, not how it grows.
  lemma SameParis(c: Calculus, C: real, k: real, l: real, length: real)
    ensures Paris(c, UnitRange(C, k))(length) == Paris(c, UnitRange(C, l))(length)
  {
    hide CorrectedStress, Root;
    var p, q := UnitRange(C, k), UnitRange(C, l);
    SameLoad(c, C, k, l, 1.0);
    SameLoad(c, C, k, l, 0.0);
    assert DeltaK(c, p, length) == DeltaK(c, q, length);
  }

  lemma SameLoad(c: Calculus, C: real, k: real, l: real, stress: real)
    ensures Load(UnitRange(C, k), EffectiveStress(c, UnitRange(C, k), stress, 0.0)) ==
      Load(UnitRange(C, l), EffectiveStress(c, UnitRange(C, l), stress, 0.0))
  {
  }

  lemma SameStep(g: real -> real, h: real -> real, dt: real, a: real)
    requires forall x: real :: g(x) == h(x)
    ensures Stepper(g, dt)(a) == Stepper(h, dt)(a)
  {
    hide Moved, Mean;
    assert K1(g, dt, a) == K1(h, dt, a);
    assert K2(g, dt, a) == K2(h, dt, a);
    assert K3(g, dt, a) == K3(h, dt, a);
    assert K4(g, dt, a) == K4(h, dt, a);
  }

  lemma {:induction false} SameOrbit(g: real -> real, h: real -> real, dt: real, a: real, k: nat)
    requires forall x: real :: g(x) == h(x)
    ensures Orbit(Stepper(g, dt), a, k) == Orbit(Stepper(h, dt), a, k)
    decreases k
  {
    hide Stepper;
    if k > 0 {
      SameStep(g, h, dt, a);
      SameOrbit(g, h, dt, Stepper(g, dt)(a), k - 1);
    }
  }

  // With a large enough toughness the critical length is past any length.
  lemma CriticalPast(c: Calculus, C: real, length: real) returns (toughness: real)
    requires Sane(c) && Squares(c) && length >= 0.0
    ensures CriticalLength(c, UnitRange(C, toughness)).At? && CriticalLength(c, UnitRange(C, toughness)).length > length
  {
    toughness := c.pi * (length + 1.0) + 1.0;
    var k := toughness;
    assert c.pi * (length + 1.0) >= 0.0;
    assert k * k >= k by { assert k * (k - 1.0) >= 0.0; }
    assert k / 1.0 == k && c.pow(k, 2.0) == k * k;
    PastQuotient(k * k, c.pi, length);
  }

  lemma PastQuotient(x: real, pi: real, length: real)
    requires pi > 0.0 && x > pi * (length + 1.0)
    ensures x / pi > length
  {
    var q := x / pi;
    assert q * pi == x;
    assert (q - length) * pi > 0.0;
  }

  /** With other parameters it can: for any two lengths that the law tells apart, any horizon and any
      number of time steps there are some, the corrections switched off, under which the longer crack
      is given the longer life, and does not reach the model's own critical length in the time steps. */
  lemma LongerCanLiveLonger(c: Calculus, a: real, b: real, horizon: nat, steps: nat) returns (p: Parameters)
    requires Sane(c) && Squares(c) && 0.0 <= a <= b && Power(c, a) < Power(c, b) && horizon > 0
    ensures Plausible(c, p) && !p.correction
    ensures Life(Hourly(Paris(c, p)), CriticalLength(c, p), a) < Life(Hourly(Paris(c, p)), CriticalLength(c, p), b)
    ensures !Reached(CriticalLength(c, p), Orbit(Stepper(Paris(c, p), StepTime(horizon, steps)), b, steps))
  {
    hide Paris, Hourly, Life, Root, Power, CriticalLength, Stepper, Orbit, StepTime, Squares;
    UnitGrowth(c, 0.0, 0.0, a);
    var C := STALL / (Power(c, b) * HOUR);
    CoefficientSeparates(C, Power(c, a), Power(c, b));
    var dt, g := StepTime(horizon, steps), Paris(c, UnitRange(C, 0.0));
    var last := Orbit(Stepper(g, dt), b, steps);
    var toughness := CriticalPast(c, C, Max(b + STALL, last));
    p := UnitRange(C, toughness);
    forall x: real ensures g(x) == Paris(c, p)(x) { SameParis(c, C, 0.0, toughness, x); }
    SameOrbit(g, Paris(c, p), dt, b, steps);
    UnitGrowth(c, C, toughness, a);
    UnitGrowth(c, C, toughness, b);
    RootsApart(c, a, b);
    ParisIsLaw(c, p);
    HourlyIsLaw(Paris(c, p));
    LifeAntitoneIff(Hourly(Paris(c, p)), CriticalLength(c, p), a, b);
  }

  lemma CoefficientSeparates(C: real, x: real, y: real)
    requires 0.0 <= x < y && C == STALL / (y * HOUR)
    ensures C > 0.0 && C * x * HOUR < STALL && C * y * HOUR == STALL
  {
    assert C * (y * HOUR) == STALL;
    assert C * x * HOUR == C * HOUR * x && C * y * HOUR == C * HOUR * y;
    assert C * HOUR > 0.0;
    assert C * HOUR * (y - x) > 0.0;
  }

  lemma RootsApart(c: Calculus, a: real, b: real)
    requires Sane(c) && 0.0 <= a <= b && Power(c, a) < Power(c, b)
    ensures Root(c, b) > 0.0
  {
    hide Root;
    RootMonotone(c, a, b);
  }

  /** And so it is predicted: under such parameters the failure time of the longer crack is the later. */
  lemma LongerPredictedToLast(c: Calculus, crack: CrackInfo, longer: CrackInfo, horizon: nat, steps: nat)
    returns (p: Parameters)
    requires Sane(c) && Squares(c) && horizon > 0 && Start(crack).length <= Start(longer).length
    requires Power(c, Start(crack).length) < Power(c, Start(longer).length)
    ensures Plausible(c, p) && !p.correction
    ensures forall r: Prediction<Parameters>, l: Prediction<Parameters> ::
      (Predicts(GrowthOf(c, p, horizon, steps), crack, horizon, steps, r)
       && Predicts(GrowthOf(c, p, horizon, steps), longer, horizon, steps, l)) ==> r.timeToFailure < l.timeToFailure
  {
    hide Predicts, GrowthOf, Life, Power, Hourly, Stepper, Paris, Orbit, CriticalLength, StepTime, Squares, Natural;
    p := LongerCanLiveLonger(c, Start(crack).length, Start(longer).length, horizon, steps);
    var g := GrowthOf(c, p, horizon, steps);
    ModelIsNatural(c, p, horizon, steps);
    ModelLaws(c, p, horizon, steps);
    forall r: Prediction<Parameters>, l: Prediction<Parameters> |
      Predicts(g, crack, horizon, steps, r) && Predicts(g, longer, horizon, steps, l)
      ensures r.timeToFailure < l.timeToFailure
    {
      CompleteRecords(g, crack, longer, horizon, steps, r, l);
    }
  }

  lemma ModelLaws(c: Calculus, p: Parameters, horizon: nat, steps: nat)
    requires c.pi > 0.0 && horizon > 0
    ensures var g := GrowthOf(c, p, horizon, steps);
      && g.step == Stepper(Paris(c, p), StepTime(horizon, steps)) && g.hour == Hourly(Paris(c, p))
      && g.critical == CriticalLength(c, p)
  {
    hide Paris, Stepper, Hourly, CriticalLength, StepTime, Ranges, Rates, SampleStep, Times;
  }

  // Neither record is cut short if the longer one's is not, and then the failure times are the lives.
  lemma CompleteRecords<P>(g: Growth, crack: CrackInfo, longer: CrackInfo, horizon: nat, steps: nat,
                           r: Prediction<P>, l: Prediction<P>)
    requires Natural(g) && Start(crack).length <= Start(longer).length
    requires Predicts(g, crack, horizon, steps, r) && Predicts(g, longer, horizon, steps, l)
    requires !Reached(g.critical, Orbit(g.step, Start(longer).length, steps))
    ensures r.timeToFailure == Life(g.hour, g.critical, Start(crack).length) as real
    ensures l.timeToFailure == Life(g.hour, g.critical, Start(longer).length) as real
  {
    hide Series, Life, AssessRisk, SizesAt, SampleAt720, Sampled, Grows, Law, Orbit;
    CutShortIffCritical(g, crack, horizon, steps, r);
    CutShortIffCritical(g, longer, horizon, steps, l);
    OrbitMonotone(g.step, Start(crack).length, Start(longer).length, steps);
  }

  lemma PowersApart(c: Calculus, a: real, b: real)
    requires c.pi > 0.0 && Exact(c) && 0.0 <= a < b
    ensures Power(c, a) < Power(c, b)
  {
    hide Sane, Exact, Root;
    ScaledLess(c.pi, a, b);
    ExactRoot(c, a);
    ExactRoot(c, b);
    CubesApart(Root(c, a), Root(c, b));
  }

  lemma ExactRoot(c: Calculus, a: real)
    requires Exact(c) && c.pi * a >= 0.0
    ensures var r := Root(c, a); r >= 0.0 && r * r == c.pi * a && Power(c, a) == r * r * r
  {
    hide Exact, Root;
    RootSquared(c, a);
    ExactCube(c, Root(c, a));
  }

  lemma ExactCube(c: Calculus, x: real)
    requires Exact(c) && x >= 0.0
    ensures c.pow(x, 3.0) == x * x * x
  {
    var root := c.sqrt(x);
  }

  lemma ScaledLess(d: real, x: real, y: real)
    requires d > 0.0 && 0.0 <= x < y
    ensures 0.0 <= d * x < d * y
  {
    assert d * (y - x) > 0.0;
  }

  lemma CubesApart(r: real, s: real)
    requires r >= 0.0 && s >= 0.0 && r * r < s * s
    ensures r < s && r * r * r < s * s * s
  {
    assert (s - r) * (s + r) > 0.0;
    assert s * s * s - r * r * r == s * s * (s - r) + (s * s - r * r) * r;
    assert s * s > 0.0;
    assert s * s * (s - r) > 0.0 && (s * s - r * r) * r >= 0.0;
  }

  /** For instance, with the functions as they are: for cracks of length 1 and 2, any horizon and any
      number of time steps. */
  lemma LongerLivesLongerExample(c: Calculus, crack: CrackInfo, longer: CrackInfo, horizon: nat, steps: nat)
    returns (p: Parameters)
    requires Sane(c) && Exact(c) && horizon > 0 && crack.totalLength == 1.0 && longer.totalLength == 2.0
    ensures Plausible(c, p) && !p.correction
    ensures forall r: Prediction<Parameters>, l: Prediction<Parameters> ::
      (Predicts(GrowthOf(c, p, horizon, steps), crack, horizon, steps, r)
       && Predicts(GrowthOf(c, p, horizon, steps), longer, horizon, steps, l)) ==> r.timeToFailure < l.timeToFailure
  {
    hide Predicts, GrowthOf, Power;
    PowersApart(c, 1.0, 2.0);
    p := LongerPredictedToLast(c, crack, longer, horizon, steps);
  }
}
