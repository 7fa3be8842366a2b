/** The crack growth model: its predictions and remaining lives. */
module CrackGrowth {
  import opened Common
  import opened GrowthSeries
  import opened ParisLaw
  import opened Predictions
  import opened RungeKutta

  // ------------------------------------------------- the model's growth

  // With no steps the quotient is infinite; it is then used only in the time of the one sample.
  function StepTime(horizon: nat, steps: nat): real {
    if steps == 0 then 0.0 else horizon as real * 3600.0 / steps as real
  }

  function TimeAt(i: nat, dt: real): real { i as real * dt / 3600.0 }

  function SampleStep(horizon: nat, steps: nat): nat
    requires horizon > 0
  {
    assert 720 * steps / horizon >= 0 by { QuotientPositive(720 * steps, horizon); }
    if 720 * steps / horizon < steps then 720 * steps / horizon else steps
  }

  lemma QuotientPositive(a: nat, b: nat)
    requires b > 0
    ensures a / b >= 0
  {
  }

  // With no steps the source multiplies zero by infinity.
  function RecordedTime(c: Calculus, horizon: nat, steps: nat, i: nat): real {
    if steps == 0 then c.undefined else TimeAt(i, StepTime(horizon, steps))
  }

  function Times(c: Calculus, horizon: nat, steps: nat): nat -> real { (i: nat) => RecordedTime(c, horizon, steps, i) }

  function Ranges(c: Calculus, p: Parameters): real -> real { length => DeltaK(c, p, length) }
  function Rates(c: Calculus, p: Parameters): real -> real { deltaK => GrowthRate(c, p, deltaK) }

  ghost function GrowthOf(c: Calculus, p: Parameters, horizon: nat, steps: nat): Growth
    requires c.pi > 0.0 && horizon > 0
  {
    Growth(Stepper(Paris(c, p), StepTime(horizon, steps)), Hourly(Paris(c, p)), Ranges(c, p), Rates(c, p),
           CriticalLength(c, p), Times(c, horizon, steps), SampleStep(horizon, steps))
  }

  lemma StepTimePositive(horizon: nat, steps: nat)
    requires horizon > 0
    ensures StepTime(horizon, steps) >= 0.0 && (steps > 0 ==> StepTime(horizon, steps) > 0.0)
  {
  }

  /** So everything said about natural growth holds of every prediction of the model. */
  lemma ModelIsNatural(c: Calculus, p: Parameters, horizon: nat, steps: nat)
    requires Plausible(c, p) && horizon > 0
    ensures Natural(GrowthOf(c, p, horizon, steps))
    ensures steps > 0 ==> Clock(GrowthOf(c, p, horizon, steps).time) && Ticks(GrowthOf(c, p, horizon, steps).time)
  {
    hide Paris, Stepper, Hourly, Grows, Law, CriticalLength, Clock, Ticks, Times, StepTime;
    StepTimePositive(horizon, steps);
    ParisIsLaw(c, p);
    StepperGrows(Paris(c, p), StepTime(horizon, steps));
    HourlyIsLaw(Paris(c, p));
    if steps > 0 { TimesAreClock(c, horizon, steps); }
  }

  lemma TimesAreClock(c: Calculus, horizon: nat, steps: nat)
    requires horizon > 0 && steps > 0
    ensures Clock(Times(c, horizon, steps)) && Ticks(Times(c, horizon, steps))
  {
    hide StepTime;
    var dt, time := StepTime(horizon, steps), Times(c, horizon, steps);
    StepTimePositive(horizon, steps);
    forall i: nat, j: nat | i <= j ensures 0.0 <= time(i) <= time(j) { Scaled(i as real, j as real, dt); }
    forall i: nat | i > 0 ensures time(i) > 0.0 { TimePositive(i as real, dt); }
  }

  lemma TimePositive(i: real, dt: real)
    requires i > 0.0 && dt > 0.0
    ensures i * dt / 3600.0 > 0.0
  {
  }

  /** The sample reported for 720 hours is the last one taken by then, if the record is complete. */
  lemma SampleIsLastBy720(horizon: nat, steps: nat)
    requires horizon > 0 && steps > 0
    ensures var i, dt := SampleStep(horizon, steps), StepTime(horizon, steps);
      TimeAt(i, dt) <= 720.0 && (i < steps ==> TimeAt(i + 1, dt) > 720.0)
  {
    var i := SampleStep(horizon, steps);
    var whole := 720 * steps / horizon;
    assert whole * horizon <= 720 * steps < (whole + 1) * horizon;
    assert i * horizon <= whole * horizon by { assert i <= whole; }
    HoursAt(i, horizon, steps);
    HoursAt(i + 1, horizon, steps);
  }

  lemma HoursAt(i: nat, horizon: nat, steps: nat)
    requires steps > 0
    ensures TimeAt(i, StepTime(horizon, steps)) <= 720.0 <==> i * horizon <= 720 * steps
  {
    var t, n := TimeAt(i, StepTime(horizon, steps)), steps as real;
    TimeScales(i as real, horizon as real, n);
    assert t * n == (i * horizon) as real;
    assert t <= 720.0 <==> t * n <= 720.0 * n;
  }

  lemma TimeScales(i: real, horizon: real, n: real)
    requires n > 0.0
    ensures i * (horizon * 3600.0 / n) / 3600.0 * n == i * horizon
  {
    var q := horizon * 3600.0 / n;
    assert q * n == horizon * 3600.0;
    assert i * q / 3600.0 * n == i * (q * n) / 3600.0;
  }

  class CrackPropagationModel {
    const math: Calculus
    var params: Parameters
    // params_.initial_crack_length
    var initialCrackLength: real

    constructor (math: Calculus)
      ensures this.math == math && params == DEFAULTS && initialCrackLength == 0.0
    {
      this.math := math;
      params, initialCrackLength := DEFAULTS, 0.0;
    }

    method SetParameters(p: Parameters, initialLength: real)
      modifies this
      ensures params == p && initialCrackLength == initialLength
    {
      params, initialCrackLength := p, initialLength;
    }

    function RungeKuttaStep(a: real, dt: real): (r: real)
      reads this`params
      ensures r == Over(Paris(math, params), dt, a)
    {
      GrowthRate(math, params, DeltaK(math, params, a)) * params.frequency * dt
    }

    method EstimateRemainingLife(initialLength: real, criticalLength: Limit) returns (hours: real)
      ensures hours == Life(Hourly(Paris(math, params)), criticalLength, initialLength) as real
    {
      hide RungeKuttaStep, Paris, HoursFrom, Life, Over;
      ghost var h := Hourly(Paris(math, params));
      ghost var life := Life(h, criticalLength, initialLength);
      LifeStarts(h, criticalLength, initialLength);
      if Reached(criticalLength, initialLength) { return 0.0; }
      var a, t, dt := initialLength, 0.0, 3600.0;
      ghost var k: nat := 0;
      while Below(criticalLength, a) && t < 100000000.0
        invariant t == k as real * HOUR && h == Hourly(Paris(math, params))
        invariant life == k + HoursFrom(h, criticalLength, a, k)
        decreases LAST_HOUR - k
      {
        HoursGoOn(h, criticalLength, a, k);
        var da := RungeKuttaStep(a, dt);
        a, t := a + da, t + dt;
        k := k + 1;
        if da < 0.000000000000001 {
          assert life == k;
          break;
        }
      }
      HoursGoOn(h, criticalLength, a, k);
      return t / 3600.0;
    }

    // The time loop: the series, and the time of failure if the critical length is reached.
    method Integrate(start: Sizes, horizon: nat, criticalLength: Limit, steps: nat, ghost g: Growth,
                     ghost whole: seq<real>)
      returns (s: Samples, failure: real)
      requires Shows(g, horizon, steps) && g.critical == criticalLength
      requires Leads(whole, [], g.step, g.critical, start.length, steps)
      ensures s.length == whole
      ensures Sampled(g, start, s)
      ensures failure == if |s.length| <= steps then s.timeHours[|s.length| - 1] else -1.0
    {
      hide Shows, Series, Sampled, Leads, StepTime;
      var dt := StepTime(horizon, steps);
      s, failure := Samples([], [], [], [], [], []), -1.0;
      NothingSampled(g, start);
      var a, depth, width := start.length, start.depth, start.width;
      var i := 0;
      while i <= steps
        invariant i <= steps + 1 && i == |s.length| == |s.timeHours| && failure == -1.0
        invariant depth == start.depth + (a - start.length) * 0.4 && width == start.width + (a - start.length) * 0.25
        invariant Sampled(g, start, s)
        invariant if i <= steps then Leads(whole, s.length, g.step, g.critical, a, steps - i) else whole == s.length
      {
        LeadsOn(whole, s.length, g.step, g.critical, a, steps - i);
        s := Record(s, start, horizon, steps, a, depth, width, g);
        if i < steps {
          var da := WeightedStep(a, dt, horizon, steps, g);
          a := a + da;
          depth := start.depth + (a - start.length) * 0.4;
          width := start.width + (a - start.length) * 0.25;
          if Reached(criticalLength, a) {
            failure := s.timeHours[i];
            break;
          }
        }
        i := i + 1;
      }
    }

    // g is this model's growth.
    ghost predicate Shows(g: Growth, horizon: nat, steps: nat)
      reads this`params
    {
      && g.step == Stepper(Paris(math, params), StepTime(horizon, steps)) && g.hour == Hourly(Paris(math, params))
      && g.range == Ranges(math, params) && g.rate == Rates(math, params) && g.time == Times(math, horizon, steps)
    }

    // One sample.
    method Record(s: Samples, ghost start: Sizes, horizon: nat, steps: nat, a: real, depth: real, width: real,
                  ghost g: Growth)
      returns (r: Samples)
      requires Shows(g, horizon, steps) && Sampled(g, start, s)
      requires depth == start.depth + (a - start.length) * 0.4 && width == start.width + (a - start.length) * 0.25
      ensures Sampled(g, start, r)
      ensures r.length == s.length + [a] && |r.timeHours| == |r.length|
    {
      hide DeltaK, GrowthRate, RecordedTime, Paris, Stepper, Hourly;
      RecordNext(g, start, s, a);
      var deltaK := DeltaK(math, params, a);
      var tHours := RecordedTime(math, horizon, steps, |s.length|);
      r := Recorded(s, tHours, a, depth, width, deltaK, GrowthRate(math, params, deltaK));
    }

    method WeightedStep(a: real, dt: real, ghost horizon: nat, ghost steps: nat, ghost g: Growth) returns (da: real)
      requires Shows(g, horizon, steps) && dt == StepTime(horizon, steps)
      ensures a + da == g.step(a)
    {
      hide RungeKuttaStep, Paris, Over, Moved, Mean, StepTime;
      var k1 := RungeKuttaStep(a, dt);
      var k2 := RungeKuttaStep(Moved(a, 0.5 * k1, dt), dt);
      var k3 := RungeKuttaStep(Moved(a, 0.5 * k2, dt), dt);
      var k4 := RungeKuttaStep(Moved(a, k3, dt), dt);
      da := (k1 + 2.0 * k2 + 2.0 * k3 + k4) * dt / 6.0;
      WeightedSum(k1, k2, k3, k4, dt);
    }

    /** `predict`; a horizon of zero divides by zero. */
    method Predict(crack: CrackInfo, horizon: nat, steps: nat) returns (r: Prediction<Parameters>)
      requires math.pi > 0.0 && horizon > 0
      modifies this`initialCrackLength
      ensures initialCrackLength == Start(crack).length
      ensures Predicts(GrowthOf(math, params, horizon, steps), crack, horizon, steps, r)
      ensures r.parameters == params && r.parametersLength == old(initialCrackLength)
    {
      hide Paris, Stepper, Hourly, Series, CriticalLength, Leads, Ranges, Rates, Times, SampleStep, StepTime,
        Confidence, AssessRisk;
      var start := Start(crack);
      var before := initialCrackLength;
      initialCrackLength := start.length;

      ghost var g := GrowthOf(math, params, horizon, steps);
      var criticalLength := CriticalLength(math, params);
      var ttf := EstimateRemainingLife(start.length, criticalLength);
      ghost var whole := Series(g.step, g.critical, start.length, steps);
      WholeLeads(g.step, g.critical, start.length, steps);
      var s, failure := Integrate(start, horizon, criticalLength, steps, g, whole);
      if steps > 0 { TimesAreClock(math, horizon, steps); }

      var idx720 := SampleStep(horizon, steps);
      var at720 := SizesAt(s, if idx720 < |s.length| then idx720 else |s.length| - 1);
      if failure < 0.0 { failure := ttf; }
      r := Prediction(s, at720, failure, Confidence(ttf, horizon, start.length, criticalLength),
                      AssessRisk(failure, s.rate), params, before);
    }
  }

  lemma WeightedSum(k1: real, k2: real, k3: real, k4: real, dt: real)
    ensures (k1 + 2.0 * k2 + 2.0 * k3 + k4) * dt / 6.0 == Mean(k1, k2, k3, k4, dt)
  {
  }

  // ------------------------------------------------- the default parameters

  lemma NoGrowthStep(g: real -> real, dt: real, a: real)
    requires g(a) == 0.0
    ensures Stepper(g, dt)(a) == a && Hourly(g)(a) == 0.0
  {
    assert K1(g, dt, a) == 0.0;
    assert Moved(a, 0.0, dt) == a;
    assert K2(g, dt, a) == 0.0 && K3(g, dt, a) == 0.0 && K4(g, dt, a) == 0.0;
  }

  /** With the default parameters no crack ever grows: `StandstillRating` is about all of them. */
  lemma DefaultsNeverGrow(c: Calculus, dt: real, length: real)
    requires Sane(c) && length >= 0.0
    ensures Stepper(Paris(c, DEFAULTS), dt)(length) == length && Hourly(Paris(c, DEFAULTS))(length) == 0.0
    ensures Rates(c, DEFAULTS)(Ranges(c, DEFAULTS)(length)) == 0.0
  {
    hide DeltaK, Drive, Stepper, Hourly, Paris;
    DefaultDriveIsNegative(c);
    NoDriveNoGrowth(c, DEFAULTS, length);
    NoGrowthStep(Paris(c, DEFAULTS), dt, length);
  }

  /** So every sound crack is rated CRITICAL and every failed one NEGLIGIBLE. */
  lemma DefaultRating(c: Calculus, crack: CrackInfo, horizon: nat, steps: nat, r: Prediction<Parameters>)
    requires Sane(c) && horizon > 0
    requires Predicts(GrowthOf(c, DEFAULTS, horizon, steps), crack, horizon, steps, r)
    ensures r.risk == if Below(CriticalLength(c, DEFAULTS), Start(crack).length) then CRITICAL else NEGLIGIBLE
  {
    hide Stepper, Hourly, Paris, Rates, Ranges, CriticalLength, Predicts, Times, StepTime, Clock;
    DefaultsNeverGrow(c, StepTime(horizon, steps), Start(crack).length);
    if steps > 0 { TimesAreClock(c, horizon, steps); }
    StandstillRating(GrowthOf(c, DEFAULTS, horizon, steps), crack, horizon, steps, r);
  }
}
