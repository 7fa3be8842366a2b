/** What `predict` records and reports, for any growth law. */
module Predictions {
  import opened Common
  import opened GrowthSeries

  // One time step, one hour, the stress range at a length, the growth rate at a range, the length at
  // which a crack fails; the time of the i-th sample, and the number of the sample for 720 hours.
  datatype Growth = Growth(step: real -> real, hour: real -> real, range: real -> real, rate: real -> real,
                           critical: Limit, time: nat -> real, sample: nat)

  ghost predicate Natural(g: Growth) { Grows(g.step) && Law(g.hour) }

  ghost predicate Clock(time: nat -> real) {
    forall i: nat, j: nat {:trigger time(i), time(j)} :: i <= j ==> 0.0 <= time(i) <= time(j)
  }

  datatype Risk = CRITICAL | HIGH | MEDIUM | LOW | NEGLIGIBLE

  function AssessRisk(timeToFailure: real, rates: seq<real>): Risk {
    if 0.0 < timeToFailure < 720.0 then CRITICAL else
    var rate := if rates == [] then 0.0 else rates[|rates| - 1];
    if rate > 0.00000001 then HIGH
    else if rate > 0.0000000001 then MEDIUM
    else if rate > 0.000000000001 then LOW
    else NEGLIGIBLE
  }

  // With the parameters it was made with, and the initial length that these still held.
  datatype Prediction<P> = Prediction(samples: Samples, at720: Sizes, timeToFailure: real, confidence: real, risk: Risk,
                                      parameters: P, parametersLength: real)

  // A measure that is missing is replaced by its default.
  function Start(crack: CrackInfo): Sizes {
    Sizes(if crack.totalLength > 0.0 then crack.totalLength else 0.001,
          if crack.maxDepth > 0.0 then crack.maxDepth else 0.0005,
          if crack.maxWidth > 0.0 then crack.maxWidth else 0.0001)
  }

  // What is recorded beside each length.
  ghost predicate Sampled(g: Growth, start: Sizes, s: Samples) {
    && Tracked(start, s) && |s.timeHours| == |s.deltaK| == |s.rate| == |s.length|
    && forall i: nat :: i < |s.length| ==>
         && s.timeHours[i] == g.time(i)
         && s.deltaK[i] == g.range(s.length[i])
         && s.rate[i] == g.rate(s.deltaK[i])
  }

  // The sample taken for 720 hours, or the last one if the record ends before it.
  function SampleAt720(g: Growth, size: nat): nat
    requires size > 0
  {
    if g.sample < size then g.sample else size - 1
  }

  // A quotient by a critical length of zero is infinite; one by an infinite length is zero.
  function Confidence(life: real, horizon: nat, length: real, critical: Limit): real {
    if life > 0.0 && life < horizon as real then 0.9
    else if critical.At? && (critical.length == 0.0 || length / critical.length > 0.5) then 0.8
    else 0.75
  }

  ghost predicate Predicts<P>(g: Growth, crack: CrackInfo, horizon: nat, steps: nat, r: Prediction<P>)
  {
    var start := Start(crack);
    var life := Life(g.hour, g.critical, start.length);
    var s := r.samples;
    && s.length == Series(g.step, g.critical, start.length, steps)
    && Sampled(g, start, s)
    && r.at720 == SizesAt(s, SampleAt720(g, |s.length|))
    && r.timeToFailure == (if |s.length| <= steps then s.timeHours[|s.length| - 1] else life as real)
    && r.risk == AssessRisk(r.timeToFailure, s.rate)
    && r.confidence == Confidence(life as real, horizon, start.length, g.critical)
  }

  // The series with the sample of one more time step.
  function Recorded(s: Samples, tHours: real, a: real, depth: real, width: real, deltaK: real, rate: real): Samples {
    Samples(s.timeHours + [tHours], s.length + [a], s.depth + [depth], s.width + [width], s.deltaK + [deltaK],
            s.rate + [rate])
  }

  lemma NothingSampled(g: Growth, start: Sizes)
    ensures Sampled(g, start, Samples([], [], [], [], [], []))
  {
  }

  lemma RecordNext(g: Growth, start: Sizes, s: Samples, a: real)
    requires Sampled(g, start, s)
    ensures Sampled(g, start, Recorded(s, g.time(|s.length|), a, start.depth + (a - start.length) * 0.4,
                                       start.width + (a - start.length) * 0.25, g.range(a), g.rate(g.range(a))))
  {
  }

  // The whole series is what is recorded and what n more steps from length a record.
  ghost predicate Leads(whole: seq<real>, done: seq<real>, f: real -> real, critical: Limit, a: real, n: nat) {
    whole == done + Series(f, critical, a, n)
  }

  lemma WholeLeads(f: real -> real, critical: Limit, a: real, n: nat)
    ensures Leads(Series(f, critical, a, n), [], f, critical, a, n)
  {
    hide Series;
  }

  lemma LeadsOn(whole: seq<real>, done: seq<real>, f: real -> real, critical: Limit, a: real, n: nat)
    requires Leads(whole, done, f, critical, a, n)
    ensures if n == 0 || Reached(critical, f(a)) then whole == done + [a]
            else Leads(whole, done + [a], f, critical, f(a), n - 1)
  {
  }

  lemma LifeStarts(h: real -> real, critical: Limit, a: real)
    ensures Life(h, critical, a) == if Reached(critical, a) then 0 else HoursFrom(h, critical, a, 0)
  {
  }

  lemma HoursGoOn(h: real -> real, critical: Limit, a: real, k: nat)
    ensures HoursFrom(h, critical, a, k) ==
      if !Below(critical, a) || k as real * HOUR >= HORIZON then 0
      else if h(a) < STALL then 1
      else 1 + HoursFrom(h, critical, a + h(a), k + 1)
  {
  }

  // ------------------------------------------------- what a prediction promises

  /** Lengths, depths and widths never decrease; lengths grow by ever larger steps and, after the
      first, stay below critical; a prediction for 720 hours never reports a failed crack. */
  lemma PredictionShape<P>(g: Growth, crack: CrackInfo, horizon: nat, steps: nat, r: Prediction<P>, i: nat)
    requires Natural(g) && Predicts(g, crack, horizon, steps, r) && i < |r.samples.length|
    ensures Nondecreasing(r.samples.length) && Convex(r.samples.length)
    ensures Nondecreasing(r.samples.depth) && Nondecreasing(r.samples.width)
    ensures i > 0 ==> !Reached(g.critical, r.samples.length[i])
    ensures !Reached(g.critical, Start(crack).length) ==> !Reached(g.critical, r.at720.length)
  {
    hide Series, Convex, Nondecreasing, Tracked, Life, Grows, Law;
    SamplesShape(g.step, g.critical, Start(crack), steps, r.samples, i);
    SamplesShape(g.step, g.critical, Start(crack), steps, r.samples, SampleAt720(g, |r.samples.length|));
  }

  /** The record is cut short exactly when the endless run reaches the critical length within the
      horizon, and the failure time is then the last recorded one. */
  lemma CutShortIffCritical<P>(g: Growth, crack: CrackInfo, horizon: nat, steps: nat, r: Prediction<P>)
    requires Natural(g) && Predicts(g, crack, horizon, steps, r)
    ensures var a, n := Start(crack).length, |r.samples.length|;
      && (n <= steps <==> steps > 0 && Reached(g.critical, Orbit(g.step, a, steps)))
      && (n <= steps ==> Reached(g.critical, Orbit(g.step, a, n)) && r.timeToFailure == g.time(n - 1))
  {
    hide Series, Orbit, Life, Grows, Law;
    SeriesFollowsOrbit(g.step, g.critical, Start(crack).length, steps);
  }

  /** Of two cracks under the same parameters the longer stays longer at every common sample, and its
      record ends no later; if the shorter one's record is cut short, so is the longer one's, and it
      fails no later. */
  lemma LongerCrackFailsNoLater<P>(g: Growth, crack: CrackInfo, longer: CrackInfo, horizon: nat, steps: nat,
                                   r: Prediction<P>, l: Prediction<P>)
    requires Natural(g) && (steps > 0 ==> Clock(g.time)) && Start(crack).length <= Start(longer).length
    requires Predicts(g, crack, horizon, steps, r) && Predicts(g, longer, horizon, steps, l)
    ensures |l.samples.length| <= |r.samples.length|
    ensures forall i: nat :: i < |l.samples.length| ==> r.samples.length[i] <= l.samples.length[i]
    ensures |r.samples.length| <= steps ==> l.timeToFailure <= r.timeToFailure
  {
    hide Series, Life, AssessRisk, SizesAt, SampleAt720, Grows, Law;
    SeriesOrdered(g.step, g.critical, Start(crack).length, Start(longer).length, steps);
  }

  /** If the shorter one's record is complete, its failure time is its remaining life, and the order
      of the two failure times depends on the stall exit. If the longer one's record is cut short: a
      shorter crack that stalls has one hour; one that does not must, growing by the hour, be below
      critical in every hour before the longer one fails. */
  lemma FailureOrderIff<P>(g: Growth, crack: CrackInfo, longer: CrackInfo, horizon: nat, steps: nat,
                           r: Prediction<P>, l: Prediction<P>)
    requires Natural(g) && Start(crack).length <= Start(longer).length && |r.samples.length| == steps + 1
    requires Predicts(g, crack, horizon, steps, r) && Predicts(g, longer, horizon, steps, l)
    ensures var a, b, h := Start(crack).length, Start(longer).length, g.hour;
      l.timeToFailure <= r.timeToFailure <==>
        if |l.samples.length| <= steps then
          var t := g.time(|l.samples.length| - 1);
          if h(a) < STALL then t <= 1.0
          else forall j: nat :: j as real < t ==> SoundAfter(h, g.critical, a, j)
        else h(a) >= STALL || !Below(g.critical, b) || h(b) < STALL || Reached(g.critical, b + h(b))
  {
    hide Series, Life, AssessRisk, SizesAt, SampleAt720, Sampled, Grows, Law, SoundAfter;
    var a, h := Start(crack).length, g.hour;
    assert |l.samples.timeHours| == |l.samples.length| by { SampledSizes(g, Start(longer), l.samples); }
    assert |r.samples.timeHours| == |r.samples.length| by { SampledSizes(g, Start(crack), r.samples); }
    if |l.samples.length| <= steps {
      LastTime(g, Start(longer), l.samples);
      StartsBelow(g, crack, longer, horizon, steps, r, l);
      if h(a) < STALL {
        StallIsOneHour(h, g.critical, a);
      } else {
        LifeOutlastsIff(h, g.critical, a, g.time(|l.samples.length| - 1));
      }
    } else {
      LifeAntitoneIff(g.hour, g.critical, a, Start(longer).length);
    }
  }

  lemma StallIsOneHour(h: real -> real, critical: Limit, a: real)
    requires Below(critical, a) && h(a) < STALL
    ensures Life(h, critical, a) == 1
  {
  }

  lemma StartsBelow<P>(g: Growth, crack: CrackInfo, longer: CrackInfo, horizon: nat, steps: nat,
                       r: Prediction<P>, l: Prediction<P>)
    requires Natural(g) && Predicts(g, crack, horizon, steps, r) && Predicts(g, longer, horizon, steps, l)
    requires |l.samples.length| <= steps < |r.samples.length|
    ensures Below(g.critical, Start(crack).length) && !Reached(g.critical, Orbit(g.step, Start(crack).length, steps))
  {
    hide Series, Life, AssessRisk, SizesAt, SampleAt720, Sampled, Law, Orbit;
    CutShortIffCritical(g, crack, horizon, steps, r);
    CutShortIffCritical(g, longer, horizon, steps, l);
    OrbitMonotone(g.step, Start(crack).length, Start(crack).length, steps);
  }

  /** In that case, if m steps take a crack at least as far as an hour at its present growth and the
      steps are m per hour of the horizon, the order fails only by the stall exit. */
  lemma FailureOrderByStall<P>(g: Growth, crack: CrackInfo, longer: CrackInfo, horizon: nat, m: nat,
                               r: Prediction<P>, l: Prediction<P>)
    requires Natural(g) && Clock(g.time) && Covers(g.step, g.hour, m)
    requires g.time(m * horizon) == horizon as real && horizon <= LAST_HOUR
    requires Predicts(g, crack, horizon, m * horizon, r) && Predicts(g, longer, horizon, m * horizon, l)
    requires Start(crack).length <= Start(longer).length
    requires |l.samples.length| <= m * horizon < |r.samples.length|
    ensures l.timeToFailure <= r.timeToFailure <==>
      g.hour(Start(crack).length) >= STALL || g.time(|l.samples.length| - 1) <= 1.0
  {
    hide Series, Life, AssessRisk, SizesAt, SampleAt720, Sampled, Grows, Law, Orbit, Covers;
    var a, h := Start(crack).length, g.hour;
    LastTime(g, Start(longer), l.samples);
    StartsBelow(g, crack, longer, horizon, m * horizon, r, l);
    assert g.time(|l.samples.length| - 1) <= g.time(m * horizon);
    if h(a) < STALL {
      StallIsOneHour(h, g.critical, a);
    } else {
      LifeCoversRun(g.step, h, g.critical, m, a, horizon);
    }
  }

  lemma SampledSizes(g: Growth, start: Sizes, s: Samples)
    requires Sampled(g, start, s)
    ensures |s.timeHours| == |s.rate| == |s.length|
  {
  }

  lemma LastTime(g: Growth, start: Sizes, s: Samples)
    requires Sampled(g, start, s) && s.length != []
    ensures |s.timeHours| == |s.length| && s.timeHours[|s.length| - 1] == g.time(|s.length| - 1)
  {
  }

  /** When a crack is rated CRITICAL: if the endless run reaches the critical length within the
      horizon, exactly when it does so after the first step and is last recorded before 720 hours;
      otherwise exactly when its remaining life is between one hour and 719. */
  lemma RatedCriticalIff<P>(g: Growth, crack: CrackInfo, horizon: nat, steps: nat, r: Prediction<P>)
    requires Natural(g) && (steps > 0 ==> Ticks(g.time)) && Predicts(g, crack, horizon, steps, r)
    ensures var a, n := Start(crack).length, |r.samples.length|;
      r.risk == CRITICAL <==>
        if steps > 0 && Reached(g.critical, Orbit(g.step, a, steps)) then !Reached(g.critical, g.step(a))
          && g.time(n - 1) < 720.0
        else 0 < Life(g.hour, g.critical, a) < 720
  {
    hide Series, Life, SizesAt, SampleAt720, Sampled, Grows, Law, Orbit;
    CutShortIffCritical(g, crack, horizon, steps, r);
    OneSampleIff(g.step, g.critical, Start(crack).length, steps);
  }

  // Time starts at zero and goes on.
  ghost predicate Ticks(time: nat -> real) { time(0) == 0.0 && forall i: nat :: i > 0 ==> time(i) > 0.0 }

  lemma OneSampleIff(f: real -> real, critical: Limit, a: real, n: nat)
    ensures |Series(f, critical, a, n)| == 1 <==> n == 0 || Reached(critical, f(a))
  {
  }

  /** A crack that has failed already is never rated CRITICAL, whatever the law. */
  lemma FailedIsNotCritical<P>(g: Growth, crack: CrackInfo, horizon: nat, steps: nat, r: Prediction<P>)
    requires Natural(g) && (steps > 0 ==> g.time(0) == 0.0) && Predicts(g, crack, horizon, steps, r)
    requires Reached(g.critical, Start(crack).length)
    ensures r.risk != CRITICAL && r.timeToFailure == 0.0
  {
    hide Series, SizesAt, SampleAt720, Sampled, Law;
    assert g.step(Start(crack).length) >= Start(crack).length;
    OneSampleIff(g.step, g.critical, Start(crack).length, steps);
    if steps > 0 { LastTime(g, Start(crack), r.samples); }
  }

  lemma {:induction false} NoGrowthSeries(f: real -> real, critical: Limit, a: real, n: nat)
    requires f(a) == a
    ensures Series(f, critical, a, n) == if Reached(critical, a) then [a] else seq(n + 1, (_: nat) => a)
    decreases n
  {
    if n > 0 && !Reached(critical, a) {
      NoGrowthSeries(f, critical, a, n - 1);
      assert [a] + seq(n, (_: nat) => a) == seq(n + 1, (_: nat) => a);
    }
  }

  /** A crack at which nothing grows: every sample is the first one, and the life is the one hour
      after which the stall exit fires, so that it is rated CRITICAL while it is sound and
      NEGLIGIBLE once it is not. */
  lemma StandstillRating<P>(g: Growth, crack: CrackInfo, horizon: nat, steps: nat, r: Prediction<P>)
    requires Predicts(g, crack, horizon, steps, r) && (steps > 0 ==> g.time(0) == 0.0)
    requires var a := Start(crack).length; g.step(a) == a && g.hour(a) == 0.0 && g.rate(g.range(a)) == 0.0
    ensures forall i: nat :: i < |r.samples.length| ==>
      r.samples.length[i] == Start(crack).length && r.samples.rate[i] == 0.0
    ensures r.timeToFailure == if Below(g.critical, Start(crack).length) then 1.0 else 0.0
    ensures r.risk == if Below(g.critical, Start(crack).length) then CRITICAL else NEGLIGIBLE
  {
    hide Series;
    NoGrowthSeries(g.step, g.critical, Start(crack).length, steps);
    assert Life(g.hour, g.critical, Start(crack).length) == if Below(g.critical, Start(crack).length) then 1 else 0;
  }

  // ------------------------------------------------- what a prediction reports

  function Severity(risk: Risk): nat {
    match risk
    case CRITICAL => 4
    case HIGH => 3
    case MEDIUM => 2
    case LOW => 1
    case NEGLIGIBLE => 0
  }

  /** A rating other than CRITICAL is one by the last recorded growth rate, whose thresholds are 1e-12,
      1e-10 and 1e-8. */
  lemma RatedByLastRate<P>(g: Growth, crack: CrackInfo, horizon: nat, steps: nat, r: Prediction<P>)
    requires Predicts(g, crack, horizon, steps, r) && r.risk != CRITICAL
    ensures r.samples.rate != []
    ensures var rate := r.samples.rate[|r.samples.rate| - 1];
      && (Severity(r.risk) >= 3 <==> rate > 0.00000001)
      && (Severity(r.risk) >= 2 <==> rate > 0.0000000001)
      && (Severity(r.risk) >= 1 <==> rate > 0.000000000001)
  {
    hide Series, Life, SizesAt, SampleAt720, Confidence;
    SampledSizes(g, Start(crack), r.samples);
  }

  /** Of two cracks with complete records, neither rated CRITICAL, the longer is rated no lower. */
  lemma LongerRatedNoLower<P>(g: Growth, crack: CrackInfo, longer: CrackInfo, horizon: nat, steps: nat,
                              r: Prediction<P>, l: Prediction<P>)
    requires Natural(g) && Start(crack).length <= Start(longer).length && |l.samples.length| == steps + 1
    requires forall a: real, b: real :: 0.0 <= a <= b ==> g.rate(g.range(a)) <= g.rate(g.range(b))
    requires Predicts(g, crack, horizon, steps, r) && Predicts(g, longer, horizon, steps, l)
    requires r.risk != CRITICAL && l.risk != CRITICAL
    ensures Severity(r.risk) <= Severity(l.risk)
  {
    hide Series, Life, SizesAt, SampleAt720, Confidence, AssessRisk, Severity, Law, Natural, Tracked, Orbit;
    var a, b := Start(crack).length, Start(longer).length;
    assert Grows(g.step) by { NaturalGrows(g); }
    SeriesOrdered(g.step, g.critical, a, b, steps);
    SeriesFollowsOrbit(g.step, g.critical, a, steps);
    OrbitGrows(g.step, a, steps);
    assert |r.samples.length| == steps + 1;
    RatedByLastRate(g, crack, horizon, steps, r);
    RatedByLastRate(g, longer, horizon, steps, l);
    SeverityOrdered(r.risk, r.samples.rate[steps], l.risk, l.samples.rate[steps]);
  }

  lemma NaturalGrows(g: Growth)
    requires Natural(g)
    ensures Grows(g.step)
  {
  }

  lemma SeverityOrdered(r: Risk, x: real, l: Risk, y: real)
    requires x <= y && r != CRITICAL && l != CRITICAL
    requires (Severity(r) >= 3 <==> x > 0.00000001) && (Severity(l) >= 3 <==> y > 0.00000001)
    requires (Severity(r) >= 2 <==> x > 0.0000000001) && (Severity(l) >= 2 <==> y > 0.0000000001)
    requires (Severity(r) >= 1 <==> x > 0.000000000001) && (Severity(l) >= 1 <==> y > 0.000000000001)
    ensures Severity(r) <= Severity(l)
  {
  }

  /** The confidence is 0.9 exactly for a remaining life below the horizon, and otherwise 0.8 exactly for
      a crack more than half as long as the critical length. */
  lemma ConfidenceIff<P>(g: Growth, crack: CrackInfo, horizon: nat, steps: nat, r: Prediction<P>)
    requires Predicts(g, crack, horizon, steps, r) && (g.critical.At? ==> g.critical.length >= 0.0)
    ensures var a, life := Start(crack).length, Life(g.hour, g.critical, Start(crack).length);
      && (r.confidence == 0.9 <==> 0 < life < horizon)
      && (!(0 < life < horizon) ==>
            r.confidence == if g.critical.At? && 2.0 * a > g.critical.length then 0.8 else 0.75)
  {
    hide Series, Life, SizesAt, SampleAt720, AssessRisk, Sampled;
    if g.critical.At? && g.critical.length > 0.0 { MoreThanHalf(Start(crack).length, g.critical.length); }
  }

  lemma MoreThanHalf(a: real, c: real)
    requires c > 0.0
    ensures a / c > 0.5 <==> 2.0 * a > c
  {
    var q := a / c;
    assert q * c == a;
    assert (q - 0.5) * c == a - 0.5 * c;
    if q > 0.5 { assert (q - 0.5) * c > 0.0; } else { assert (0.5 - q) * c >= 0.0; }
  }
}
