/** The two integration loops over crack length: `f` takes a crack one time step on, `h` says what it
    grows in an hour. */
module GrowthSeries {

  // A growth law on lengths: never negative, and a longer crack grows no slower.
  ghost predicate Law(g: real -> real) {
    forall a: real, b: real {:trigger g(a), g(b)} :: 0.0 <= a <= b ==> 0.0 <= g(a) <= g(b)
  }

  // A step that lengthens a crack, and a longer one by no less.
  ghost predicate Grows(f: real -> real) {
    forall a: real, b: real {:trigger f(a), f(b)} :: 0.0 <= a <= b ==> 0.0 <= f(a) - a <= f(b) - b
  }

  // A critical length. A quotient by zero makes it infinite or, zero by zero, not a number; no length
  // compares with the latter.
  datatype Limit = At(length: real) | Never | Undefined

  // a >= critical and a < critical
  predicate Reached(critical: Limit, a: real) { critical.At? && a >= critical.length }
  predicate Below(critical: Limit, a: real) { critical.Never? || (critical.At? && a < critical.length) }

  // ------------------------------------------------- the recorded lengths

  // n more steps at most; a step that reaches the critical length is not recorded and ends the run.
  function Series(f: real -> real, critical: Limit, a: real, n: nat): (r: seq<real>)
    ensures 1 <= |r| <= n + 1 && r[0] == a
    decreases n
  {
    if n == 0 || Reached(critical, f(a)) then [a] else [a] + Series(f, critical, f(a), n - 1)
  }

  // The crack with no critical length: k steps on.
  function Orbit(f: real -> real, a: real, k: nat): real
    decreases k
  {
    if k == 0 then a else Orbit(f, f(a), k - 1)
  }

  lemma {:induction false} OrbitGrows(f: real -> real, a: real, k: nat)
    requires Grows(f) && a >= 0.0
    ensures Orbit(f, a, k) >= a
    decreases k
  {
    if k > 0 {
      assert f(a) >= a;
      OrbitGrows(f, f(a), k - 1);
    }
  }

  /** The recorded lengths are those of the endless run, and the record is cut short exactly when
      that run reaches the critical length within n steps. */
  lemma {:induction false} SeriesFollowsOrbit(f: real -> real, critical: Limit, a: real, n: nat)
    requires Grows(f) && a >= 0.0
    ensures var s := Series(f, critical, a, n);
      && (forall i: nat :: i < |s| ==> s[i] == Orbit(f, a, i))
      && (|s| <= n <==> n > 0 && Reached(critical, Orbit(f, a, n)))
      && (|s| <= n ==> Reached(critical, Orbit(f, a, |s|)))
    decreases n
  {
    if n > 0 {
      assert f(a) >= a;
      if Reached(critical, f(a)) {
        OrbitGrows(f, f(a), n - 1);
        assert Orbit(f, a, 1) == Orbit(f, f(a), 0);
      } else {
        SeriesFollowsOrbit(f, critical, f(a), n - 1);
        assert n == 1 ==> Orbit(f, a, n) == Orbit(f, f(a), 0);
      }
    }
  }

  ghost predicate Nondecreasing(s: seq<real>) { forall i: nat, j: nat :: i <= j < |s| ==> s[i] <= s[j] }

  function Differences(s: seq<real>): (r: seq<real>)
    ensures |r| == if s == [] then 0 else |s| - 1
  {
    if |s| < 2 then [] else [s[1] - s[0]] + Differences(s[1..])
  }

  // Every difference is at least the one before it.
  ghost predicate Convex(s: seq<real>) { Nondecreasing(Differences(s)) }

  lemma {:induction false} DifferenceAt(s: seq<real>, i: nat)
    requires i + 1 < |s|
    ensures Differences(s)[i] == s[i + 1] - s[i]
  {
    if i > 0 { DifferenceAt(s[1..], i - 1); }
  }

  // What is added at one sample is no more than at any later one.
  ghost predicate Accelerates(s: seq<real>) {
    forall i: nat, j: nat {:trigger s[i], s[j]} :: i <= j && j + 1 < |s| ==> s[i + 1] - s[i] <= s[j + 1] - s[j]
  }

  /** Convex means: by ever larger steps. */
  lemma ConvexIff(s: seq<real>)
    ensures Convex(s) <==> Accelerates(s)
  {
    hide Differences;
    var d := Differences(s);
    forall i: nat | i + 1 < |s| ensures d[i] == s[i + 1] - s[i] { DifferenceAt(s, i); }
    if Convex(s) {
      forall i: nat, j: nat | i <= j && j + 1 < |s| ensures s[i + 1] - s[i] <= s[j + 1] - s[j] {
        assert d[i] <= d[j];
      }
    } else {
      var i: nat, j: nat :| i <= j < |d| && d[i] > d[j];
      assert s[i + 1] - s[i] > s[j + 1] - s[j];
    }
  }

  /** Recorded lengths never decrease, grow by ever larger steps, and stay below critical after the
      first. */
  lemma {:induction false} SeriesShape(f: real -> real, critical: Limit, a: real, n: nat)
    requires Grows(f) && a >= 0.0
    ensures var s := Series(f, critical, a, n);
      && Nondecreasing(s) && Convex(s)
      && (forall i: nat :: 0 < i < |s| ==> !Reached(critical, s[i]))
    decreases n
  {
    hide Nondecreasing, Convex;
    if n > 0 && !Reached(critical, f(a)) {
      assert f(a) >= a;
      SeriesShape(f, critical, f(a), n - 1);
      ConvexCons(f, critical, a, n - 1);
      NondecreasingCons(a, Series(f, critical, f(a), n - 1));
    } else {
      OneSample(a);
    }
  }

  lemma OneSample(a: real)
    ensures Nondecreasing([a]) && Convex([a])
  {
  }

  lemma NondecreasingCons(a: real, s: seq<real>)
    requires s != [] && a <= s[0] && Nondecreasing(s)
    ensures Nondecreasing([a] + s)
  {
  }

  lemma ConvexCons(f: real -> real, critical: Limit, a: real, m: nat)
    requires Grows(f) && a >= 0.0 && Convex(Series(f, critical, f(a), m))
    ensures Convex([a] + Series(f, critical, f(a), m))
  {
    hide Nondecreasing, Series;
    var s := Series(f, critical, f(a), m);
    assert ([a] + s)[1..] == s;
    assert Differences([a] + s) == [f(a) - a] + Differences(s);
    if |s| > 1 {
      assert f(a) >= a && f(a) - a <= f(f(a)) - f(a);
      SecondSample(f, critical, f(a), m);
      NondecreasingCons(f(a) - a, Differences(s));
    } else {
      assert [f(a) - a] + Differences(s) == [f(a) - a];
      OneSample(f(a) - a);
    }
  }

  lemma SecondSample(f: real -> real, critical: Limit, a: real, m: nat)
    ensures var s := Series(f, critical, a, m); |s| > 1 ==> s[1] == f(a) && Differences(s)[0] == f(a) - a
  {
  }

  /** Two cracks under one law: the longer stays longer at every common sample, and its record is
      cut short no later. */
  lemma {:induction false} SeriesOrdered(f: real -> real, critical: Limit, a: real, b: real, n: nat)
    requires Grows(f) && 0.0 <= a <= b
    ensures var s, t := Series(f, critical, a, n), Series(f, critical, b, n);
      |t| <= |s| && forall i: nat :: i < |t| ==> s[i] <= t[i]
    decreases n
  {
    if n > 0 {
      assert 0.0 <= f(a) - a <= f(b) - b;
      if !Reached(critical, f(b)) { SeriesOrdered(f, critical, f(a), f(b), n - 1); }
    }
  }

  // ------------------------------------------------- the remaining life

  const HOUR: real := 3600.0
  const HORIZON: real := 100000000.0
  const STALL: real := 0.000000000000001
  // the first number of hours past the horizon
  const LAST_HOUR: nat := 27778

  // The hours the loop still takes when k have passed.
  function HoursFrom(h: real -> real, critical: Limit, a: real, k: nat): (r: nat)
    ensures k <= LAST_HOUR ==> r <= LAST_HOUR - k
    decreases LAST_HOUR - k, a
  {
    if !Below(critical, a) || k as real * HOUR >= HORIZON then 0
    else if h(a) < STALL then 1
    else 1 + HoursFrom(h, critical, a + h(a), k + 1)
  }

  function Life(h: real -> real, critical: Limit, a: real): (r: nat)
    ensures r <= LAST_HOUR
  {
    if Reached(critical, a) then 0 else HoursFrom(h, critical, a, 0)
  }

  lemma {:induction false} HoursAntitone(h: real -> real, critical: Limit, a: real, b: real, k: nat)
    requires Law(h) && 0.0 <= a <= b && h(a) >= STALL
    ensures HoursFrom(h, critical, b, k) <= HoursFrom(h, critical, a, k)
    decreases LAST_HOUR - k
  {
    if Below(critical, b) && k as real * HOUR < HORIZON {
      assert k < LAST_HOUR && h(a) <= h(b) && h(a) <= h(a + h(a));
      HoursAntitone(h, critical, a + h(a), b + h(b), k + 1);
    }
  }

  /** A longer crack lives no longer, exactly when the shorter one does not stall in its first hour
      or the longer one has failed or does not get past its own first hour either. */
  lemma LifeAntitoneIff(h: real -> real, critical: Limit, a: real, b: real)
    requires Law(h) && 0.0 <= a <= b
    ensures Life(h, critical, b) <= Life(h, critical, a) <==>
      h(a) >= STALL || !Below(critical, b) || h(b) < STALL || Reached(critical, b + h(b))
  {
    if h(a) >= STALL {
      HoursAntitone(h, critical, a, b, 0);
    } else if h(b) >= STALL && Below(critical, b) {
      var next := b + h(b);
      assert Life(h, critical, b) == 1 + HoursFrom(h, critical, next, 1);
      assert HoursFrom(h, critical, next, 1) == 0 <==> Reached(critical, next);
    }
  }

  function HourlyOrbit(h: real -> real, a: real, k: nat): real
    decreases k
  {
    if k == 0 then a else HourlyOrbit(h, a + h(a), k - 1)
  }

  lemma {:induction false} HoursCount(h: real -> real, critical: Limit, a: real, k: nat, j: nat)
    requires Law(h) && a >= 0.0 && !critical.Undefined? && h(a) >= STALL && k <= LAST_HOUR
    ensures j < HoursFrom(h, critical, a, k) ==> Below(critical, HourlyOrbit(h, a, j))
    ensures j == HoursFrom(h, critical, a, k) ==> k + j == LAST_HOUR || Reached(critical, HourlyOrbit(h, a, j))
    decreases j
  {
    if Below(critical, a) && k < LAST_HOUR && j > 0 {
      assert h(a) <= h(a + h(a));
      HoursCount(h, critical, a + h(a), k + 1, j - 1);
    }
  }

  /** A crack that does not stall lives until the first hour in which it is at least critical, or
      through the whole horizon. */
  lemma LifeIsFirstCrossing(h: real -> real, critical: Limit, a: real, j: nat)
    requires Law(h) && a >= 0.0 && Below(critical, a) && h(a) >= STALL
    ensures j < Life(h, critical, a) ==> Below(critical, HourlyOrbit(h, a, j))
    ensures j == Life(h, critical, a) ==> j == LAST_HOUR || Reached(critical, HourlyOrbit(h, a, j))
  {
    HoursCount(h, critical, a, 0, j);
  }

  /** The stall exit: an hourly step below the threshold can only be the first. */
  lemma {:induction false} StallsOnlyAtFirst(h: real -> real, a: real, k: nat)
    requires Law(h) && a >= 0.0 && k > 0 && h(a) >= STALL
    ensures h(HourlyOrbit(h, a, k)) >= STALL
    decreases k
  {
    assert h(a) <= h(a + h(a));
    if k > 1 { StallsOnlyAtFirst(h, a + h(a), k - 1); }
  }

  // Growing by the hour, the crack is still below critical after j hours, and these are within the horizon.
  ghost predicate SoundAfter(h: real -> real, critical: Limit, a: real, j: nat) {
    j < LAST_HOUR && Below(critical, HourlyOrbit(h, a, j))
  }

  /** The life of a crack that does not stall, against any time: it is as long exactly when the crack,
      growing by the hour, is still below critical in every hour before that time. */
  lemma LifeOutlastsIff(h: real -> real, critical: Limit, a: real, t: real)
    requires Law(h) && a >= 0.0 && Below(critical, a) && h(a) >= STALL
    ensures t <= Life(h, critical, a) as real <==>
      forall j: nat :: j as real < t ==> SoundAfter(h, critical, a, j)
  {
    hide HoursFrom, HourlyOrbit;
    var life := Life(h, critical, a);
    if t <= life as real {
      forall j: nat | j as real < t ensures SoundAfter(h, critical, a, j) {
        LifeIsFirstCrossing(h, critical, a, j);
      }
    } else {
      LifeIsFirstCrossing(h, critical, a, life);
      assert !SoundAfter(h, critical, a, life);
    }
  }

  // m steps take a crack at least as far as an hour at its present growth.
  ghost predicate Covers(f: real -> real, h: real -> real, m: nat) {
    forall a: real {:trigger h(a)} :: a >= 0.0 ==> a + h(a) <= Orbit(f, a, m)
  }

  lemma {:induction false} OrbitMonotone(f: real -> real, a: real, b: real, k: nat)
    requires Grows(f) && 0.0 <= a <= b
    ensures a <= Orbit(f, a, k) <= Orbit(f, b, k)
    decreases k
  {
    if k > 0 {
      assert 0.0 <= f(a) - a <= f(b) - b;
      OrbitMonotone(f, f(a), f(b), k - 1);
    }
  }

  lemma {:induction false} OrbitAdds(f: real -> real, a: real, m: nat, k: nat)
    ensures Orbit(f, Orbit(f, a, m), k) == Orbit(f, a, m + k)
    decreases m
  {
    if m > 0 { OrbitAdds(f, f(a), m - 1, k); }
  }

  lemma {:induction false} HourlyBelowOrbit(f: real -> real, h: real -> real, m: nat, a: real, j: nat)
    requires Grows(f) && Law(h) && Covers(f, h, m) && a >= 0.0
    ensures HourlyOrbit(h, a, j) <= Orbit(f, a, m * j)
    decreases j
  {
    if j > 0 {
      var next := a + h(a);
      assert h(a) >= 0.0;
      HourlyBelowOrbit(f, h, m, next, j - 1);
      OrbitMonotone(f, next, Orbit(f, a, m), m * (j - 1));
      OrbitAdds(f, a, m, m * (j - 1));
      assert m * j == m + m * (j - 1);
    }
  }

  lemma OrbitLater(f: real -> real, a: real, m: nat, i: nat, j: nat)
    requires Grows(f) && a >= 0.0 && i <= j
    ensures Orbit(f, a, m * i) <= Orbit(f, a, m * j)
  {
    hide Grows, Orbit;
    assert m * i + m * (j - i) == m * j;
    OrbitMonotone(f, a, a, m * i);
    OrbitMonotone(f, Orbit(f, a, m * i), Orbit(f, a, m * i), m * (j - i));
    OrbitAdds(f, a, m * i, m * (j - i));
  }

  /** So a crack whose run over some hours does not reach the critical length lives through them. */
  lemma LifeCoversRun(f: real -> real, h: real -> real, critical: Limit, m: nat, a: real, hours: nat)
    requires Grows(f) && Law(h) && Covers(f, h, m) && a >= 0.0 && Below(critical, a) && h(a) >= STALL
    requires hours <= LAST_HOUR && !Reached(critical, Orbit(f, a, m * hours))
    ensures Life(h, critical, a) >= hours
  {
    hide Life, Orbit, HourlyOrbit, Covers;
    var life := Life(h, critical, a);
    LifeIsFirstCrossing(h, critical, a, life);
    HourlyBelowOrbit(f, h, m, a, life);
    if life <= hours { OrbitLater(f, a, m, life, hours); }
  }

  // ------------------------------------------------- the series beside the lengths

  datatype Sizes = Sizes(length: real, depth: real, width: real)

  // The six series.
  datatype Samples = Samples(timeHours: seq<real>, length: seq<real>, depth: seq<real>, width: seq<real>,
                             deltaK: seq<real>, rate: seq<real>)

  ghost predicate Tracked(start: Sizes, s: Samples) {
    && |s.depth| == |s.width| == |s.length|
    && forall i: nat :: i < |s.length| ==>
         && s.depth[i] == start.depth + (s.length[i] - start.length) * 0.4
         && s.width[i] == start.width + (s.length[i] - start.length) * 0.25
  }

  function SizesAt(s: Samples, i: nat): Sizes
    requires i < |s.length| && |s.depth| == |s.width| == |s.length|
  {
    Sizes(s.length[i], s.depth[i], s.width[i])
  }

  /** All three measures never decrease, lengths grow by ever larger steps, and no sample but the
      first is at or above critical; a sample never shows a failed crack that was sound at first. */
  lemma SamplesShape(f: real -> real, critical: Limit, start: Sizes, n: nat, s: Samples, i: nat)
    requires Grows(f) && start.length >= 0.0
    requires s.length == Series(f, critical, start.length, n) && Tracked(start, s) && i < |s.length|
    ensures Nondecreasing(s.length) && Convex(s.length) && Nondecreasing(s.depth) && Nondecreasing(s.width)
    ensures !Reached(critical, start.length) || i > 0 ==> !Reached(critical, SizesAt(s, i).length)
  {
    hide Convex;
    SeriesShape(f, critical, start.length, n);
  }
}
