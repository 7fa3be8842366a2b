/** One time step of the prediction: four slopes of a growth law and their weighted mean. As in the
    source, a slope is already the growth over the time step, and is multiplied by it again. */
module RungeKutta {
  import opened GrowthSeries
  import opened Reals

  // The slope seen from length a when the crack has moved on at slope x for a time dt.
  function Slope(g: real -> real, dt: real, a: real, x: real): real { Over(g, dt, Moved(a, x, dt)) }

  // What a crack of length a grows in a time dt, and where it is after growing at slope x.
  function Over(g: real -> real, dt: real, a: real): real { g(a) * dt }
  function Moved(a: real, x: real, dt: real): real { a + x * dt }

  function K1(g: real -> real, dt: real, a: real): real { Over(g, dt, a) }
  function K2(g: real -> real, dt: real, a: real): real { Slope(g, dt, a, 0.5 * K1(g, dt, a)) }
  function K3(g: real -> real, dt: real, a: real): real { Slope(g, dt, a, 0.5 * K2(g, dt, a)) }
  function K4(g: real -> real, dt: real, a: real): real { Slope(g, dt, a, K3(g, dt, a)) }

  function Mean(k1: real, k2: real, k3: real, k4: real, dt: real): real { (k1 + 2.0 * k2 + 2.0 * k3 + k4) * dt / 6.0 }

  function Increment(g: real -> real, dt: real, a: real): real {
    Mean(K1(g, dt, a), K2(g, dt, a), K3(g, dt, a), K4(g, dt, a), dt)
  }

  function Advance(g: real -> real, dt: real, a: real): real { a + Increment(g, dt, a) }

  lemma Scaled(x: real, y: real, d: real)
    requires 0.0 <= x <= y && 0.0 <= d
    ensures 0.0 <= x * d <= y * d
  {
  }

  lemma MovedMonotone(a: real, x: real, b: real, y: real, dt: real)
    requires dt >= 0.0 && 0.0 <= a <= b && 0.0 <= x <= y
    ensures 0.0 <= Moved(a, x, dt) <= Moved(b, y, dt)
  {
    Scaled(x, y, dt);
  }

  lemma LawAt(g: real -> real, a: real, b: real)
    requires Law(g) && 0.0 <= a <= b
    ensures 0.0 <= g(a) <= g(b)
  {
  }

  // An earlier slope x of a shorter crack a, a later slope y of a longer crack b.
  lemma SlopeMonotone(g: real -> real, dt: real, a: real, x: real, b: real, y: real)
    requires Law(g) && dt >= 0.0 && 0.0 <= a <= b && 0.0 <= x <= y
    ensures 0.0 <= Slope(g, dt, a, x) <= Slope(g, dt, b, y)
  {
    hide Moved, Law;
    MovedMonotone(a, x, b, y, dt);
    LawAt(g, Moved(a, x, dt), Moved(b, y, dt));
    Scaled(g(Moved(a, x, dt)), g(Moved(b, y, dt)), dt);
  }

  lemma SlopeAtRest(g: real -> real, dt: real, a: real)
    ensures K1(g, dt, a) == Slope(g, dt, a, 0.0)
  {
    assert Moved(a, 0.0, dt) == a;
  }

  lemma MeanMonotone(k1: real, k2: real, k3: real, k4: real, l1: real, l2: real, l3: real, l4: real, dt: real)
    requires 0.0 <= k1 <= l1 && 0.0 <= k2 <= l2 && 0.0 <= k3 <= l3 && 0.0 <= k4 <= l4 && dt >= 0.0
    ensures 0.0 <= Mean(k1, k2, k3, k4, dt) <= Mean(l1, l2, l3, l4, dt)
  {
    Scaled(k1 + 2.0 * k2 + 2.0 * k3 + k4, l1 + 2.0 * l2 + 2.0 * l3 + l4, dt);
  }

  lemma MeanOfEqual(k: real, dt: real)
    ensures Mean(k, k, k, k, dt) == k * dt
  {
  }

  /** The four slopes only increase, so the increment lies between the first and the last. */
  lemma StagesIncrease(g: real -> real, dt: real, a: real)
    requires Law(g) && dt >= 0.0 && a >= 0.0
    ensures 0.0 <= K1(g, dt, a) <= K2(g, dt, a) <= K3(g, dt, a) <= K4(g, dt, a)
    ensures 0.0 <= K1(g, dt, a) * dt <= Increment(g, dt, a) <= K4(g, dt, a) * dt
  {
    hide Law, K1, Slope, Mean;
    var k1, k2, k3, k4 := K1(g, dt, a), K2(g, dt, a), K3(g, dt, a), K4(g, dt, a);
    SlopeAtRest(g, dt, a);
    SlopeMonotone(g, dt, a, 0.0, a, 0.0);
    SlopeMonotone(g, dt, a, 0.0, a, 0.5 * k1);
    SlopeMonotone(g, dt, a, 0.5 * k1, a, 0.5 * k2);
    SlopeMonotone(g, dt, a, 0.5 * k2, a, k3);
    MeanOfEqual(k1, dt);
    MeanOfEqual(k4, dt);
    MeanMonotone(k1, k1, k1, k1, k1, k2, k3, k4, dt);
    MeanMonotone(k1, k2, k3, k4, k4, k4, k4, k4, dt);
  }

  /** A longer crack grows by no less in one step. */
  lemma IncrementMonotone(g: real -> real, dt: real, a: real, b: real)
    requires Law(g) && dt >= 0.0 && 0.0 <= a <= b
    ensures 0.0 <= Increment(g, dt, a) <= Increment(g, dt, b)
  {
    hide Law, K1, Slope, Mean;
    SlopeAtRest(g, dt, a);
    SlopeAtRest(g, dt, b);
    SlopeMonotone(g, dt, a, 0.0, b, 0.0);
    SlopeMonotone(g, dt, a, 0.5 * K1(g, dt, a), b, 0.5 * K1(g, dt, b));
    SlopeMonotone(g, dt, a, 0.5 * K2(g, dt, a), b, 0.5 * K2(g, dt, b));
    SlopeMonotone(g, dt, a, K3(g, dt, a), b, K3(g, dt, b));
    MeanMonotone(K1(g, dt, a), K2(g, dt, a), K3(g, dt, a), K4(g, dt, a), K1(g, dt, b), K2(g, dt, b), K3(g, dt, b),
                 K4(g, dt, b), dt);
  }

  /** Under a constant law the increment carries the time step twice: it is the growth over that time
      exactly when nothing grows or the time step is zero or one second. */
  lemma ConstantLaw(g: real -> real, r: real, dt: real, a: real)
    requires forall x: real :: g(x) == r
    ensures Increment(g, dt, a) == r * dt * dt
    ensures Increment(g, dt, a) == Over(g, dt, a) <==> r == 0.0 || dt == 0.0 || dt == 1.0
  {
    hide Moved, Mean;
    var k := r * dt;
    assert K1(g, dt, a) == k && K2(g, dt, a) == k && K3(g, dt, a) == k && K4(g, dt, a) == k;
    MeanOfEqual(k, dt);
    assert k * dt - k == k * (dt - 1.0);
    ZeroProduct(k, dt - 1.0);
    ZeroProduct(r, dt);
  }

  // What a stage grows on a law proportional to the length, having moved on by a part of the growth u.
  function Stage(z: real, a: real, part: real, u: real): real { z * (a + part * u) }

  lemma LinearSlope(g: real -> real, r: real, dt: real, a: real, part: real, k: real, x: real)
    requires (forall y: real :: g(y) == r * y) && x == part * k
    ensures Slope(g, dt, a, x) * dt == Stage(r * dt * dt, a, part, k * dt)
  {
    var moved := Moved(a, x, dt);
    assert g(moved) == r * moved;
  }

  lemma MeanOfGrowths(k1: real, k2: real, k3: real, k4: real, dt: real)
    ensures Mean(k1, k2, k3, k4, dt) == (k1 * dt + 2.0 * (k2 * dt) + 2.0 * (k3 * dt) + k4 * dt) / 6.0
  {
  }

  lemma TaylorSum(a: real, z: real, u1: real, u2: real, u3: real, u4: real)
    requires u1 == Stage(z, a, 0.0, 0.0) && u2 == Stage(z, a, 0.5, u1)
    requires u3 == Stage(z, a, 0.5, u2) && u4 == Stage(z, a, 1.0, u3)
    ensures (u1 + 2.0 * u2 + 2.0 * u3 + u4) / 6.0 == a * (z + z * z / 2.0 + z * z * z / 6.0 + z * z * z * z / 24.0)
  {
    assert u2 == a * (z + z * z / 2.0);
    assert u3 == a * (z + z * z / 2.0 + z * z * z / 4.0) by { assert z * u2 == a * (z * z + z * z * z / 2.0); }
    assert u4 == a * (z + z * z + z * z * z / 2.0 + z * z * z * z / 4.0) by {
      assert z * u3 == a * (z * z + z * z * z / 2.0 + z * z * z * z / 4.0);
    }
  }

  /** On a law proportional to the length a step multiplies the length by the exponential up to its
      fourth-order term, at the rate times the square of the time step. */
  lemma LinearLaw(g: real -> real, r: real, dt: real, a: real)
    requires forall x: real :: g(x) == r * x
    ensures var z := r * dt * dt;
      Increment(g, dt, a) == a * (z + z * z / 2.0 + z * z * z / 6.0 + z * z * z * z / 24.0)
  {
    hide Slope, K1, Mean, Stage;
    var k1, k2, k3, k4 := K1(g, dt, a), K2(g, dt, a), K3(g, dt, a), K4(g, dt, a);
    SlopeAtRest(g, dt, a);
    assert 0.0 * dt == 0.0;
    LinearSlope(g, r, dt, a, 0.0, 0.0, 0.0);
    LinearSlope(g, r, dt, a, 0.5, k1, 0.5 * k1);
    LinearSlope(g, r, dt, a, 0.5, k2, 0.5 * k2);
    LinearSlope(g, r, dt, a, 1.0, k3, k3);
    MeanOfGrowths(k1, k2, k3, k4, dt);
    TaylorSum(a, r * dt * dt, k1 * dt, k2 * dt, k3 * dt, k4 * dt);
  }

  // One step, and one hour, as functions of the length.
  function Stepper(g: real -> real, dt: real): real -> real { a => Advance(g, dt, a) }
  function Hourly(g: real -> real): real -> real { a => Over(g, HOUR, a) }

  /** Whatever the growth law, a step only lengthens a crack, and a longer one by no less. */
  lemma StepperGrows(g: real -> real, dt: real)
    requires Law(g) && dt >= 0.0
    ensures Grows(Stepper(g, dt))
  {
    hide Increment, Law;
    var f := Stepper(g, dt);
    forall a: real, b: real | 0.0 <= a <= b ensures 0.0 <= f(a) - a <= f(b) - b { IncrementMonotone(g, dt, a, b); }
  }

  lemma HourlyIsLaw(g: real -> real)
    requires Law(g)
    ensures Law(Hourly(g))
  {
    var h := Hourly(g);
    forall a: real, b: real | 0.0 <= a <= b ensures 0.0 <= h(a) <= h(b) { Scaled(g(a), g(b), HOUR); }
  }
}
