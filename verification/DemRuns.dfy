/** Whole runs of the particle simulation: what a step does to every particle, when a run ends, and
    what is measured on the way. */
module DemRuns {
  import opened Reals
  import opened Vectors
  import opened DemContacts
  import opened DemMotion

  // ------------------------------------------------- one particle, step by step

  // One particle between steps: a fixed one is at rest without force, a free one has been falling
  // for k steps from o and is in the box.
  ghost predicate Settled(p: Particle, g: Geometry, dt: real, o: Vec, k: nat) {
    if p.fixed then p.velocity == ZERO && p.force == ZERO
    else Falling(p, dt, o, k) && InBox(g, p.position)
  }

  // What a step does to a particle: it falls on, or, once out of the box, starts again at rest at
  // a point in the crack.
  ghost predicate Stepped(p: Particle, o: Vec, k: nat, q: Particle, o': Vec, k': nat, g: Geometry, dt: real) {
    if p.fixed then q == p && o' == o && k' == k else
    var moved := Drift(Kick(p, dt), dt);
    if InBox(g, moved.position) then q == moved && o' == o && k' == k + 1
    else q == moved.(position := o', velocity := ZERO) && InsideCrack(g, o') && k' == 0
  }

  lemma StepSettles(p: Particle, o: Vec, k: nat, q: Particle, o': Vec, k': nat, g: Geometry, dt: real)
    requires Sized(g) && Settled(p, g, dt, o, k) && Stepped(p, o, k, q, o', k', g, dt)
    ensures Settled(q, g, dt, o', k') && q.fixed == p.fixed
  {
    hide Falling, InBox, InsideCrack;
    if !p.fixed {
      FallsOn(p, dt, o, k);
      if !InBox(g, Drift(Kick(p, dt), dt).position) {
        InsideIsInBox(g, o');
        StartsFalling(q, dt);
      }
    }
  }

  // What the boundary conditions do to a particle that has just moved.
  ghost predicate Bounded(p: Particle, o: Vec, k: nat, q: Particle, o': Vec, k': nat, g: Geometry) {
    if p.fixed then q == p.(velocity := ZERO, force := ZERO) && o' == o && k' == k
    else if InBox(g, p.position) then q == p && o' == o && k' == k + 1
    else q == p.(position := o', velocity := ZERO) && InsideCrack(g, o') && k' == 0
  }

  // A whole step, in which the contacts only changed forces.
  lemma StepOfOne(p: Particle, o: Vec, k: nat, kicked: Particle, pushed: Particle, q: Particle, o': Vec, k': nat,
                  g: Geometry, dt: real)
    requires kicked == Kick(p, dt) && SameBut(kicked, pushed) && Bounded(Drift(pushed, dt), o, k, q, o', k', g)
    requires Settled(p, g, dt, o, k)
    ensures Stepped(p, o, k, q, o', k', g, dt)
  {
    hide InBox, InsideCrack;
    if !p.fixed { DriftIgnoresForces(kicked, pushed, dt); }
  }

  // What n steps leave of a particle: itself, if it is fixed; if it is free, it has been falling from
  // where it was before, n steps longer, or, for less than n steps, from a point in the crack.
  ghost predicate Travelled(p: Particle, o: Vec, k: nat, q: Particle, o': Vec, k': nat, n: nat, g: Geometry) {
    && q == p.(position := q.position, velocity := q.velocity, force := q.force)
    && if p.fixed then q == p else (o' == o && k' == k + n) || (InsideCrack(g, o') && k' < n)
  }

  lemma TravelOn(p0: Particle, o0: Vec, k0: nat, p: Particle, o: Vec, k: nat, q: Particle, o': Vec, k': nat, n: nat,
                 g: Geometry, dt: real)
    requires Travelled(p0, o0, k0, p, o, k, n, g) && Stepped(p, o, k, q, o', k', g, dt)
    ensures Travelled(p0, o0, k0, q, o', k', n + 1, g)
  {
    hide InBox, InsideCrack;
  }

  lemma NobodyTravelled(p: Particle, o: Vec, k: nat, g: Geometry)
    ensures Travelled(p, o, k, p, o, k, 0, g)
  {
  }

  // ------------------------------------------------- sums and averages

  function Total(value: Particle -> real, ps: seq<Particle>): real {
    if ps == [] then 0.0 else Total(value, ps[..|ps| - 1]) + value(ps[|ps| - 1])
  }

  function Count(counts: Particle -> bool, ps: seq<Particle>): nat {
    if ps == [] then 0 else Count(counts, ps[..|ps| - 1]) + (if counts(ps[|ps| - 1]) then 1 else 0)
  }

  function Select(counts: Particle -> bool, ps: seq<Particle>): (r: seq<Particle>)
    ensures |r| == Count(counts, ps)
  {
    if ps == [] then [] else
    var last := ps[|ps| - 1];
    Select(counts, ps[..|ps| - 1]) + (if counts(last) then [last] else [])
  }

  function Free(): Particle -> bool { (p: Particle) => !p.fixed }

  function Speed(sqrt: real -> real): Particle -> real {
    (p: Particle) => if p.fixed then 0.0 else Norm(sqrt, p.velocity)
  }

  function MeanSpeed(sqrt: real -> real, ps: seq<Particle>): real {
    var n := Count(Free(), ps);
    if n > 0 then Total(Speed(sqrt), ps) / n as real else Total(Speed(sqrt), ps)
  }

  function Kinetic(): Particle -> real {
    (p: Particle) => if p.fixed then 0.0 else 0.5 * p.mass * Dot(p.velocity, p.velocity)
  }

  function Potential(): Particle -> real {
    (p: Particle) => if p.fixed then 0.0 else p.mass * 9.81 * p.position.z
  }

  function Energy(ps: seq<Particle>): real { Total(Kinetic(), ps) + Total(Potential(), ps) }

  function ForceSize(sqrt: real -> real): Particle -> real { (p: Particle) => Norm(sqrt, p.force) }

  function LargestForce(sqrt: real -> real, ps: seq<Particle>): real {
    if ps == [] then 0.0 else Max(LargestForce(sqrt, ps[..|ps| - 1]), Norm(sqrt, ps[|ps| - 1].force))
  }

  // ------------------------------------------------- runs

  // All particles between two steps, with where and how long ago each started to fall.
  datatype Moment = Moment(particles: seq<Particle>, origins: seq<Vec>, ages: seq<nat>)

  ghost predicate AllSettled(m: Moment, g: Geometry, dt: real) {
    && |m.origins| == |m.ages| == |m.particles|
    && forall i: nat :: i < |m.particles| ==> Settled(m.particles[i], g, dt, m.origins[i], m.ages[i])
  }

  ghost predicate MomentStep(m: Moment, m': Moment, g: Geometry, dt: real) {
    && |m.origins| == |m.ages| == |m.particles| == |m'.particles| == |m'.origins| == |m'.ages|
    && forall i: nat :: i < |m.particles| ==>
         Stepped(m.particles[i], m.origins[i], m.ages[i], m'.particles[i], m'.origins[i], m'.ages[i], g, dt)
  }

  ghost predicate Trajectory(trace: seq<Moment>, g: Geometry, dt: real) {
    && trace != [] && AllSettled(trace[0], g, dt)
    && forall k: nat {:trigger trace[k]} :: 0 < k < |trace| ==> MomentStep(trace[k - 1], trace[k], g, dt)
  }

  lemma MomentSettles(m: Moment, m': Moment, g: Geometry, dt: real)
    requires Sized(g) && AllSettled(m, g, dt) && MomentStep(m, m', g, dt)
    ensures AllSettled(m', g, dt)
    ensures forall i: nat :: i < |m.particles| ==> m'.particles[i].fixed == m.particles[i].fixed
  {
    hide Settled, Stepped;
    forall i: nat | i < |m.particles|
      ensures Settled(m'.particles[i], g, dt, m'.origins[i], m'.ages[i])
      ensures m'.particles[i].fixed == m.particles[i].fixed
    {
      StepSettles(m.particles[i], m.origins[i], m.ages[i], m'.particles[i], m'.origins[i], m'.ages[i], g, dt);
    }
  }

  /** At every moment of a run all particles are settled. */
  lemma {:induction false} TrajectorySettles(trace: seq<Moment>, g: Geometry, dt: real, k: nat)
    requires Sized(g) && Trajectory(trace, g, dt) && k < |trace|
    ensures AllSettled(trace[k], g, dt) && |trace[k].particles| == |trace[0].particles|
  {
    hide Settled, Stepped;
    if k > 0 {
      TrajectorySettles(trace, g, dt, k - 1);
      assert trace[k - 1 + 1] == trace[k];
      MomentSettles(trace[k - 1], trace[k], g, dt);
    }
  }

  /** What k steps of a run leave of every particle. */
  lemma {:induction false} TrajectoryTravels(trace: seq<Moment>, g: Geometry, dt: real, k: nat, i: nat)
    requires Trajectory(trace, g, dt) && k < |trace| && i < |trace[0].particles|
    ensures |trace[k].origins| == |trace[k].ages| == |trace[k].particles| == |trace[0].particles|
    ensures Travelled(trace[0].particles[i], trace[0].origins[i], trace[0].ages[i],
                      trace[k].particles[i], trace[k].origins[i], trace[k].ages[i], k, g)
  {
    hide Settled, Stepped, Travelled;
    var m := trace[0];
    if k == 0 {
      NobodyTravelled(m.particles[i], m.origins[i], m.ages[i], g);
    } else {
      var p, q := trace[k - 1], trace[k];
      TrajectoryTravels(trace, g, dt, k - 1, i);
      TravelOn(m.particles[i], m.origins[i], m.ages[i], p.particles[i], p.origins[i], p.ages[i],
               q.particles[i], q.origins[i], q.ages[i], k - 1, g, dt);
    }
  }

  // ------------------------------------------------- when a run ends

  // The speed is tested after the steps numbered 100, 200, ..., counting from zero.
  predicate Tests(k: int) { k > 0 && k % 100 == 0 }

  ghost predicate Stops(sqrt: real -> real, trace: seq<Moment>, k: int)
    requires -1 <= k && k + 1 < |trace|
  {
    Tests(k) && MeanSpeed(sqrt, trace[k + 1].particles) < 0.000000000001
  }

  // The run ends with the first test that finds the free particles hardly moving, or after maxSteps.
  ghost predicate RunLength(sqrt: real -> real, trace: seq<Moment>, maxSteps: int) {
    var n := |trace| - 1;
    && 0 <= n <= (if maxSteps < 0 then 0 else maxSteps)
    && (forall k: nat :: k + 1 < n ==> !Stops(sqrt, trace, k))
    && (n < maxSteps ==> Stops(sqrt, trace, n - 1))
  }

  // No test so far has ended the run.
  ghost predicate Unstopped(sqrt: real -> real, trace: seq<Moment>) {
    forall k: nat :: k + 1 < |trace| ==> !Stops(sqrt, trace, k)
  }

  lemma RunStarts(sqrt: real -> real, m: Moment, g: Geometry, dt: real)
    requires AllSettled(m, g, dt)
    ensures Trajectory([m], g, dt) && Unstopped(sqrt, [m])
  {
  }

  lemma TrajectoryOn(trace: seq<Moment>, m: Moment, g: Geometry, dt: real)
    requires Trajectory(trace, g, dt) && MomentStep(trace[|trace| - 1], m, g, dt)
    ensures Trajectory(trace + [m], g, dt)
  {
    hide AllSettled, MomentStep;
  }

  lemma RunStops(sqrt: real -> real, trace: seq<Moment>, m: Moment, maxSteps: int)
    requires trace != [] && Unstopped(sqrt, trace) && |trace| <= maxSteps
    ensures Stops(sqrt, trace + [m], |trace| - 1) ==> RunLength(sqrt, trace + [m], maxSteps)
    ensures !Stops(sqrt, trace + [m], |trace| - 1) ==> Unstopped(sqrt, trace + [m])
  {
    hide MeanSpeed;
    var next := trace + [m];
    forall k: nat | k + 1 < |trace| ensures !Stops(sqrt, next, k) {
      assert !Stops(sqrt, trace, k) && next[k + 1] == trace[k + 1];
    }
  }

  lemma RunOut(sqrt: real -> real, trace: seq<Moment>, maxSteps: int)
    requires trace != [] && Unstopped(sqrt, trace) && |trace| - 1 == if maxSteps < 0 then 0 else maxSteps
    ensures RunLength(sqrt, trace, maxSteps)
  {
    hide Stops;
  }

  /** The number of steps that a run reports is the number it made exactly when it was asked for no
      negative number and no test before the last step found the particles at rest. */
  lemma ReportedStepsIff(sqrt: real -> real, trace: seq<Moment>, maxSteps: int)
    requires RunLength(sqrt, trace, maxSteps)
    ensures |trace| - 1 == maxSteps <==>
      maxSteps >= 0 && forall k: nat :: k + 1 < maxSteps && k + 1 < |trace| ==> !Stops(sqrt, trace, k)
  {
    hide MeanSpeed;
  }

  // The root function at work on squares.
  ghost predicate Roots(sqrt: real -> real) {
    forall x: real :: x >= 0.0 ==> sqrt(x) >= 0.0 && sqrt(x) * sqrt(x) == x
  }

  lemma RootOfSquare(sqrt: real -> real, x: real)
    requires Roots(sqrt)
    ensures sqrt(x * x) == Abs(x)
  {
    var r, a := sqrt(x * x), Abs(x);
    assert x * x >= 0.0 && r >= 0.0 && r * r == x * x == a * a;
    assert (r - a) * (r + a) == 0.0;
    ZeroProduct(r - a, r + a);
  }

  // For how many steps the free particles have been falling, all together.
  function Falls(ps: seq<Particle>, ages: seq<nat>): nat
    requires |ages| == |ps|
  {
    if ps == [] then 0 else
    var n := |ps| - 1;
    Falls(ps[..n], ages[..n]) + (if ps[n].fixed || ps[n].mass <= 0.0 then 0 else ages[n])
  }

  // By how much a step accelerates.
  function Pace(dt: real): (r: real)
    ensures r >= 0.0 && (r == 0.0 <==> dt == 0.0)
  {
    4.905 * Abs(dt)
  }

  lemma VerticalSpeed(sqrt: real -> real, z: real)
    requires Roots(sqrt)
    ensures Norm(sqrt, Vec(0.0, 0.0, z)) == Abs(z)
  {
    hide Roots, Abs;
    RootOfSquare(sqrt, z);
    assert 0.0 * 0.0 == 0.0;
    assert Square(Vec(0.0, 0.0, z)) == z * z;
  }

  lemma SpeedOfFalling(sqrt: real -> real, p: Particle, g: Geometry, dt: real, o: Vec, k: nat)
    requires Roots(sqrt) && Settled(p, g, dt, o, k)
    ensures Speed(sqrt)(p) == Pace(dt) * (if p.fixed || p.mass <= 0.0 then 0 else k) as real
  {
    hide InBox, FallPosition, Weight, Roots, Norm, Abs, Pace;
    AbsOfFall(dt, k);
    if !p.fixed { VerticalSpeed(sqrt, if p.mass > 0.0 then -4.905 * dt * k as real else 0.0); }
  }

  lemma AbsOfFall(dt: real, k: nat)
    ensures Abs(-4.905 * dt * k as real) == Pace(dt) * k as real
    ensures Abs(0.0) == 0.0 == Pace(dt) * 0 as real
  {
    if dt >= 0.0 { assert dt * k as real >= 0.0; } else { assert dt * k as real <= 0.0; }
  }

  lemma {:induction false} SpeedsAreAges(sqrt: real -> real, m: Moment, g: Geometry, dt: real)
    requires Roots(sqrt) && AllSettled(m, g, dt)
    ensures Total(Speed(sqrt), m.particles) == Pace(dt) * Falls(m.particles, m.ages) as real
    decreases |m.particles|
  {
    hide Settled, Roots, Speed, Pace;
    if m.particles != [] {
      var n := |m.particles| - 1;
      var rest := Moment(m.particles[..n], m.origins[..n], m.ages[..n]);
      SpeedsAreAges(sqrt, rest, g, dt);
      SpeedOfFalling(sqrt, m.particles[n], g, dt, m.origins[n], m.ages[n]);
      var x := if m.particles[n].fixed || m.particles[n].mass <= 0.0 then 0 else m.ages[n];
      Spread(Pace(dt), Falls(rest.particles, rest.ages), x);
    } else {
      assert Pace(dt) * 0.0 == 0.0;
    }
  }

  lemma Spread(a: real, x: nat, y: nat)
    ensures a * (x + y) as real == a * x as real + a * y as real
  {
  }

  /** A test ends the run exactly when the particles have been falling for too few steps since they
      were last put back; contacts play no part. */
  lemma StopsIff(sqrt: real -> real, trace: seq<Moment>, g: Geometry, dt: real, k: nat)
    requires Roots(sqrt) && Sized(g) && Trajectory(trace, g, dt) && k + 1 < |trace|
    ensures var m := trace[k + 1];
      |m.ages| == |m.particles| &&
      (Stops(sqrt, trace, k) <==>
        Tests(k) && Pace(dt) * Falls(m.particles, m.ages) as real
                    < 0.000000000001 * (if Count(Free(), m.particles) == 0 then 1
                                        else Count(Free(), m.particles)) as real)
  {
    hide AllSettled, Trajectory, Total, Falls, Roots, Count;
    var m := trace[k + 1];
    TrajectorySettles(trace, g, dt, k + 1);
    assert |m.ages| == |m.particles| by { SettledSizes(m, g, dt); }
    SpeedsAreAges(sqrt, m, g, dt);
    var n := Count(Free(), m.particles);
    if n > 0 { Mean(Total(Speed(sqrt), m.particles), n as real, 0.000000000001); }
  }

  lemma SettledSizes(m: Moment, g: Geometry, dt: real)
    requires AllSettled(m, g, dt)
    ensures |m.origins| == |m.ages| == |m.particles|
  {
  }

  lemma Mean(x: real, n: real, bound: real)
    requires n > 0.0
    ensures x / n < bound <==> x < bound * n
  {
    assert x / n * n == x;
  }

  // Nobody who can fall is falling: each was put back in the very step before.
  ghost predicate NobodyFalls(m: Moment)
    requires |m.ages| == |m.particles|
  {
    forall i: nat :: i < |m.particles| ==> m.particles[i].fixed || m.particles[i].mass <= 0.0 || m.ages[i] == 0
  }

  lemma {:induction false} NoFallsIff(ps: seq<Particle>, os: seq<Vec>, ages: seq<nat>)
    requires |ages| == |ps|
    ensures Falls(ps, ages) == 0 <==> NobodyFalls(Moment(ps, os, ages))
  {
    if ps != [] {
      var n := |ps| - 1;
      NoFallsIff(ps[..n], os, ages[..n]);
      assert NobodyFalls(Moment(ps, os, ages)) ==> NobodyFalls(Moment(ps[..n], os, ages[..n]));
    }
  }

  /** With a time step that is not tiny for the number of free particles, such as the default one for
      up to 4905, a test ends the run exactly when nobody is falling. */
  lemma StopsIffNobodyFalls(sqrt: real -> real, trace: seq<Moment>, g: Geometry, dt: real, k: nat)
    requires Roots(sqrt) && Sized(g) && Trajectory(trace, g, dt) && k + 1 < |trace|
    requires Pace(dt) >= 0.000000000001 * Count(Free(), trace[k + 1].particles) as real && dt != 0.0
    ensures |trace[k + 1].ages| == |trace[k + 1].particles|
    ensures Stops(sqrt, trace, k) <==> Tests(k) && NobodyFalls(trace[k + 1])
  {
    hide Trajectory, Falls, Roots, Count, NobodyFalls, Stops;
    var m := trace[k + 1];
    StopsIff(sqrt, trace, g, dt, k);
    NoFallsIff(m.particles, m.origins, m.ages);
    var n, falls := Count(Free(), m.particles), Falls(m.particles, m.ages);
    if n == 0 {
      NoFreeNoFalls(m.particles, m.ages);
      assert Pace(dt) * 0.0 == 0.0;
    } else if falls > 0 {
      AtLeast(Pace(dt), falls);
    } else {
      assert Pace(dt) * 0.0 == 0.0;
    }
  }

  lemma AtLeast(a: real, n: nat)
    requires a >= 0.0 && n > 0
    ensures a * n as real >= a
  {
    assert a * (n as real - 1.0) >= 0.0;
  }

  lemma {:induction false} NoFreeNoFalls(ps: seq<Particle>, ages: seq<nat>)
    requires |ages| == |ps| && Count(Free(), ps) == 0
    ensures Falls(ps, ages) == 0
  {
    if ps != [] { NoFreeNoFalls(ps[..|ps| - 1], ages[..|ps| - 1]); }
  }

  lemma {:induction false} NoFreeNoSpeed(sqrt: real -> real, ps: seq<Particle>)
    requires forall i: nat :: i < |ps| ==> ps[i].fixed
    ensures Total(Speed(sqrt), ps) == 0.0 && Count(Free(), ps) == 0
  {
    if ps != [] { NoFreeNoSpeed(sqrt, ps[..|ps| - 1]); }
  }

  lemma NoFreeStops(sqrt: real -> real, trace: seq<Moment>, g: Geometry, dt: real, k: nat)
    requires Trajectory(trace, g, dt) && k + 1 < |trace|
    requires forall i: nat :: i < |trace[0].particles| ==> trace[0].particles[i].fixed
    ensures Stops(sqrt, trace, k) <==> Tests(k)
  {
    hide Trajectory, Total, Count, Travelled;
    var ps := trace[k + 1].particles;
    TrajectorySize(trace, g, dt, 0);
    forall i: nat | i < |trace[0].particles| ensures |ps| == |trace[0].particles| && ps[i].fixed {
      TrajectoryTravels(trace, g, dt, k + 1, i);
      TravelKeepsFixed(trace[0].particles[i], trace[0].origins[i], trace[0].ages[i], ps[i],
                       trace[k + 1].origins[i], trace[k + 1].ages[i], k + 1, g);
    }
    TrajectorySize(trace, g, dt, k + 1);
    NoFreeNoSpeed(sqrt, ps);
  }

  lemma TravelKeepsFixed(p: Particle, o: Vec, k: nat, q: Particle, o': Vec, k': nat, n: nat, g: Geometry)
    requires Travelled(p, o, k, q, o', k', n, g)
    ensures q.fixed == p.fixed
  {
  }

  lemma {:induction false} TrajectorySize(trace: seq<Moment>, g: Geometry, dt: real, k: nat)
    requires Trajectory(trace, g, dt) && k < |trace|
    ensures |trace[k].origins| == |trace[k].ages| == |trace[k].particles| == |trace[0].particles|
  {
    hide Settled, Stepped;
    if k > 0 { TrajectorySize(trace, g, dt, k - 1); }
  }

  lemma StopsAfterTest(sqrt: real -> real, trace: seq<Moment>, k: int)
    requires -1 <= k && k + 1 < |trace| && Stops(sqrt, trace, k)
    ensures Tests(k)
  {
  }

  /** Without a free particle a run ends after 101 steps, whatever number it is asked for. */
  lemma NoFreeEndsAt101(sqrt: real -> real, trace: seq<Moment>, g: Geometry, dt: real, maxSteps: int)
    requires Trajectory(trace, g, dt) && RunLength(sqrt, trace, maxSteps)
    requires forall i: nat :: i < |trace[0].particles| ==> trace[0].particles[i].fixed
    ensures |trace| - 1 == if maxSteps < 0 then 0 else if maxSteps < 101 then maxSteps else 101
  {
    hide Trajectory, Stops;
    var n := |trace| - 1;
    if n < maxSteps {
      assert Tests(n - 1) by { StopsAfterTest(sqrt, trace, n - 1); }
      NoFreeStops(sqrt, trace, g, dt, n - 1);
    }
    if n > 101 { NoFreeStops(sqrt, trace, g, dt, 100); }
  }

  // ------------------------------------------------- runs that nobody falls out of

  // The moment after generation: every free particle has mass and starts at rest inside the crack.
  ghost predicate Generated(m: Moment, g: Geometry) {
    && |m.origins| == |m.ages| == |m.particles|
    && forall i: nat :: i < |m.particles| && !m.particles[i].fixed ==>
         m.particles[i].mass > 0.0 && InsideCrack(g, m.origins[i]) && m.ages[i] == 0
  }

  // A particle that falls for n steps from inside the crack does not leave the box.
  predicate StaysInBox(g: Geometry, dt: real, n: nat) {
    4.905 * (dt * dt) * Triangle(n) <= MaxExtent(g) - HalfSize(g).z
  }

  lemma TriangleMonotone(k: nat, n: nat)
    requires k <= n
    ensures 0.0 <= Triangle(k) <= Triangle(n)
  {
    assert k * (k + 1) <= n * (n + 1);
  }

  lemma InBoxWhileFalling(g: Geometry, dt: real, o: Vec, k: nat, n: nat)
    requires Sized(g) && InsideCrack(g, o) && k <= n && StaysInBox(g, dt, n)
    ensures InBox(g, FallPosition(dt, o, k))
  {
    hide Triangle, InBox, InsideCrack, MaxExtent, HalfSize;
    TriangleMonotone(k, n);
    Further(4.905 * (dt * dt), Triangle(k), Triangle(n));
    Lowered(g, o, 4.905 * (dt * dt) * Triangle(k));
  }

  lemma Lowered(g: Geometry, o: Vec, drop: real)
    requires Sized(g) && InsideCrack(g, o) && 0.0 <= drop <= MaxExtent(g) - HalfSize(g).z
    ensures InBox(g, Vec(o.x, o.y, o.z - drop))
  {
  }

  lemma Further(a: real, x: real, y: real)
    requires a >= 0.0 && 0.0 <= x <= y
    ensures 0.0 <= a * x <= a * y
  {
  }

  lemma FallsOnInBox(p: Particle, o: Vec, k: nat, q: Particle, o': Vec, k': nat, g: Geometry, dt: real, n: nat)
    requires Settled(p, g, dt, o, k) && Stepped(p, o, k, q, o', k', g, dt) && Sized(g)
    requires !p.fixed && p.mass > 0.0 && InsideCrack(g, o) && k < n && StaysInBox(g, dt, n)
    ensures o' == o && k' == k + 1 && !q.fixed && q.mass == p.mass
  {
    hide InBox, InsideCrack, StaysInBox, FallPosition, FallVelocity;
    FallsOn(p, dt, o, k);
    InBoxWhileFalling(g, dt, o, k + 1, n);
  }

  // Every free particle has been falling for k steps.
  ghost predicate FallingFor(m: Moment, g: Geometry, k: nat) {
    && |m.origins| == |m.ages| == |m.particles|
    && forall i: nat :: i < |m.particles| && !m.particles[i].fixed ==>
         m.particles[i].mass > 0.0 && InsideCrack(g, m.origins[i]) && m.ages[i] == k
  }

  lemma {:induction false} NobodyPutBack(trace: seq<Moment>, g: Geometry, dt: real, k: nat, n: nat)
    requires Sized(g) && Trajectory(trace, g, dt) && k < |trace| && k <= n
    requires Generated(trace[0], g) && StaysInBox(g, dt, n)
    ensures FallingFor(trace[k], g, k) && |trace[k].particles| == |trace[0].particles|
    ensures forall i: nat :: i < |trace[0].particles| ==> trace[k].particles[i].fixed == trace[0].particles[i].fixed
  {
    hide Settled, Stepped, InsideCrack, StaysInBox;
    if k > 0 {
      NobodyPutBack(trace, g, dt, k - 1, n);
      TrajectorySettles(trace, g, dt, k - 1);
      var p, q := trace[k - 1], trace[k];
      assert MomentStep(p, q, g, dt);
      MomentSettles(p, q, g, dt);
      forall i: nat | i < |q.particles| && !q.particles[i].fixed
        ensures q.particles[i].mass > 0.0 && q.origins[i] == p.origins[i] && q.ages[i] == k
      {
        FallsOnInBox(p.particles[i], p.origins[i], p.ages[i], q.particles[i], q.origins[i], q.ages[i], g, dt, n);
      }
    }
  }

  lemma {:induction false} FallsTogether(ps: seq<Particle>, ages: seq<nat>, k: nat)
    requires |ages| == |ps| && forall i: nat :: i < |ps| && !ps[i].fixed ==> ps[i].mass > 0.0 && ages[i] == k
    ensures Falls(ps, ages) == k * Count(Free(), ps)
  {
    if ps != [] {
      var n := |ps| - 1;
      FallsTogether(ps[..n], ages[..n], k);
      assert k * (Count(Free(), ps[..n]) + 1) == k * Count(Free(), ps[..n]) + k;
    }
  }

  lemma {:induction false} SomeFreeCounts(ps: seq<Particle>, i: nat)
    requires i < |ps| && !ps[i].fixed
    ensures Count(Free(), ps) > 0
  {
    if i < |ps| - 1 { SomeFreeCounts(ps[..|ps| - 1], i); }
  }

  function Times(a: real, n: nat): real { a * n as real }

  lemma Cancel(a: real, k: nat, n: nat, total: nat, bound: real)
    requires n > 0 && total == k * n
    ensures Times(a, total) < Times(bound, n) <==> Times(a, k) < bound
  {
    var x, y := k as real, n as real;
    assert total as real == x * y;
    assert a * (x * y) - bound * y == (a * x - bound) * y;
    if a * x < bound { assert (a * x - bound) * y < 0.0; } else { assert (a * x - bound) * y >= 0.0; }
  }

  lemma TimesMonotone(a: real, k: nat, n: nat)
    requires a >= 0.0 && k <= n
    ensures Times(a, k) <= Times(a, n)
  {
    Further(a, k as real, n as real);
  }

  // When k steps of falling are too slow for the test.
  predicate Slow(dt: real, k: nat) { Times(Pace(dt), k) < 0.000000000001 }

  // The test finds the particles too slow, on average.
  predicate SlowTogether(dt: real, falls: nat, count: nat) {
    Times(Pace(dt), falls) < Times(0.000000000001, count)
  }

  lemma SlowIff(dt: real, k: nat, count: nat, falls: nat)
    requires count > 0 && falls == k * count
    ensures SlowTogether(dt, falls, count) <==> Slow(dt, k)
  {
    hide Pace, Times;
    Cancel(Pace(dt), k, count, falls, 0.000000000001);
  }

  lemma StopsWhenSlow(sqrt: real -> real, trace: seq<Moment>, g: Geometry, dt: real, k: nat)
    requires Roots(sqrt) && Sized(g) && Trajectory(trace, g, dt) && k + 1 < |trace|
    requires Count(Free(), trace[k + 1].particles) > 0
    ensures var m := trace[k + 1];
      |m.ages| == |m.particles| &&
      (Stops(sqrt, trace, k) <==>
        Tests(k) && SlowTogether(dt, Falls(m.particles, m.ages), Count(Free(), m.particles)))
  {
    hide Roots, Trajectory, Stops, Count, Falls, Pace;
    StopsIff(sqrt, trace, g, dt, k);
  }

  lemma TestWhileFalling(sqrt: real -> real, trace: seq<Moment>, g: Geometry, dt: real, k: nat, n: nat)
    requires Roots(sqrt) && Sized(g) && Trajectory(trace, g, dt) && k + 1 < |trace| && k < n
    requires Generated(trace[0], g) && StaysInBox(g, dt, n)
    requires exists i: nat :: i < |trace[0].particles| && !trace[0].particles[i].fixed
    ensures Stops(sqrt, trace, k) <==> Tests(k) && Slow(dt, k + 1)
  {
    hide Trajectory, Generated, StaysInBox, Roots, Count, Falls, Stops, Slow, SlowTogether, InsideCrack;
    var m := trace[k + 1];
    NobodyPutBack(trace, g, dt, k + 1, n);
    var i: nat :| i < |trace[0].particles| && !trace[0].particles[i].fixed;
    SomeFreeCounts(m.particles, i);
    FallsTogether(m.particles, m.ages, k + 1);
    StopsWhenSlow(sqrt, trace, g, dt, k);
    SlowIff(dt, k + 1, Count(Free(), m.particles), Falls(m.particles, m.ages));
  }

  lemma SlowBefore(dt: real, k: nat, n: nat)
    requires k <= n && Slow(dt, n)
    ensures Slow(dt, k)
  {
    hide Times, Abs;
    TimesMonotone(Pace(dt), k, n);
  }

  /** When the report of a run is right, for particles just generated that cannot fall out of the box in
      the steps asked for: exactly when there are at most 101 of these, or a fall of 101 steps is fast
      enough for the first test; there must be one free particle at least. */
  lemma ReportIsRightIff(sqrt: real -> real, trace: seq<Moment>, g: Geometry, dt: real, maxSteps: nat)
    requires Roots(sqrt) && Sized(g) && Trajectory(trace, g, dt) && RunLength(sqrt, trace, maxSteps)
    requires Generated(trace[0], g) && StaysInBox(g, dt, maxSteps)
    requires exists i: nat :: i < |trace[0].particles| && !trace[0].particles[i].fixed
    ensures |trace| - 1 == maxSteps <==> maxSteps <= 101 || !Slow(dt, 101)
  {
    hide Trajectory, Generated, StaysInBox, Roots, Stops, Slow;
    var n := |trace| - 1;
    if n < maxSteps {
      assert Stops(sqrt, trace, n - 1);
      StopsAfterTest(sqrt, trace, n - 1);
      TestWhileFalling(sqrt, trace, g, dt, n - 1, maxSteps);
      SlowBefore(dt, 101, n);
    }
    if n > 101 { TestWhileFalling(sqrt, trace, g, dt, 100, maxSteps); }
  }

  // ------------------------------------------------- what is measured

  lemma {:induction false} SameTotals(value: Particle -> real, ps: seq<Particle>, qs: seq<Particle>)
    requires |qs| == |ps| && forall i: nat :: i < |ps| ==> value(qs[i]) == value(ps[i])
    ensures Total(value, qs) == Total(value, ps)
  {
    if ps != [] { SameTotals(value, ps[..|ps| - 1], qs[..|ps| - 1]); }
  }

  lemma {:induction false} SameLargest(sqrt: real -> real, ps: seq<Particle>, qs: seq<Particle>)
    requires |qs| == |ps| && forall i: nat :: i < |ps| ==> qs[i].force == ps[i].force
    ensures LargestForce(sqrt, qs) == LargestForce(sqrt, ps)
  {
    if ps != [] { SameLargest(sqrt, ps[..|ps| - 1], qs[..|ps| - 1]); }
  }

  // Every tenth step leaves a record of the energy, the first one too.
  ghost predicate Recorded(trace: seq<Moment>, history: seq<real>) {
    && trace != [] && |history| == (|trace| + 8) / 10
    && forall i: nat :: i < |history| ==> history[i] == Energy(trace[10 * i + 1].particles)
  }

  lemma RecordOn(trace: seq<Moment>, history: seq<real>, m: Moment)
    requires Recorded(trace, history)
    ensures Recorded(trace + [m], if (|trace| - 1) % 10 == 0 then history + [Energy(m.particles)] else history)
  {
    hide Energy;
  }

  lemma {:induction false} LargestIsPositive(sqrt: real -> real, ps: seq<Particle>)
    ensures LargestForce(sqrt, ps) >= 0.0
  {
    if ps != [] { LargestIsPositive(sqrt, ps[..|ps| - 1]); }
  }

  lemma ForceOfOne(p: Particle, o: Vec, k: nat, q: Particle, o': Vec, k': nat, g: Geometry, dt: real)
    requires Settled(p, g, dt, o, k) && Stepped(p, o, k, q, o', k', g, dt)
    ensures q.force == p.force
  {
    hide InBox, InsideCrack, FallVelocity, FallPosition, Weight;
  }

  /** The forces that a run measures never change, and hold nothing of the contacts: each is the
      particle's own weight. */
  lemma ForcesStay(sqrt: real -> real, m: Moment, m': Moment, g: Geometry, dt: real)
    requires AllSettled(m, g, dt) && MomentStep(m, m', g, dt)
    ensures LargestForce(sqrt, m'.particles) == LargestForce(sqrt, m.particles)
    ensures Total(ForceSize(sqrt), m'.particles) == Total(ForceSize(sqrt), m.particles)
  {
    hide Settled, Stepped, Norm;
    var ps, qs := m.particles, m'.particles;
    forall i: nat | i < |ps| ensures qs[i].force == ps[i].force {
      ForceOfOne(ps[i], m.origins[i], m.ages[i], qs[i], m'.origins[i], m'.ages[i], g, dt);
    }
    SameLargest(sqrt, ps, qs);
    SameTotals(ForceSize(sqrt), ps, qs);
  }

  function EnergyOf(p: Particle): real { Kinetic()(p) + Potential()(p) }

  lemma {:induction false} EnergyIsTotal(ps: seq<Particle>)
    ensures Energy(ps) == Total(EnergyOf, ps)
  {
    if ps != [] { EnergyIsTotal(ps[..|ps| - 1]); }
  }

  function Squared(x: real): real { x * x }

  // What a particle that has been falling for k steps loses in the next one.
  function Loss(p: Particle, k: nat, dt: real): real {
    if p.fixed || p.mass <= 0.0 then 0.0 else p.mass * Squared(4.905 * dt) * (k as real + 1.5)
  }

  function Losses(ps: seq<Particle>, ages: seq<nat>, dt: real): real
    requires |ages| == |ps|
  {
    if ps == [] then 0.0 else
    var n := |ps| - 1;
    Losses(ps[..n], ages[..n], dt) + Loss(ps[n], ages[n], dt)
  }

  lemma FallEnergy(p: Particle, dt: real, o: Vec, k: nat)
    requires !p.fixed && p.mass > 0.0 && Falling(p, dt, o, k)
    ensures EnergyOf(p) == p.mass * (9.81 * o.z - Squared(4.905 * dt) * (Squared(k as real) / 2.0 + k as real))
  {
  }

  lemma OneStepLoss(m: real, h: real, s: real, k: nat)
    ensures m * (h - s * (Squared((k + 1) as real) / 2.0 + (k + 1) as real))
         == m * (h - s * (Squared(k as real) / 2.0 + k as real)) - m * s * (k as real + 1.5)
  {
    var x, y := Squared((k + 1) as real) / 2.0 + (k + 1) as real, Squared(k as real) / 2.0 + k as real;
    assert x == y + (k as real + 1.5);
    assert s * x == s * y + s * (k as real + 1.5);
    assert m * (s * (k as real + 1.5)) == m * s * (k as real + 1.5);
  }

  lemma LossOfOne(p: Particle, o: Vec, k: nat, q: Particle, o': Vec, k': nat, g: Geometry, dt: real)
    requires Settled(p, g, dt, o, k) && Stepped(p, o, k, q, o', k', g, dt) && Sized(g)
    requires p.fixed || k' == k + 1
    ensures EnergyOf(q) == EnergyOf(p) - Loss(p, k, dt)
  {
    hide InBox, InsideCrack, Falling, FallVelocity, FallPosition, EnergyOf, Squared;
    StepSettles(p, o, k, q, o', k', g, dt);
    if !p.fixed {
      StepKeepsMass(p, o, k, q, o', k', g, dt);
      if p.mass > 0.0 {
        FallEnergy(p, dt, o, k);
        FallEnergy(q, dt, o, k + 1);
        OneStepLoss(p.mass, 9.81 * o.z, Squared(4.905 * dt), k);
      } else {
        RestingEnergy(p, q, dt, o, k);
      }
    }
  }

  lemma StepKeepsMass(p: Particle, o: Vec, k: nat, q: Particle, o': Vec, k': nat, g: Geometry, dt: real)
    requires Stepped(p, o, k, q, o', k', g, dt)
    ensures q.mass == p.mass && (p.fixed || k' == k + 1 ==> o' == o)
  {
    hide InBox, InsideCrack;
  }

  lemma RestingEnergy(p: Particle, q: Particle, dt: real, o: Vec, k: nat)
    requires !p.fixed && !q.fixed && q.mass == p.mass <= 0.0 && Falling(p, dt, o, k) && Falling(q, dt, o, k + 1)
    ensures EnergyOf(q) == EnergyOf(p)
  {
    hide Weight, FallVelocity, FallPosition, EnergyOf;
    SameEnergy(p, q);
  }

  lemma SameEnergy(p: Particle, q: Particle)
    requires q.fixed == p.fixed && q.mass == p.mass && q.velocity == p.velocity && q.position == p.position
    ensures EnergyOf(q) == EnergyOf(p)
  {
    hide Dot;
    assert Kinetic()(q) == Kinetic()(p);
  }

  /** A step in which nobody is put back takes from the energy exactly what the falling particles
      lose: they are accelerated by half of the gravity that their potential energy counts. */
  lemma EnergyIsLost(m: Moment, m': Moment, g: Geometry, dt: real)
    requires Sized(g) && AllSettled(m, g, dt) && MomentStep(m, m', g, dt)
    requires forall i: nat :: i < |m.particles| ==> m.particles[i].fixed || m'.ages[i] == m.ages[i] + 1
    ensures Energy(m'.particles) == Energy(m.particles) - Losses(m.particles, m.ages, dt)
    ensures Losses(m.particles, m.ages, dt) >= 0.0
  {
    hide Settled, Stepped, Energy, EnergyOf, Loss;
    EnergyIsTotal(m.particles);
    EnergyIsTotal(m'.particles);
    forall i: nat | i < |m.particles|
      ensures EnergyOf(m'.particles[i]) == EnergyOf(m.particles[i]) - Loss(m.particles[i], m.ages[i], dt)
    {
      LossOfOne(m.particles[i], m.origins[i], m.ages[i], m'.particles[i], m'.origins[i], m'.ages[i], g, dt);
    }
    LossesAddUp(m.particles, m.ages, m'.particles, dt);
  }

  lemma {:induction false} LossesAddUp(ps: seq<Particle>, ages: seq<nat>, qs: seq<Particle>, dt: real)
    requires |ages| == |qs| == |ps|
    requires forall i: nat :: i < |ps| ==> EnergyOf(qs[i]) == EnergyOf(ps[i]) - Loss(ps[i], ages[i], dt)
    ensures Total(EnergyOf, qs) == Total(EnergyOf, ps) - Losses(ps, ages, dt)
    ensures Losses(ps, ages, dt) >= 0.0
  {
    hide EnergyOf, Loss;
    if ps != [] {
      var n := |ps| - 1;
      LossesAddUp(ps[..n], ages[..n], qs[..n], dt);
      LossPositive(ps[n], ages[n], dt);
    }
  }

  lemma LossPositive(p: Particle, k: nat, dt: real)
    ensures Loss(p, k, dt) >= 0.0
  {
    if p.mass > 0.0 {
      assert Squared(4.905 * dt) >= 0.0;
      assert p.mass * Squared(4.905 * dt) >= 0.0;
    }
  }
}
