/** How a particle of the simulation moves in one time step, and the crack it moves in. */
module DemMotion {
  import opened Reals
  import opened Vectors
  import opened DemContacts

  datatype Geometry = Geometry(origin: Vec, length: real, depth: real, width: real, boundaryPoints: seq<Vec>)

  ghost predicate Sized(g: Geometry) { g.length >= 0.0 && g.depth >= 0.0 && g.width >= 0.0 }

  // Depth and width are in micrometres.
  function HalfSize(g: Geometry): Vec {
    Vec(g.length * 0.5, g.width * 0.5 * 0.000001, g.depth * 0.5 * 0.000001)
  }

  predicate InsideCrack(g: Geometry, p: Vec) {
    var rel, half := Sub(p, g.origin), HalfSize(g);
    Abs(rel.x) <= half.x && Abs(rel.y) <= half.y && Abs(rel.z) <= half.z
  }

  function MaxExtent(g: Geometry): real { Max(Max(g.length, g.width * 0.000001), g.depth * 0.000001) }

  predicate InBox(g: Geometry, p: Vec) {
    var rel := Sub(p, g.origin);
    Abs(rel.x) <= MaxExtent(g) && Abs(rel.y) <= MaxExtent(g) && Abs(rel.z) <= MaxExtent(g)
  }

  lemma InsideIsInBox(g: Geometry, p: Vec)
    requires Sized(g) && InsideCrack(g, p)
    ensures InBox(g, p)
  {
  }

  // ------------------------------------------------- one step of one particle

  function Weight(mass: real): Vec { Vec(0.0, 0.0, -9.81 * mass) }

  // integrate_velocities
  function Kick(p: Particle, dt: real): Particle {
    if p.fixed || p.mass <= 0.0 then p
    else p.(velocity := Add(p.velocity, Mul(Mul(p.force, 1.0 / p.mass), dt * 0.5)))
  }

  // integrate_positions
  function Drift(p: Particle, dt: real): Particle {
    if p.fixed then p
    else p.(position := Add(p.position, Mul(p.velocity, dt)), force := Weight(p.mass))
  }

  // Whatever the contacts did to the force is lost again.
  lemma DriftIgnoresForces(p: Particle, q: Particle, dt: real)
    requires SameBut(p, q) && !p.fixed
    ensures Drift(q, dt) == Drift(p, dt)
  {
  }

  // ------------------------------------------------- free fall

  function Triangle(k: nat): real { (k * (k + 1)) as real / 2.0 }

  // Where and how fast a particle is that started at o, at rest, k steps ago.
  function FallVelocity(dt: real, k: nat): Vec { Vec(0.0, 0.0, -4.905 * dt * k as real) }
  function FallPosition(dt: real, o: Vec, k: nat): Vec { Vec(o.x, o.y, o.z - 4.905 * (dt * dt) * Triangle(k)) }

  ghost predicate Falling(p: Particle, dt: real, o: Vec, k: nat) {
    && p.force == Weight(p.mass)
    && p.velocity == (if p.mass > 0.0 then FallVelocity(dt, k) else ZERO)
    && p.position == (if p.mass > 0.0 then FallPosition(dt, o, k) else o)
  }

  lemma WeightAccelerates(m: real, dt: real)
    requires m > 0.0
    ensures Mul(Mul(Weight(m), 1.0 / m), dt * 0.5) == Vec(0.0, 0.0, -4.905 * dt)
  {
    Acceleration(m);
    assert 0.0 * (1.0 / m) == 0.0;
  }

  lemma Acceleration(m: real)
    requires m > 0.0
    ensures -9.81 * m * (1.0 / m) == -9.81
  {
    assert m * (1.0 / m) == 1.0;
  }

  lemma TriangleNext(k: nat)
    ensures Triangle(k + 1) == Triangle(k) + (k + 1) as real
  {
    assert (k + 1) * (k + 2) == k * (k + 1) + 2 * (k + 1);
  }

  lemma VelocityNext(dt: real, k: nat)
    ensures Add(FallVelocity(dt, k), Vec(0.0, 0.0, -4.905 * dt)) == FallVelocity(dt, k + 1)
  {
    assert (k + 1) as real == k as real + 1.0;
  }

  lemma PositionNext(dt: real, o: Vec, k: nat)
    ensures Add(FallPosition(dt, o, k), Mul(FallVelocity(dt, k + 1), dt)) == FallPosition(dt, o, k + 1)
  {
    TriangleNext(k);
    Descend(dt, Triangle(k), (k + 1) as real);
  }

  lemma Descend(dt: real, t: real, n: real)
    ensures -(4.905 * (dt * dt) * t) + -4.905 * dt * n * dt == -(4.905 * (dt * dt) * (t + n))
  {
    assert dt * n * dt == (dt * dt) * n;
    assert (dt * dt) * (t + n) == (dt * dt) * t + (dt * dt) * n;
  }

  lemma StartsFalling(p: Particle, dt: real)
    requires p.velocity == ZERO && p.force == Weight(p.mass)
    ensures Falling(p, dt, p.position, 0)
  {
    assert -4.905 * dt * 0.0 == 0.0 && Triangle(0) == 0.0;
    assert 4.905 * (dt * dt) * 0.0 == 0.0;
  }

  /** One step of velocity and position takes a falling particle one step further down. */
  lemma FallsOn(p: Particle, dt: real, o: Vec, k: nat)
    requires !p.fixed && Falling(p, dt, o, k)
    ensures Falling(Drift(Kick(p, dt), dt), dt, o, k + 1)
  {
    hide FallVelocity, FallPosition, Weight, Add, Mul;
    if p.mass > 0.0 {
      WeightAccelerates(p.mass, dt);
      VelocityNext(dt, k);
      PositionNext(dt, o, k);
    } else {
      StaysPut(o, dt);
    }
  }

  lemma StaysPut(o: Vec, dt: real)
    ensures Add(o, Mul(ZERO, dt)) == o
  {
    assert 0.0 * dt == 0.0;
  }

  // ------------------------------------------------- metrics

  function Ball(c: Physics, radius: real): real { 4.0 / 3.0 * c.pi * c.pow(radius, 3.0) }

  // Volume of the particles that `counts`.
  function Volume(c: Physics, counts: Particle -> bool, ps: seq<Particle>): real {
    if ps == [] then 0.0 else
    var last := ps[|ps| - 1];
    Volume(c, counts, ps[..|ps| - 1]) + (if counts(last) then Ball(c, last.radius) else 0.0)
  }

  function Loose(): Particle -> bool { (p: Particle) => !p.boundary }
  function Filling(g: Geometry): Particle -> bool { (p: Particle) => !p.boundary && InsideCrack(g, p.position) }

  function CrackVolume(g: Geometry): real { g.length * g.width * 0.000001 * g.depth * 0.000001 }

  function BoxVolume(g: Geometry): real { 8.0 * HalfSize(g).x * HalfSize(g).y * HalfSize(g).z }

  function FillingRate(c: Physics, g: Geometry, ps: seq<Particle>): real {
    if g.length <= 0.0 || g.width <= 0.0 || g.depth <= 0.0 then 0.0
    else if CrackVolume(g) > 0.0 then Min(1.0, Volume(c, Filling(g), ps) / CrackVolume(g)) else 0.0
  }

  function PackingDensity(c: Physics, g: Geometry, ps: seq<Particle>): real {
    if BoxVolume(g) > 0.0 then Volume(c, Loose(), ps) / BoxVolume(g) else 0.0
  }

  function Porosity(c: Physics, g: Geometry, ps: seq<Particle>): real { 1.0 - PackingDensity(c, g, ps) }

  // Spheres have volumes.
  ghost predicate Solid(c: Physics) { c.pi > 0.0 && forall r: real :: r >= 0.0 ==> c.pow(r, 3.0) >= 0.0 }

  lemma {:induction false} VolumeMonotone(c: Physics, some: Particle -> bool, more: Particle -> bool, ps: seq<Particle>)
    requires Solid(c) && (forall p :: some(p) ==> more(p)) && forall i: nat :: i < |ps| ==> ps[i].radius >= 0.0
    ensures 0.0 <= Volume(c, some, ps) <= Volume(c, more, ps)
  {
    if ps != [] {
      var n := |ps| - 1;
      VolumeMonotone(c, some, more, ps[..n]);
      assert ps[n].radius >= 0.0;
      BallPositive(c, ps[n].radius);
    }
  }

  lemma BallPositive(c: Physics, r: real)
    requires Solid(c) && r >= 0.0
    ensures Ball(c, r) >= 0.0
  {
    assert c.pow(r, 3.0) >= 0.0;
    assert c.pi * c.pow(r, 3.0) >= 0.0;
  }

  // The two ways of computing the volume of the crack agree.
  lemma SameVolume(g: Geometry)
    ensures BoxVolume(g) == CrackVolume(g)
  {
    var l, w, d := g.length, g.width, g.depth;
    assert 8.0 * (l * 0.5) * (w * 0.5 * 0.000001) == l * w * 2.0 * 0.000001;
    assert (l * w * 2.0 * 0.000001) * (d * 0.5 * 0.000001) == l * w * 0.000001 * d * 0.000001;
  }

  lemma QuotientMonotone(x: real, y: real, v: real)
    requires 0.0 <= x <= y && v > 0.0
    ensures 0.0 <= x / v <= y / v
  {
  }

  lemma VolumePositive(g: Geometry)
    requires g.length > 0.0 && g.width > 0.0 && g.depth > 0.0
    ensures CrackVolume(g) > 0.0
  {
    assert g.length * g.width > 0.0;
    assert g.length * g.width * 0.000001 > 0.0;
    assert g.length * g.width * 0.000001 * g.depth > 0.0;
  }

  /** The filling rate of a crack is a proportion, and at most the packing density. */
  lemma FillingBounded(c: Physics, g: Geometry, ps: seq<Particle>)
    requires Solid(c) && g.length > 0.0 && g.width > 0.0 && g.depth > 0.0
    requires forall i: nat :: i < |ps| ==> ps[i].radius >= 0.0
    ensures 0.0 <= FillingRate(c, g, ps) <= Min(1.0, PackingDensity(c, g, ps))
    ensures Porosity(c, g, ps) + PackingDensity(c, g, ps) == 1.0
  {
    hide CrackVolume, BoxVolume, Volume;
    SameVolume(g);
    VolumePositive(g);
    VolumeMonotone(c, Filling(g), Loose(), ps);
    QuotientMonotone(Volume(c, Filling(g), ps), Volume(c, Loose(), ps), CrackVolume(g));
  }
}
