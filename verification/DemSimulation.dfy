/** The particle simulation: generation, collision detection, time steps and whole runs. Random
    numbers come from `rng`, which is asked for its n-th number in a range. */
module DemSimulation {
  import opened Wrappers
  import opened Common
  import opened Vectors
  import opened DemContacts
  import opened DemMotion
  import opened DemRuns
  import opened Reals

  datatype DemParameters = DemParameters(timeStep: real, minRadius: real, maxRadius: real)

  datatype DemResult = DemResult(particles: seq<Particle>, totalSteps: int, simulationTime: real, particleCount: nat,
                                 contactCount: nat, fillingRate: real, packingDensity: real, porosity: real,
                                 maxForce: real, avgForce: real, energyHistory: seq<real>, forceHistory: seq<real>)

  type Rng = (nat, real, real) -> real

  ghost predicate Fair(rng: Rng) {
    forall n: nat, lo: real, hi: real {:trigger rng(n, lo, hi)} :: lo <= hi ==> lo <= rng(n, lo, hi) <= hi
  }

  // The point drawn with the n-th and the two following numbers.
  function DrawnPoint(rng: Rng, g: Geometry, n: nat): Vec {
    var half := HalfSize(g);
    Vec(g.origin.x + rng(n, -half.x, half.x), g.origin.y + rng(n + 1, -half.y, half.y),
        g.origin.z + rng(n + 2, -half.z, half.z))
  }

  lemma DrawnPointIsInside(rng: Rng, g: Geometry, n: nat)
    requires Fair(rng) && Sized(g)
    ensures InsideCrack(g, DrawnPoint(rng, g, n))
  {
    var half := HalfSize(g);
    assert -half.x <= rng(n, -half.x, half.x) <= half.x;
    assert -half.y <= rng(n + 1, -half.y, half.y) <= half.y;
    assert -half.z <= rng(n + 2, -half.z, half.z) <= half.z;
  }

  // ------------------------------------------------- generation

  // The i-th particle tried, its four random numbers starting at n.
  function Candidate(c: Physics, rng: Rng, g: Geometry, p: DemParameters, material: int, n: nat, i: nat): Particle {
    var radius := rng(n, p.minRadius, p.maxRadius);
    var mass := c.density * (4.0 / 3.0) * c.pi * c.pow(radius, 3.0);
    Particle(i, DrawnPoint(rng, g, n + 1), ZERO, Weight(mass), radius, mass, material, false, false)
  }

  predicate Overlapping(c: Physics, p: Particle, q: Particle) {
    Norm(c.sqrt, Sub(p.position, q.position)) < p.radius + q.radius
  }

  // ps is what is kept of the first k candidates: each is kept unless it overlaps one kept before.
  ghost predicate Kept(c: Physics, tried: nat -> Particle, k: nat, ps: seq<Particle>) {
    && (forall a: nat :: a < |ps| ==> 0 <= ps[a].id < k && ps[a] == tried(ps[a].id))
    && (forall a: nat, b: nat :: a < b < |ps| ==> ps[a].id < ps[b].id && !Overlapping(c, ps[b], ps[a]))
    && (forall i: nat :: i < k ==> Decided(c, tried, ps, i))
  }

  // Kept, or in the way of one kept before.
  ghost predicate Decided(c: Physics, tried: nat -> Particle, ps: seq<Particle>, i: nat) {
    exists a: nat :: a < |ps| && (ps[a].id == i || (ps[a].id < i && Overlapping(c, tried(i), ps[a])))
  }

  lemma KeepNext(c: Physics, tried: nat -> Particle, k: nat, ps: seq<Particle>)
    requires Kept(c, tried, k, ps) && tried(k).id == k && forall a: nat :: a < |ps| ==> !Overlapping(c, tried(k), ps[a])
    ensures Kept(c, tried, k + 1, ps + [tried(k)])
  {
    hide Overlapping;
    var r := ps + [tried(k)];
    forall i: nat | i < k + 1 ensures Decided(c, tried, r, i) {
      if i == k {
        assert r[|ps|].id == i;
      } else {
        assert Decided(c, tried, ps, i);
        var a: nat :| a < |ps| && (ps[a].id == i || (ps[a].id < i && Overlapping(c, tried(i), ps[a])));
        assert r[a] == ps[a];
      }
    }
  }

  lemma SkipNext(c: Physics, tried: nat -> Particle, k: nat, ps: seq<Particle>, a: nat)
    requires Kept(c, tried, k, ps) && a < |ps| && Overlapping(c, tried(k), ps[a])
    ensures Kept(c, tried, k + 1, ps)
  {
    hide Overlapping;
    assert Decided(c, tried, ps, k);
  }

  /** What is kept is no more than was tried. */
  lemma {:induction false} KeptAtMost(c: Physics, tried: nat -> Particle, k: nat, ps: seq<Particle>)
    requires Kept(c, tried, k, ps)
    ensures |ps| <= k
  {
    hide Overlapping;
    if ps != [] { IdsGrow(ps, |ps| - 1); }
  }

  lemma {:induction false} IdsGrow(ps: seq<Particle>, b: nat)
    requires b < |ps| && ps[0].id >= 0
    requires forall a: nat, b: nat :: a < b < |ps| ==> ps[a].id < ps[b].id
    ensures ps[b].id >= b
  {
    if b > 0 { IdsGrow(ps, b - 1); }
  }

  // ------------------------------------------------- what a run reports

  // The particles and their metrics are those at the end.
  ghost predicate ReportsState(c: Physics, g: Geometry, first: seq<Particle>, last: seq<Particle>, contacts: nat,
                               r: DemResult)
  {
    && r.particles == Select(Loose(), last) && r.particleCount == Count(Loose(), first) && r.contactCount == contacts
    && r.fillingRate == FillingRate(c, g, last) && r.packingDensity == PackingDensity(c, g, last)
    && r.porosity + r.packingDensity == 1.0
  }

  // The forces are those of before the run; their average is taken over the steps asked for, not
  // over those made.
  ghost predicate ReportsForces(sqrt: real -> real, first: seq<Particle>, n: nat, maxSteps: int, r: DemResult) {
    && |r.forceHistory| == |r.energyHistory|
    && (forall i: nat :: i < |r.forceHistory| ==> r.forceHistory[i] == LargestForce(sqrt, first))
    && r.maxForce == (if n == 0 then 0.0 else LargestForce(sqrt, first))
    && (if maxSteps <= 0 then r.avgForce == 0.0
        else Times(r.avgForce, maxSteps) == Times(Total(ForceSize(sqrt), first), n))
  }

  function Average(sum: real, steps: int): (r: real)
    ensures if steps <= 0 then r == 0.0 else Times(r, steps) == sum
  {
    if steps > 0 then sum / steps as real else 0.0
  }

  class Simulation {
    const c: Physics
    const rng: Rng
    var params: DemParameters
    var geometry: Geometry
    var materialId: int
    var particles: seq<Particle>
    var contacts: seq<Contact>
    // how many random numbers have been drawn
    var draws: nat
    // for every particle: where it last started to fall, and how many steps ago
    ghost var origins: seq<Vec>
    ghost var ages: seq<nat>

    constructor (c: Physics, rng: Rng, params: DemParameters)
      ensures this.c == c && this.rng == rng && this.params == params && particles == [] && contacts == [] && Ready()
    {
      this.c, this.rng, this.params := c, rng, params;
      geometry, materialId := Geometry(ZERO, 0.0, 0.0, 0.0, []), 0;
      particles, contacts, draws := [], [], 0;
      origins, ages := [], [];
    }

    ghost function Now(): Moment
      reads this
    {
      Moment(particles, origins, ages)
    }

    ghost predicate Ready()
      reads this
    {
      AllSettled(Now(), geometry, params.timeStep)
    }

    /** `set_crack_geometry`; without points the origin is left as it was. */
    method SetCrackGeometry(crack: CrackInfo)
      modifies this`geometry
      ensures geometry.length == crack.totalLength && geometry.depth == crack.maxDepth
        && geometry.width == crack.maxWidth
      ensures if crack.points == [] then geometry.origin == old(geometry).origin
              else var p := crack.points[0]; geometry.origin == Vec(p.x, p.y, p.z)
      ensures old(geometry).boundaryPoints <= geometry.boundaryPoints
      ensures |geometry.boundaryPoints| == |old(geometry).boundaryPoints| + |crack.points|
      ensures forall i: nat :: i < |crack.points| ==>
        var p := crack.points[i]; geometry.boundaryPoints[|old(geometry).boundaryPoints| + i] == Vec(p.x, p.y, p.z)
    {
      geometry := geometry.(length := crack.totalLength, depth := crack.maxDepth, width := crack.maxWidth);
      if crack.points != [] { geometry := geometry.(origin := At(crack.points[0])); }
      ghost var before := geometry.boundaryPoints;
      ghost var sized := geometry;
      for i := 0 to |crack.points|
        invariant geometry == sized.(boundaryPoints := geometry.boundaryPoints)
        invariant before <= geometry.boundaryPoints && |geometry.boundaryPoints| == |before| + i
        invariant forall k: nat :: k < i ==>
          var p := crack.points[k]; geometry.boundaryPoints[|before| + k] == Vec(p.x, p.y, p.z)
      {
        geometry := geometry.(boundaryPoints := geometry.boundaryPoints + [At(crack.points[i])]);
      }
    }

    method RandomPointInCrack() returns (p: Vec)
      requires Fair(rng) && Sized(geometry)
      modifies this`draws
      ensures p == DrawnPoint(rng, geometry, old(draws)) && InsideCrack(geometry, p) && draws == old(draws) + 3
    {
      p := DrawnPoint(rng, geometry, draws);
      DrawnPointIsInside(rng, geometry, draws);
      draws := draws + 3;
    }

    /** `generate_particles`. */
    method GenerateParticles(count: int)
      requires Fair(rng) && Sized(geometry) && params.minRadius <= params.maxRadius
      modifies this`particles, this`draws, this`origins, this`ages
      ensures Kept(c, Tried(c, rng, geometry, params, materialId, old(draws)),
                   if count < 0 then 0 else count, particles)
      ensures |particles| <= if count < 0 then 0 else count
      ensures forall a: nat :: a < |particles| ==>
                InsideCrack(geometry, particles[a].position)
                  && params.minRadius <= particles[a].radius <= params.maxRadius
      ensures Ready() && forall a: nat :: a < |particles| ==> origins[a] == particles[a].position && ages[a] == 0
    {
      hide Kept, Overlapping, Candidate, InsideCrack;
      ghost var tried := Tried(c, rng, geometry, params, materialId, draws);
      ghost var first := draws;
      particles := [];
      NoneKept(c, tried);
      var i := 0;
      while i < count
        invariant 0 <= i <= if count < 0 then 0 else count
        invariant draws == first + 4 * i && Kept(c, tried, i, particles)
      {
        var candidate := Candidate(c, rng, geometry, params, materialId, draws, i);
        draws := draws + 4;
        assert candidate == tried(i) && candidate.id == i by {
          TriedAt(c, rng, geometry, params, materialId, first, i);
        }
        var overlapping := false;
        var j := 0;
        while j < |particles|
          invariant j <= |particles| && !overlapping
          invariant forall a: nat :: a < j ==> !Overlapping(c, candidate, particles[a])
        {
          if Overlapping(c, candidate, particles[j]) {
            overlapping := true;
            SkipNext(c, tried, i, particles, j);
            break;
          }
          j := j + 1;
        }
        if !overlapping {
          KeepNext(c, tried, i, particles);
          particles := particles + [candidate];
        }
        i := i + 1;
      }
      ghost var ps := particles;
      origins, ages := seq(|ps|, k requires 0 <= k < |ps| => ps[k].position), seq(|ps|, _ => 0);
      GeneratedSettle(c, rng, geometry, params, materialId, first, i, particles);
    }

    /** `generate_boundary`: the id of every further particle counts the ones already there twice. */
    method GenerateBoundary()
      requires Ready()
      modifies this`particles, this`origins, this`ages
      ensures |particles| == |old(particles)| + |geometry.boundaryPoints| && old(particles) <= particles
      ensures forall i: nat :: i < |geometry.boundaryPoints| ==>
                particles[|old(particles)| + i] ==
                  Particle(|old(particles)| + 2 * i, geometry.boundaryPoints[i], ZERO, ZERO, 0.0000005, 1000000.0, 0,
                           true, true)
      ensures Ready() && old(origins) <= origins && old(ages) <= ages
    {
      hide Falling, InBox;
      ghost var n := |particles|;
      for i := 0 to |geometry.boundaryPoints|
        invariant |particles| == n + i && old(particles) <= particles && Ready()
        invariant old(origins) <= origins && old(ages) <= ages
        invariant forall k: nat :: k < i ==>
          particles[n + k] ==
            Particle(n + 2 * k, geometry.boundaryPoints[k], ZERO, ZERO, 0.0000005, 1000000.0, 0, true, true)
      {
        var p := Particle(|particles| + i, geometry.boundaryPoints[i], ZERO, ZERO, 0.0000005, 1000000.0, 0, true, true);
        particles, origins, ages := particles + [p], origins + [p.position], ages + [0];
      }
    }

    // ------------------------------------------------- one step

    method IntegrateVelocities()
      modifies this`particles
      ensures |particles| == |old(particles)|
      ensures forall i: nat :: i < |particles| ==> particles[i] == Kick(old(particles)[i], params.timeStep)
    {
      hide Kick;
      ghost var before := particles;
      for i := 0 to |particles|
        invariant |particles| == |before|
        invariant forall k: nat :: k < |before| ==>
          particles[k] == if k < i then Kick(before[k], params.timeStep) else before[k]
      {
        particles := particles[i := Kick(particles[i], params.timeStep)];
      }
    }

    /** `compute_contact_forces` on the particles at i and j. */
    method ComputeContactForces(i: nat, j: nat)
      requires i < j < |particles|
      modifies this`particles, this`contacts
      ensures var a, b := old(particles)[i], old(particles)[j];
        if Touching(c, a, b)
        then particles == Exchange(c, old(particles), Pair(i, j)) && contacts == old(contacts) + [ContactOf(c, a, b)]
        else particles == old(particles) && contacts == old(contacts)
    {
      var a, b := particles[i], particles[j];
      if Touching(c, a, b) {
        var contact := ContactOf(c, a, b);
        var force := Mul(contact.normal, -contact.normalForce);
        particles := particles[i := a.(force := Add(a.force, force))];
        particles := particles[j := b.(force := Sub(b.force, force))];
        contacts := contacts + [contact];
      }
    }

    /** `detect_collisions`: the contacts are those of the first touching pairs, at most 50000; just
        those pairs exchange forces, and the total force and torque stay as they were. */
    method DetectCollisions()
      modifies this`particles, this`contacts
      ensures InRange(old(particles), FirstOf(TouchingPairs(c, old(particles))))
      ensures contacts == ContactsOf(c, old(particles), FirstOf(TouchingPairs(c, old(particles))))
      ensures particles == Exchanges(c, old(particles), FirstOf(TouchingPairs(c, old(particles))))
      ensures Sum(Force, particles) == Sum(Force, old(particles))
        && Sum(Torque, particles) == Sum(Torque, old(particles))
    {
      hide Found, Sum, Exchanges, ContactsOf, FirstOf, InRange, Touching, Exchange, ContactOf;
      ghost var before := particles;
      contacts := [];
      ghost var done: seq<Pair> := [];
      StartSearch(c, before);
      var i := 0;
      while i < |particles|
        invariant i <= |particles| == |before|
        invariant Found(c, before, particles, contacts, done) && |contacts| == |done| < MAX_CONTACTS
          && done == Rows(c, before, i)
      {
        hide Row, Rows;
        StartRow(c, before, i);
        var j := i + 1;
        while j < |particles|
          invariant i < j <= |particles| == |before|
          invariant Found(c, before, particles, contacts, done) && |contacts| == |done| <= MAX_CONTACTS
          invariant done == Rows(c, before, i) + Row(c, before, i, j)
        {
          if |contacts| >= MAX_CONTACTS { break; }
          SearchOn(c, before, particles, contacts, done, i, j);
          RowOn(c, before, i, j);
          ghost var touching := Touching(c, particles[i], particles[j]);
          ComputeContactForces(i, j);
          if touching { done := done + [Pair(i, j)]; }
          j := j + 1;
        }
        UptoPrefix(c, before, i, j);
        if |contacts| >= MAX_CONTACTS { break; }
        RowsNext(c, before, i);
        i := i + 1;
      }
      SearchEnds(c, before, particles, contacts, done);
    }

    method IntegratePositions()
      modifies this`particles
      ensures |particles| == |old(particles)|
      ensures forall i: nat :: i < |particles| ==> particles[i] == Drift(old(particles)[i], params.timeStep)
    {
      hide Drift;
      ghost var before := particles;
      for i := 0 to |particles|
        invariant |particles| == |before|
        invariant forall k: nat :: k < |before| ==>
          particles[k] == if k < i then Drift(before[k], params.timeStep) else before[k]
      {
        particles := particles[i := Drift(particles[i], params.timeStep)];
      }
    }

    method ApplyBoundaryConditions()
      requires Fair(rng) && Sized(geometry) && |origins| == |ages| == |particles|
      modifies this`particles, this`draws, this`origins, this`ages
      ensures |origins| == |ages| == |particles| == |old(particles)|
      ensures forall i: nat :: i < |particles| ==>
        Bounded(old(particles)[i], old(origins)[i], old(ages)[i], particles[i], origins[i], ages[i], geometry)
    {
      hide InBox, InsideCrack, DrawnPoint;
      ghost var before, starts, steps := particles, origins, ages;
      for i := 0 to |particles|
        invariant |origins| == |ages| == |particles| == |before|
        invariant forall k: nat :: k < i ==>
          Bounded(before[k], starts[k], steps[k], particles[k], origins[k], ages[k], geometry)
        invariant forall k: nat :: i <= k < |before| ==>
          particles[k] == before[k] && origins[k] == starts[k] && ages[k] == steps[k]
      {
        var p := particles[i];
        if p.fixed {
          particles := particles[i := p.(velocity := ZERO, force := ZERO)];
        } else if !InBox(geometry, p.position) {
          var point := RandomPointInCrack();
          particles := particles[i := p.(velocity := ZERO, position := point)];
          origins, ages := origins[i := point], ages[i := 0];
        } else {
          ages := ages[i := ages[i] + 1];
        }
      }
    }

    /** `step`. */
    method Step()
      requires Fair(rng) && Sized(geometry) && Ready()
      modifies this`particles, this`contacts, this`draws, this`origins, this`ages
      ensures Ready() && MomentStep(old(Now()), Now(), geometry, params.timeStep)
    {
      hide Settled, Stepped, Bounded, Kick, Drift, Exchanges, TouchingPairs, ContactsOf, Sum, SameBut;
      ghost var before, starts, steps := particles, origins, ages;
      IntegrateVelocities();
      ghost var kicked := particles;
      DetectCollisions();
      ExchangesOnlyForces(c, kicked, FirstOf(TouchingPairs(c, kicked)));
      ghost var pushed := particles;
      IntegratePositions();
      ApplyBoundaryConditions();
      forall i: nat | i < |particles|
        ensures Stepped(before[i], starts[i], steps[i], particles[i], origins[i], ages[i], geometry, params.timeStep)
        ensures Settled(particles[i], geometry, params.timeStep, origins[i], ages[i])
      {
        StepOfOne(before[i], starts[i], steps[i], kicked[i], pushed[i], particles[i], origins[i], ages[i],
                  geometry, params.timeStep);
        StepSettles(before[i], starts[i], steps[i], particles[i], origins[i], ages[i], geometry, params.timeStep);
      }
    }

    // ------------------------------------------------- metrics and the whole run

    method CalculateFillingRate() returns (r: real)
      ensures r == FillingRate(c, geometry, particles)
    {
      hide CrackVolume, Volume, InsideCrack;
      if geometry.length <= 0.0 || geometry.width <= 0.0 || geometry.depth <= 0.0 { return 0.0; }
      var crackVolume := CrackVolume(geometry);
      var particleVolume := TotalVolume(Filling(geometry));
      return if crackVolume > 0.0 then Min(1.0, particleVolume / crackVolume) else 0.0;
    }

    method CalculatePackingDensity() returns (r: real)
      ensures r == PackingDensity(c, geometry, particles)
    {
      hide BoxVolume, Volume;
      var occupied := TotalVolume(Loose());
      var total := BoxVolume(geometry);
      return if total > 0.0 then occupied / total else 0.0;
    }

    method TotalVolume(counts: Particle -> bool) returns (v: real)
      ensures v == Volume(c, counts, particles)
    {
      hide Ball;
      v := 0.0;
      for i := 0 to |particles|
        invariant v == Volume(c, counts, particles[..i])
      {
        assert particles[..i + 1][..i] == particles[..i];
        if counts(particles[i]) { v := v + Ball(c, particles[i].radius); }
      }
      assert particles[..|particles|] == particles;
    }

    method AverageSpeed() returns (v: real)
      ensures v == MeanSpeed(c.sqrt, particles)
    {
      hide Norm;
      v := 0.0;
      var count := 0;
      for i := 0 to |particles|
        invariant v == Total(Speed(c.sqrt), particles[..i]) && count == Count(Free(), particles[..i])
      {
        assert particles[..i + 1][..i] == particles[..i];
        if !particles[i].fixed {
          v := v + Norm(c.sqrt, particles[i].velocity);
          count := count + 1;
        }
      }
      assert particles[..|particles|] == particles;
      if count > 0 { v := v / count as real; }
    }

    // What `run` measures after a step: the energy of the free particles, the largest force and the
    // sum of all.
    method Measure() returns (energy: real, largest: real, sum: real)
      ensures energy == Energy(particles)
      ensures largest == LargestForce(c.sqrt, particles) && sum == Total(ForceSize(c.sqrt), particles)
    {
      hide Norm, Dot;
      var ke, pe := 0.0, 0.0;
      largest, sum := 0.0, 0.0;
      for i := 0 to |particles|
        invariant ke == Total(Kinetic(), particles[..i]) && pe == Total(Potential(), particles[..i])
        invariant largest == LargestForce(c.sqrt, particles[..i])
        invariant sum == Total(ForceSize(c.sqrt), particles[..i])
      {
        assert particles[..i + 1][..i] == particles[..i];
        var p := particles[i];
        if !p.fixed {
          ke := ke + 0.5 * p.mass * Dot(p.velocity, p.velocity);
          pe := pe + p.mass * 9.81 * p.position.z;
        }
        var f := Norm(c.sqrt, p.force);
        largest := Max(largest, f);
        sum := sum + f;
      }
      assert particles[..|particles|] == particles;
      energy := ke + pe;
    }

    /** `run`: it makes steps until a test, after the one numbered 100, 200, ..., finds the free
        particles at rest, or maxSteps are made. After n steps a fixed particle is where it was, and
        every free particle is in the box and has been falling, from its first position or from a point
        in the crack where it was put since, for as many steps as its age says. For a number of -20 or
        less the histories cannot be allocated. */
    method Run(maxSteps: int) returns (r: Option<DemResult>, ghost trace: seq<Moment>)
      requires Fair(rng) && Sized(geometry) && Ready()
      modifies this`particles, this`contacts, this`draws, this`origins, this`ages
      ensures Trajectory(trace, geometry, params.timeStep) && RunLength(c.sqrt, trace, maxSteps)
      ensures trace[0] == old(Now()) && trace[|trace| - 1] == Now() && Ready() && |particles| == |old(particles)|
      ensures forall i: nat :: i < |particles| ==>
        Travelled(old(particles)[i], old(origins)[i], old(ages)[i], particles[i], origins[i], ages[i], |trace| - 1,
                  geometry)
      ensures r.None? <==> maxSteps <= -20
      ensures r.Some? ==> r.value.totalSteps == maxSteps && r.value.simulationTime == maxSteps as real * params.timeStep
      ensures r.Some? ==> ReportsState(c, geometry, old(particles), particles, |contacts|, r.value)
      ensures r.Some? ==> Recorded(trace, r.value.energyHistory)
      ensures r.Some? ==> ReportsForces(c.sqrt, old(particles), |trace| - 1, maxSteps, r.value)
    {
      hide AllSettled, MomentStep, Trajectory, Travelled, Unstopped, Stops, Recorded, Energy, LargestForce, Total;
      hide Sized, FillingRate, PackingDensity, MeanSpeed, RunLength, Select, Count, Times, Average;
      ghost var start := Now();
      ghost var most, all := LargestForce(c.sqrt, particles), Total(ForceSize(c.sqrt), particles);
      trace := [start];
      RunStarts(c.sqrt, start, geometry, params.timeStep);
      if maxSteps <= -20 {
        RunOut(c.sqrt, trace, maxSteps);
        Arrive(trace, geometry, params.timeStep);
        return None, trace;
      }
      var particleCount := CountLoose();
      var energies: seq<real>, forces: seq<real> := [], [];
      var maxForce, sumForce := 0.0, 0.0;
      StartRecord(start);
      LargestIsPositive(c.sqrt, particles);
      Once(all, 0);
      var step, stopped := 0, false;
      while step < maxSteps
        invariant 0 <= step == |trace| - 1 <= if maxSteps < 0 then 0 else maxSteps
        invariant trace[0] == start && trace[step] == Now()
        invariant Ready() && Trajectory(trace, geometry, params.timeStep) && Unstopped(c.sqrt, trace)
        invariant LargestForce(c.sqrt, particles) == most && Total(ForceSize(c.sqrt), particles) == all
        invariant Recorded(trace, energies) && |forces| == |energies| && forall i: nat :: i < |forces| ==>
          forces[i] == most
        invariant maxForce == (if step == 0 then 0.0 else most) && sumForce == Times(all, step)
      {
        Step();
        ghost var now := Now();
        ForcesStay(c.sqrt, trace[step], now, geometry, params.timeStep);
        TrajectoryOn(trace, now, geometry, params.timeStep);
        RecordOn(trace, energies, now);
        RunStops(c.sqrt, trace, now, maxSteps);
        Once(all, step);
        trace := trace + [now];
        var energy, largest, sum := Measure();
        maxForce, sumForce := Max(maxForce, largest), sumForce + sum;
        if step % 10 == 0 { energies, forces := energies + [energy], forces + [largest]; }
        step := step + 1;
        if (step - 1) % 100 == 0 && step - 1 > 0 {
          var speed := AverageSpeed();
          StopsWhen(c.sqrt, trace, step - 1);
          if speed < 0.000000000001 { stopped := true; break; }
        } else {
          StopsWhen(c.sqrt, trace, step - 1);
        }
      }
      if !stopped { RunOut(c.sqrt, trace, maxSteps); }
      Arrive(trace, geometry, params.timeStep);
      var loose := SelectLoose();
      var filling := CalculateFillingRate();
      var packing := CalculatePackingDensity();
      var avgForce := Average(sumForce, maxSteps);
      r := Some(DemResult(loose, maxSteps, maxSteps as real * params.timeStep, particleCount, |contacts|,
                          filling, packing, 1.0 - packing, maxForce, avgForce, energies, forces));
    }

    method CountLoose() returns (n: nat)
      ensures n == Count(Loose(), particles)
    {
      n := 0;
      for i := 0 to |particles|
        invariant n == Count(Loose(), particles[..i])
      {
        assert particles[..i + 1][..i] == particles[..i];
        if !particles[i].boundary { n := n + 1; }
      }
      assert particles[..|particles|] == particles;
    }

    method SelectLoose() returns (r: seq<Particle>)
      ensures r == Select(Loose(), particles)
    {
      r := [];
      for i := 0 to |particles|
        invariant r == Select(Loose(), particles[..i])
      {
        assert particles[..i + 1][..i] == particles[..i];
        if !particles[i].boundary { r := r + [particles[i]]; }
      }
      assert particles[..|particles|] == particles;
    }
  }

  lemma StartRecord(m: Moment)
    ensures Recorded([m], [])
  {
  }

  lemma Once(x: real, n: nat)
    ensures Times(x, n + 1) == Times(x, n) + x && Times(x, 0) == 0.0
  {
  }

  lemma StopsWhen(sqrt: real -> real, trace: seq<Moment>, k: nat)
    requires k + 1 < |trace|
    ensures Stops(sqrt, trace, k) <==> k % 100 == 0 && k > 0 && MeanSpeed(sqrt, trace[k + 1].particles) < 0.000000000001
  {
  }

  lemma Arrive(trace: seq<Moment>, g: Geometry, dt: real)
    requires Trajectory(trace, g, dt)
    ensures var first, last := trace[0], trace[|trace| - 1];
      && |last.origins| == |last.ages| == |last.particles|
      && |first.origins| == |first.ages| == |first.particles| == |last.particles|
      && forall i: nat :: i < |first.particles| ==>
           Travelled(first.particles[i], first.origins[i], first.ages[i],
                     last.particles[i], last.origins[i], last.ages[i], |trace| - 1, g)
  {
    hide Travelled, AllSettled, MomentStep;
    TrajectorySize(trace, g, dt, |trace| - 1);
    TrajectorySize(trace, g, dt, 0);
    var first, last := trace[0], trace[|trace| - 1];
    forall i: nat | i < |first.particles|
      ensures Travelled(first.particles[i], first.origins[i], first.ages[i],
                        last.particles[i], last.origins[i], last.ages[i], |trace| - 1, g)
    {
      TrajectoryTravels(trace, g, dt, |trace| - 1, i);
    }
  }

  function At(p: Point3D): Vec { Vec(p.x, p.y, p.z) }

  function Tried(c: Physics, rng: Rng, g: Geometry, p: DemParameters, material: int, first: nat): nat -> Particle {
    (i: nat) => Candidate(c, rng, g, p, material, first + 4 * i, i)
  }

  lemma TriedAt(c: Physics, rng: Rng, g: Geometry, p: DemParameters, material: int, first: nat, i: nat)
    ensures Tried(c, rng, g, p, material, first)(i) == Candidate(c, rng, g, p, material, first + 4 * i, i)
    ensures Candidate(c, rng, g, p, material, first + 4 * i, i).id == i
  {
  }

  lemma NoneKept(c: Physics, tried: nat -> Particle)
    ensures Kept(c, tried, 0, [])
  {
  }

  lemma CandidateSettled(c: Physics, rng: Rng, g: Geometry, p: DemParameters, material: int, n: nat, i: nat)
    requires Fair(rng) && Sized(g) && p.minRadius <= p.maxRadius
    ensures var q := Candidate(c, rng, g, p, material, n, i);
      InsideCrack(g, q.position) && p.minRadius <= q.radius <= p.maxRadius && Settled(q, g, p.timeStep, q.position, 0)
  {
    hide InsideCrack, InBox, Falling, Weight, DrawnPoint;
    var q := Candidate(c, rng, g, p, material, n, i);
    DrawnPointIsInside(rng, g, n + 1);
    InsideIsInBox(g, q.position);
    StartsFalling(q, p.timeStep);
  }

  lemma GeneratedSettle(c: Physics, rng: Rng, g: Geometry, p: DemParameters, material: int, first: nat, k: nat,
                        ps: seq<Particle>)
    requires Fair(rng) && Sized(g) && p.minRadius <= p.maxRadius
    requires Kept(c, Tried(c, rng, g, p, material, first), k, ps)
    ensures |ps| <= k
    ensures forall a: nat :: a < |ps| ==>
      InsideCrack(g, ps[a].position) && p.minRadius <= ps[a].radius <= p.maxRadius
        && Settled(ps[a], g, p.timeStep, ps[a].position, 0)
  {
    hide InsideCrack, Settled, Candidate, Overlapping;
    KeptAtMost(c, Tried(c, rng, g, p, material, first), k, ps);
    forall a: nat | a < |ps|
      ensures InsideCrack(g, ps[a].position) && p.minRadius <= ps[a].radius <= p.maxRadius
        && Settled(ps[a], g, p.timeStep, ps[a].position, 0)
    {
      CandidateSettled(c, rng, g, p, material, first + 4 * ps[a].id, ps[a].id);
    }
  }

  /** With solid particles, what has just been generated is what `DemRuns.ReportIsRightIff` is about. */
  lemma GeneratedStarts(c: Physics, rng: Rng, g: Geometry, p: DemParameters, material: int, first: nat, k: nat,
                        m: Moment)
    requires Fair(rng) && Sized(g) && 0.0 < p.minRadius <= p.maxRadius
    requires c.density > 0.0 && c.pi > 0.0 && forall r: real :: r > 0.0 ==> c.pow(r, 3.0) > 0.0
    requires Kept(c, Tried(c, rng, g, p, material, first), k, m.particles)
    requires |m.origins| == |m.ages| == |m.particles|
    requires forall a: nat :: a < |m.particles| ==> m.origins[a] == m.particles[a].position && m.ages[a] == 0
    ensures Generated(m, g)
  {
    hide InsideCrack, Settled, Overlapping;
    GeneratedSettle(c, rng, g, p, material, first, k, m.particles);
    forall a: nat | a < |m.particles| ensures m.particles[a].mass > 0.0 {
      var q := m.particles[a];
      assert q == Candidate(c, rng, g, p, material, first + 4 * q.id, q.id);
      Heavy(c.density, c.pi, c.pow(q.radius, 3.0));
    }
  }

  lemma Heavy(density: real, pi: real, cube: real)
    requires density > 0.0 && pi > 0.0 && cube > 0.0
    ensures density * (4.0 / 3.0) * pi * cube > 0.0
  {
    assert density * (4.0 / 3.0) * pi > 0.0;
  }

  // ------------------------------------------------- the search for contacts

  // The pairs in `done` have been found so far.
  ghost predicate Found(c: Physics, before: seq<Particle>, now: seq<Particle>, contacts: seq<Contact>,
                        done: seq<Pair>)
  {
    && InRange(before, done) && |contacts| == |done|
    && now == Exchanges(c, before, done) && contacts == ContactsOf(c, before, done)
  }

  lemma StartSearch(c: Physics, before: seq<Particle>)
    ensures Found(c, before, before, [], []) && Rows(c, before, 0) == []
  {
  }

  lemma StartRow(c: Physics, before: seq<Particle>, i: nat)
    requires i < |before|
    ensures Rows(c, before, i) + Row(c, before, i, i + 1) == Rows(c, before, i)
  {
    hide Rows;
  }

  lemma RowOn(c: Physics, before: seq<Particle>, i: nat, j: nat)
    requires i < j < |before|
    ensures Rows(c, before, i) + Row(c, before, i, j + 1) ==
      Rows(c, before, i) + Row(c, before, i, j) + (if Touching(c, before[i], before[j]) then [Pair(i, j)] else [])
  {
    hide Rows, Touching;
    assert Row(c, before, i, j + 1) ==
      Row(c, before, i, j) + (if Touching(c, before[i], before[j]) then [Pair(i, j)] else []);
  }

  lemma ExchangeKeepsSize(c: Physics, ps: seq<Particle>, pair: Pair)
    requires pair.i < pair.j < |ps|
    ensures |Exchange(c, ps, pair)| == |ps|
  {
  }

  lemma SearchOn(c: Physics, before: seq<Particle>, now: seq<Particle>, contacts: seq<Contact>, done: seq<Pair>, i: nat,
                 j: nat)
    requires i < j < |before| && Found(c, before, now, contacts, done) && |now| == |before|
    ensures Touching(c, now[i], now[j]) <==> Touching(c, before[i], before[j])
    ensures |Exchange(c, now, Pair(i, j))| == |before|
    ensures Found(c, before, Exchange(c, now, Pair(i, j)), contacts + [ContactOf(c, now[i], now[j])],
                  done + [Pair(i, j)])
  {
    hide Touching, Exchange, ContactOf;
    ExchangesOnlyForces(c, before, done);
    ContactIgnoresForces(c, before[i], before[j], now[i], now[j]);
    ExchangeKeepsSize(c, now, Pair(i, j));
    var next := done + [Pair(i, j)];
    assert next[..|done|] == done && next[|done|] == Pair(i, j);
  }

  lemma SearchEnds(c: Physics, before: seq<Particle>, now: seq<Particle>, contacts: seq<Contact>, done: seq<Pair>)
    requires Found(c, before, now, contacts, done)
    requires if |done| < MAX_CONTACTS then done == TouchingPairs(c, before)
             else done <= TouchingPairs(c, before) && |done| == MAX_CONTACTS
    ensures done == FirstOf(TouchingPairs(c, before)) && InRange(before, done)
    ensures now == Exchanges(c, before, done) && contacts == ContactsOf(c, before, done)
    ensures Sum(Force, now) == Sum(Force, before) && Sum(Torque, now) == Sum(Torque, before)
  {
    hide TouchingPairs, Exchanges, ContactsOf, Sum;
    ExchangesConserve(c, before, done);
  }
}
