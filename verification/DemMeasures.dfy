/** What the particle simulation's shapes, forces and metrics amount to: the crack and the box in its
    measured sizes, the force laws by their signs and powers, volumes and masses of whole sets. */
module DemMeasures {
  import opened Reals
  import opened Vectors
  import opened DemContacts
  import opened DemMotion
  import opened DemRuns
  import opened DemSimulation

  // ------------------------------------------------- the crack and the box

  /** A point is in the crack when along its axes it is within half the length, half the width and half
      the depth of the origin, the latter two in micrometres. */
  lemma InsideIff(g: Geometry, p: Vec)
    ensures InsideCrack(g, p) <==>
      && -g.length <= 2.0 * (p.x - g.origin.x) <= g.length
      && -g.width <= 2000000.0 * (p.y - g.origin.y) <= g.width
      && -g.depth <= 2000000.0 * (p.z - g.origin.z) <= g.depth
  {
  }

  // Within the longest of the three sizes of the crack.
  predicate WithinLongest(g: Geometry, d: real) {
    Abs(d) <= g.length || 1000000.0 * Abs(d) <= g.width || 1000000.0 * Abs(d) <= g.depth
  }

  /** A point is in the box when along every axis it is within the longest size of the crack. */
  lemma InBoxIff(g: Geometry, p: Vec)
    ensures InBox(g, p) <==>
      WithinLongest(g, p.x - g.origin.x) && WithinLongest(g, p.y - g.origin.y) && WithinLongest(g, p.z - g.origin.z)
  {
  }

  // ------------------------------------------------- the force laws

  lemma Reciprocals(ra: real, rb: real, r: real)
    requires ra > 0.0 && rb > 0.0 && r > 0.0 && 1.0 / r == 1.0 / ra + 1.0 / rb
    ensures ra * rb / (ra + rb) == r
  {
    var x, y, z := 1.0 / ra, 1.0 / rb, 1.0 / r;
    assert x * ra == 1.0 && y * rb == 1.0 && z * r == 1.0;
    assert (x + y) * r == 1.0;
    assert (x + y) * (ra * rb) == ra + rb by {
      assert (x + y) * (ra * rb) == (x * ra) * rb + (y * rb) * ra;
    }
    assert (ra + rb) * r == ra * rb by {
      assert (ra + rb) * r == ((x + y) * r) * (ra * rb);
    }
    Divided(ra * rb, ra + rb, r);
  }

  lemma Divided(x: real, d: real, q: real)
    requires d != 0.0 && x == d * q
    ensures x / d == q
  {
  }

  /** The normal force is Hertz's: four thirds of the effective modulus, the root of the effective radius
      and the overlap to the power 1.5, effective values being those whose reciprocals add up. */
  lemma HertzLaw(c: Physics, overlap: real, ra: real, rb: real, radius: real, modulus: real)
    requires overlap > 0.0 && ra > 0.0 && rb > 0.0 && c.youngsModulus > 0.0 && -1.0 < c.poissonsRatio < 1.0
    requires radius > 0.0 && 1.0 / radius == 1.0 / ra + 1.0 / rb
    requires modulus > 0.0 && 1.0 / modulus == 2.0 * (1.0 - c.poissonsRatio * c.poissonsRatio) / c.youngsModulus
    ensures HertzForce(c, overlap, ra, rb) == 4.0 / 3.0 * modulus * c.sqrt(radius) * c.pow(overlap, 1.5)
  {
    Reciprocals(ra, rb, radius);
    var k := 1.0 - c.poissonsRatio * c.poissonsRatio;
    PoissonBelowOne(c.poissonsRatio);
    Modulus(c.youngsModulus, k, modulus);
  }

  lemma PoissonBelowOne(v: real)
    requires -1.0 < v < 1.0
    ensures 1.0 - v * v > 0.0
  {
    assert (1.0 - v) * (1.0 + v) > 0.0;
  }

  lemma Modulus(y: real, k: real, m: real)
    requires y > 0.0 && k > 0.0 && m > 0.0 && 1.0 / m == 2.0 * k / y
    ensures y / (2.0 * k) == m
  {
    var z := 1.0 / m;
    assert z * m == 1.0 && z * y == 2.0 * k;
    assert y == (2.0 * k) * m by { assert (z * y) * m == (z * m) * y; }
    Divided(y, 2.0 * k, m);
  }

  /** Without overlap there is neither. */
  lemma NoOverlapNoForce(c: Physics, overlap: real, ra: real, rb: real, speed: real)
    requires overlap <= 0.0
    ensures HertzForce(c, overlap, ra, rb) == 0.0 && DampingForce(c, speed, overlap) == 0.0
  {
  }

  /** Damping is against the motion, and its square is 4 times the squares of coefficient and speed, and
      modulus, density and overlap. */
  lemma DampingLaw(c: Physics, speed: real, overlap: real)
    requires Roots(c.sqrt) && overlap > 0.0 && c.damping >= 0.0 && c.youngsModulus * c.density >= 0.0
    ensures var f := DampingForce(c, speed, overlap);
      && f * speed <= 0.0
      && f * f == 4.0 * (c.damping * c.damping) * (speed * speed) * (c.youngsModulus * c.density) * overlap
  {
    hide DampingForce, Root;
    var gamma, y := Root(c), c.sqrt(overlap);
    assert y >= 0.0 && y * y == overlap;
    RootOf(c);
    Opposed(c.damping, gamma, y, speed);
    Regrouped(c.damping, gamma, speed, y, c.youngsModulus * c.density, overlap);
    DampingIs(c, speed, overlap);
  }

  // The root in the damping coefficient.
  function Root(c: Physics): real { c.sqrt(c.youngsModulus * c.density) }

  lemma RootOf(c: Physics)
    requires Roots(c.sqrt) && c.youngsModulus * c.density >= 0.0
    ensures Root(c) >= 0.0 && Root(c) * Root(c) == c.youngsModulus * c.density
  {
  }

  lemma DampingIs(c: Physics, speed: real, overlap: real)
    requires overlap > 0.0
    ensures DampingForce(c, speed, overlap) == -(2.0 * c.damping * Root(c)) * speed * c.sqrt(overlap)
  {
  }

  lemma Regrouped(d: real, x: real, v: real, y: real, m: real, o: real)
    requires x * x == m && y * y == o
    ensures var f := -(2.0 * d * x) * v * y; f * f == 4.0 * (d * d) * (v * v) * m * o
  {
    var f, w := -(2.0 * d * x) * v * y, d * x * v * y;
    assert f == -2.0 * w;
    assert w * w == (d * d) * (v * v) * (x * x) * (y * y);
  }

  lemma Opposed(d: real, x: real, y: real, v: real)
    requires d >= 0.0 && x >= 0.0 && y >= 0.0
    ensures var f := -(2.0 * d * x) * v * y; f * v <= 0.0
  {
    var f := -(2.0 * d * x) * v * y;
    assert d * x >= 0.0;
    assert (d * x) * y >= 0.0;
    assert v * v >= 0.0;
    assert ((d * x) * y) * (v * v) >= 0.0;
    assert f * v == -2.0 * (((d * x) * y) * (v * v));
  }

  /** The van der Waals force attracts; it falls with the square of the distance, and does not grow below
      1e-10. */
  lemma VanDerWaalsLaw(distance: real, radius: real)
    ensures var f := VanDerWaalsForce(distance, radius);
      && (radius > 0.0 ==> f < 0.0)
      && (distance >= 0.0000000001 ==> 6.0 * f * (distance * distance) == -0.0000000000000000001 * radius)
      && (distance < 0.0000000001 ==> f == VanDerWaalsForce(0.0000000001, radius))
  {
    if distance >= 0.0000000001 {
      assert distance * distance > 0.0;
      var q := 0.0000000000000000001 * radius / (6.0 * distance * distance);
    }
  }

  // ------------------------------------------------- one contact

  lemma DistanceSquared(c: Physics, a: Particle, b: Particle)
    requires Roots(c.sqrt)
    ensures Distance(c, a, b) >= 0.0
    ensures Distance(c, a, b) * Distance(c, a, b) == Square(Sub(b.position, a.position))
  {
    var d := Sub(b.position, a.position);
    SquarePositive(d.x, d.y, d.z);
    RootAt(c.sqrt, Square(d));
  }

  lemma RootAt(sqrt: real -> real, x: real)
    requires Roots(sqrt) && x >= 0.0
    ensures sqrt(x) >= 0.0 && sqrt(x) * sqrt(x) == x
  {
  }

  lemma SquarePositive(x: real, y: real, z: real)
    ensures x * x + y * y + z * z >= 0.0
  {
    assert x * x >= 0.0 && y * y >= 0.0 && z * z >= 0.0;
  }

  lemma SquaresLess(x: real, y: real)
    requires x >= 0.0 && y >= 0.0
    ensures x * x < y * y <==> x < y
  {
    if x < y {
      var e := y - x;
      assert y * y == x * x + 2.0 * (x * e) + e * e;
      assert x * e >= 0.0 && e * e > 0.0;
    } else {
      var e := x - y;
      assert x * x == y * y + 2.0 * (y * e) + e * e;
      assert y * e >= 0.0 && e * e >= 0.0;
    }
  }

  /** Two particles touch when the square of their distance is less than that of the sum of their radii, and
      they are not in one place: more than 1e-15 apart. */
  lemma TouchingIff(c: Physics, a: Particle, b: Particle)
    requires Roots(c.sqrt) && a.radius + b.radius >= 0.0
    ensures var dx, dy, dz := b.position.x - a.position.x, b.position.y - a.position.y, b.position.z - a.position.z;
      var q, reach := dx * dx + dy * dy + dz * dz, a.radius + b.radius;
      Touching(c, a, b) <==> 0.000000000000001 * 0.000000000000001 < q < reach * reach
  {
    hide Distance, Roots;
    var d, reach := Distance(c, a, b), a.radius + b.radius;
    DistanceSquared(c, a, b);
    SquaresLess(0.000000000000001, d);
    SquaresLess(d, reach);
  }

  lemma NormalTimes(c: Physics, a: Particle, b: Particle, d: real)
    requires d == Distance(c, a, b) > 0.000000000000001
    ensures Mul(Normalize(c.sqrt, Sub(b.position, a.position)), d) == Sub(b.position, a.position)
  {
    var v := Sub(b.position, a.position);
    assert v.x / d * d == v.x && v.y / d * d == v.y && v.z / d * d == v.z;
  }

  lemma DotIs(u: Vec, v: Vec)
    ensures Dot(u, v) == u.x * v.x + u.y * v.y + u.z * v.z
  {
  }

  lemma ClosingSpeed(u: Vec, n: Vec, x: Vec, d: real, speed: real)
    requires d > 0.0 && Mul(n, d) == x && speed * d == Dot(u, x)
    ensures Dot(u, n) == speed
  {
    assert Dot(u, x) == Dot(u, n) * d by {
      assert u.x * (n.x * d) == (u.x * n.x) * d && u.y * (n.y * d) == (u.y * n.y) * d
        && u.z * (n.z * d) == (u.z * n.z) * d;
    }
    ZeroProduct(Dot(u, n) - speed, d);
  }

  /** A contact, in terms of the distance d: it overlaps by what the radii exceed d by, its normal times d is
      the way from the first to the second particle, and its force is the sum of the three laws, for the
      speed along that way and for the mean radius. A positive force pushes the two apart. */
  lemma ContactMeasures(c: Physics, a: Particle, b: Particle, d: real, speed: real)
    requires Roots(c.sqrt) && Touching(c, a, b) && d >= 0.0
    requires var x := Sub(b.position, a.position); d * d == x.x * x.x + x.y * x.y + x.z * x.z
    requires var x, v := Sub(b.position, a.position), Sub(b.velocity, a.velocity);
      speed * d == v.x * x.x + v.y * x.y + v.z * x.z
    ensures var k := ContactOf(c, a, b);
      && k.particleA == a.id && k.particleB == b.id
      && k.overlap == a.radius + b.radius - d > 0.0 && Mul(k.normal, d) == Sub(b.position, a.position)
      && k.normalForce == HertzForce(c, k.overlap, a.radius, b.radius) + DampingForce(c, speed, k.overlap)
                          + VanDerWaalsForce(d, (a.radius + b.radius) / 2.0)
      && Mul(Push(c, a, b), d) == Mul(Sub(b.position, a.position), -k.normalForce)
  {
    hide Distance, Roots, HertzForce, DampingForce, VanDerWaalsForce, Normalize, Dot;
    DotIs(Sub(b.velocity, a.velocity), Sub(b.position, a.position));
    var e := Distance(c, a, b);
    DistanceSquared(c, a, b);
    SquaresLess(d, e);
    SquaresLess(e, d);
    NormalTimes(c, a, b, d);
    var k := ContactOf(c, a, b);
    ClosingSpeed(Sub(b.velocity, a.velocity), k.normal, Sub(b.position, a.position), d, speed);
    Swapped(k.normal, -k.normalForce, d);
  }

  lemma Undone(x: Vec, f: Vec)
    ensures Sub(Add(x, f), x) == f && Sub(Sub(x, f), x) == Mul(f, -1.0)
  {
  }

  /** What the two particles of a contact gain by it: the first is pushed away from the second by the force of
      the contact, the second away from the first, and nothing else of any particle changes. */
  lemma ExchangePushesApart(c: Physics, ps: seq<Particle>, pair: Pair, d: real, speed: real)
    requires Roots(c.sqrt) && pair.i < pair.j < |ps| && Touching(c, ps[pair.i], ps[pair.j]) && d >= 0.0
    requires var x := Sub(ps[pair.j].position, ps[pair.i].position); d * d == x.x * x.x + x.y * x.y + x.z * x.z
    requires var x, v := Sub(ps[pair.j].position, ps[pair.i].position), Sub(ps[pair.j].velocity, ps[pair.i].velocity);
      speed * d == v.x * x.x + v.y * x.y + v.z * x.z
    ensures var a, b, qs := ps[pair.i], ps[pair.j], Exchange(c, ps, pair);
      var f := ContactOf(c, a, b).normalForce;
      && |qs| == |ps| && (forall k: nat :: k < |ps| ==> SameBut(ps[k], qs[k]))
      && (forall k: nat :: k < |ps| && k != pair.i && k != pair.j ==> qs[k] == ps[k])
      && Mul(Sub(qs[pair.i].force, a.force), d) == Mul(Sub(a.position, b.position), f)
      && Mul(Sub(qs[pair.j].force, b.force), d) == Mul(Sub(b.position, a.position), f)
  {
    hide Touching, ContactOf, Push, Roots, Dot;
    var a, b := ps[pair.i], ps[pair.j];
    ContactMeasures(c, a, b, d, speed);
    Undone(a.force, Push(c, a, b));
    Undone(b.force, Push(c, a, b));
    Turned(a.position, b.position, Push(c, a, b), ContactOf(c, a, b).normalForce, d);
  }

  lemma Turned(p: Vec, q: Vec, push: Vec, f: real, d: real)
    requires Mul(push, d) == Mul(Sub(q, p), -f)
    ensures Mul(push, d) == Mul(Sub(p, q), f) && Mul(Mul(push, -1.0), d) == Mul(Sub(q, p), f)
  {
    assert push.x * -1.0 * d == -(push.x * d) && push.y * -1.0 * d == -(push.y * d)
      && push.z * -1.0 * d == -(push.z * d);
    assert (p.x - q.x) * f == (q.x - p.x) * -f;
    assert (p.y - q.y) * f == (q.y - p.y) * -f;
    assert (p.z - q.z) * f == (q.z - p.z) * -f;
  }

  lemma Swapped(n: Vec, f: real, d: real)
    ensures Mul(Mul(n, f), d) == Mul(Mul(n, d), f)
  {
    assert n.x * f * d == n.x * d * f && n.y * f * d == n.y * d * f && n.z * f * d == n.z * d * f;
  }

  // ------------------------------------------------- all contacts

  // What a particle receives in all: it is pushed as the first of a pair, and pushed back as the second.
  function Received(c: Physics, ps: seq<Particle>, pairs: seq<Pair>, k: nat): Vec
    requires InRange(ps, pairs)
  {
    if pairs == [] then ZERO else
    var rest, p := pairs[..|pairs| - 1], pairs[|pairs| - 1];
    assert p in pairs;
    var push := Push(c, ps[p.i], ps[p.j]);
    var before := Received(c, ps, rest, k);
    if k == p.i then Add(before, push) else if k == p.j then Sub(before, push) else before
  }

  lemma PushAsBefore(c: Physics, ps: seq<Particle>, pairs: seq<Pair>, p: Pair)
    requires InRange(ps, pairs) && p.i < p.j < |ps|
    ensures var qs := Exchanges(c, ps, pairs); Push(c, qs[p.i], qs[p.j]) == Push(c, ps[p.i], ps[p.j])
  {
    hide ContactOf, Exchanges;
    ExchangesOnlyForces(c, ps, pairs);
    ContactIgnoresForces(c, ps[p.i], ps[p.j], Exchanges(c, ps, pairs)[p.i], Exchanges(c, ps, pairs)[p.j]);
  }

  lemma GainInOne(c: Physics, ps: seq<Particle>, p: Pair, k: nat)
    requires p.i < p.j < |ps| && k < |ps|
    ensures var push := Push(c, ps[p.i], ps[p.j]);
      Exchange(c, ps, p)[k].force ==
        if k == p.i then Add(ps[k].force, push) else if k == p.j then Sub(ps[k].force, push) else ps[k].force
  {
    hide Push;
  }

  lemma Regroup(f: Vec, g: Vec, push: Vec)
    ensures Add(Add(f, g), push) == Add(f, Add(g, push)) && Sub(Add(f, g), push) == Add(f, Sub(g, push))
    ensures Add(f, ZERO) == f
  {
  }

  /** The contacts leave every particle with its own force and what it receives from each of its pairs. */
  lemma {:induction false} NetForce(c: Physics, ps: seq<Particle>, pairs: seq<Pair>, k: nat)
    requires InRange(ps, pairs) && k < |ps|
    ensures Exchanges(c, ps, pairs)[k].force == Add(ps[k].force, Received(c, ps, pairs, k))
  {
    hide Push, Exchange, Add, Sub;
    if pairs == [] {
      Regroup(ps[k].force, ZERO, ZERO);
    } else {
      var rest, p := pairs[..|pairs| - 1], pairs[|pairs| - 1];
      assert p in pairs;
      NetForce(c, ps, rest, k);
      PushAsBefore(c, ps, rest, p);
      GainInOne(c, Exchanges(c, ps, rest), p, k);
      Regroup(ps[k].force, Received(c, ps, rest, k), Push(c, ps[p.i], ps[p.j]));
    }
  }

  /** The k-th contact recorded is that of the k-th pair. */
  lemma {:induction false} ContactAt(c: Physics, ps: seq<Particle>, pairs: seq<Pair>, k: nat)
    requires InRange(ps, pairs) && k < |pairs|
    ensures pairs[k].i < pairs[k].j < |ps|
    ensures ContactsOf(c, ps, pairs)[k] == ContactOf(c, ps[pairs[k].i], ps[pairs[k].j])
  {
    hide ContactOf;
    assert pairs[k] in pairs;
    if k < |pairs| - 1 { ContactAt(c, ps, pairs[..|pairs| - 1], k); }
  }

  /** The torque that is conserved is the vector product of place and force: at right angles to both, and as
      large as they span. */
  lemma TorqueIsVectorProduct(p: Particle)
    ensures var t, x, f := Torque(p), p.position, p.force;
      && x.x * t.x + x.y * t.y + x.z * t.z == 0.0 && f.x * t.x + f.y * t.y + f.z * t.z == 0.0
      && t.x * t.x + t.y * t.y + t.z * t.z + (x.x * f.x + x.y * f.y + x.z * f.z) * (x.x * f.x + x.y * f.y + x.z * f.z)
         == (x.x * x.x + x.y * x.y + x.z * x.z) * (f.x * f.x + f.y * f.y + f.z * f.z)
  {
  }

  // ------------------------------------------------- filling and packing

  /** The volume counted for a particle is that of a sphere. */
  lemma BallIsSphere(c: Physics, r: real)
    requires c.pow(r, 3.0) == r * r * r
    ensures 3.0 * Ball(c, r) == 4.0 * c.pi * (r * r * r)
  {
    Thirds(c.pi, r * r * r, Ball(c, r));
  }

  lemma Thirds(pi: real, cube: real, ball: real)
    requires ball == 4.0 / 3.0 * pi * cube
    ensures 3.0 * ball == 4.0 * pi * cube
  {
    assert 4.0 / 3.0 * pi * cube == (4.0 / 3.0) * (pi * cube);
    assert 4.0 * pi * cube == 4.0 * (pi * cube);
  }

  lemma VolumeSnoc(c: Physics, counts: Particle -> bool, ps: seq<Particle>, p: Particle)
    ensures Volume(c, counts, ps + [p]) == Volume(c, counts, ps) + (if counts(p) then Ball(c, p.radius) else 0.0)
  {
    hide Ball;
    assert (ps + [p])[..|ps|] == ps;
  }

  lemma {:induction false} VolumeWith(c: Physics, counts: Particle -> bool, a: seq<Particle>, p: Particle,
                                      b: seq<Particle>)
    ensures Volume(c, counts, a + [p] + b) ==
      Volume(c, counts, a + b) + (if counts(p) then Ball(c, p.radius) else 0.0)
  {
    hide Ball, Volume;
    if b == [] {
      assert a + [p] + b == a + [p] && a + b == a;
      VolumeSnoc(c, counts, a, p);
    } else {
      var rest, last := b[..|b| - 1], b[|b| - 1];
      VolumeWith(c, counts, a, p, rest);
      assert a + [p] + b == (a + [p] + rest) + [last] && a + b == (a + rest) + [last];
      VolumeSnoc(c, counts, a + [p] + rest, last);
      VolumeSnoc(c, counts, a + rest, last);
    }
  }

  /** A particle of the boundary or outside the crack does not change the filling rate. */
  lemma OutsiderDoesNotFill(c: Physics, g: Geometry, a: seq<Particle>, p: Particle, b: seq<Particle>)
    requires p.boundary || !InsideCrack(g, p.position)
    ensures FillingRate(c, g, a + [p] + b) == FillingRate(c, g, a + b)
  {
    hide Volume, CrackVolume, InsideCrack;
    VolumeWith(c, Filling(g), a, p, b);
  }

  lemma {:induction false} SameVolumes(c: Physics, f: Particle -> bool, h: Particle -> bool, ps: seq<Particle>)
    requires forall i: nat :: i < |ps| ==> f(ps[i]) == h(ps[i])
    ensures Volume(c, f, ps) == Volume(c, h, ps)
  {
    if ps != [] { SameVolumes(c, f, h, ps[..|ps| - 1]); }
  }

  lemma {:induction false} NoVolume(c: Physics, f: Particle -> bool, ps: seq<Particle>)
    requires forall i: nat :: i < |ps| ==> !f(ps[i])
    ensures Volume(c, f, ps) == 0.0
  {
    if ps != [] { NoVolume(c, f, ps[..|ps| - 1]); }
  }

  /** While every loose particle is in the crack, as when they have just been generated, the filling rate is
      the packing density, or one if that is more. */
  lemma InsidersFill(c: Physics, g: Geometry, ps: seq<Particle>)
    requires g.length > 0.0 && g.width > 0.0 && g.depth > 0.0
    requires forall i: nat :: i < |ps| ==> ps[i].boundary || InsideCrack(g, ps[i].position)
    ensures FillingRate(c, g, ps) == Min(1.0, PackingDensity(c, g, ps))
  {
    hide Volume, CrackVolume, BoxVolume, InsideCrack;
    SameVolume(g);
    VolumePositive(g);
    SameVolumes(c, Filling(g), Loose(), ps);
  }

  /** With no loose particle in the crack it is zero. */
  lemma NobodyFills(c: Physics, g: Geometry, ps: seq<Particle>)
    requires forall i: nat :: i < |ps| ==> ps[i].boundary || !InsideCrack(g, ps[i].position)
    ensures FillingRate(c, g, ps) == 0.0
  {
    hide Volume, CrackVolume, InsideCrack;
    NoVolume(c, Filling(g), ps);
    if CrackVolume(g) > 0.0 { assert 0.0 / CrackVolume(g) == 0.0; }
  }

  /** A crack without an extent is not filled, and holds no particles. */
  lemma NoCrackNoFilling(c: Physics, g: Geometry, ps: seq<Particle>)
    requires Sized(g) && (g.length == 0.0 || g.width == 0.0 || g.depth == 0.0)
    ensures FillingRate(c, g, ps) == 0.0 && PackingDensity(c, g, ps) == 0.0
  {
    hide BoxVolume, CrackVolume, Volume;
    FlatBox(g);
  }

  lemma FlatBox(g: Geometry)
    requires g.length == 0.0 || g.width == 0.0 || g.depth == 0.0
    ensures BoxVolume(g) == 0.0
  {
    var h := HalfSize(g);
    assert h.x == 0.0 || h.y == 0.0 || h.z == 0.0;
    if h.x == 0.0 { assert 8.0 * h.x * h.y * h.z == 0.0; }
    if h.y == 0.0 { assert 8.0 * h.x * h.y == 0.0; }
  }

  /** Packing density times the volume of the crack, its width and depth in micrometres, grows by the
      particle's own volume with every loose particle, wherever it is, and by nothing with the others. */
  lemma PackingAddsUp(c: Physics, g: Geometry, a: seq<Particle>, p: Particle, b: seq<Particle>)
    requires g.length > 0.0 && g.width > 0.0 && g.depth > 0.0
    ensures PackingDensity(c, g, []) == 0.0
    ensures var volume := g.length * (g.width * 0.000001) * (g.depth * 0.000001);
      PackingDensity(c, g, a + [p] + b) * volume ==
        PackingDensity(c, g, a + b) * volume + (if p.boundary then 0.0 else Ball(c, p.radius))
  {
    hide Volume, BoxVolume, Ball;
    BoxIsProduct(g);
    VolumeWith(c, Loose(), a, p, b);
    NoVolume(c, Loose(), []);
    var v := BoxVolume(g);
    var x, y := Volume(c, Loose(), a + [p] + b), Volume(c, Loose(), a + b);
    assert x / v * v == x && y / v * v == y && 0.0 / v == 0.0;
  }

  lemma BoxIsProduct(g: Geometry)
    requires g.length > 0.0 && g.width > 0.0 && g.depth > 0.0
    ensures BoxVolume(g) == g.length * (g.width * 0.000001) * (g.depth * 0.000001) > 0.0
  {
    hide BoxVolume, CrackVolume;
    SameVolume(g);
    VolumePositive(g);
    assert CrackVolume(g) == g.length * (g.width * 0.000001) * (g.depth * 0.000001) by { CrackIsProduct(g); }
  }

  lemma CrackIsProduct(g: Geometry)
    ensures CrackVolume(g) == g.length * (g.width * 0.000001) * (g.depth * 0.000001)
  {
    var l, w, d := g.length, g.width, g.depth;
    assert l * w * 0.000001 == l * (w * 0.000001);
    assert l * (w * 0.000001) * d * 0.000001 == l * (w * 0.000001) * (d * 0.000001);
  }

  function MassOf(): Particle -> real { (p: Particle) => p.mass }

  lemma {:induction false} MassesAreVolumes(c: Physics, ps: seq<Particle>)
    requires forall i: nat :: i < |ps| ==> !ps[i].boundary && ps[i].mass == c.density * Ball(c, ps[i].radius)
    ensures Total(MassOf(), ps) == c.density * Volume(c, Loose(), ps)
  {
    hide Ball;
    if ps != [] {
      var n := |ps| - 1;
      MassesAreVolumes(c, ps[..n]);
      assert c.density * (Volume(c, Loose(), ps[..n]) + Ball(c, ps[n].radius)) ==
        c.density * Volume(c, Loose(), ps[..n]) + c.density * Ball(c, ps[n].radius);
    } else {
      assert c.density * 0.0 == 0.0;
    }
  }

  // ------------------------------------------------- generated particles

  // Loose and free, of this material and density, at rest under its weight.
  ghost predicate JustGenerated(c: Physics, material: int, q: Particle) {
    && !q.boundary && !q.fixed && q.materialId == material && q.mass == c.density * Ball(c, q.radius)
    && q.velocity == Vec(0.0, 0.0, 0.0) && q.force == Vec(0.0, 0.0, -9.81 * q.mass)
  }

  lemma CandidateFields(c: Physics, rng: Rng, g: Geometry, p: DemParameters, material: int, n: nat, i: nat)
    ensures JustGenerated(c, material, Candidate(c, rng, g, p, material, n, i))
  {
    hide DrawnPoint;
    var q := Candidate(c, rng, g, p, material, n, i);
    SameMass(c.density, c.pi, c.pow(q.radius, 3.0));
  }

  lemma SameMass(density: real, pi: real, cube: real)
    ensures density * (4.0 / 3.0) * pi * cube == density * (4.0 / 3.0 * pi * cube)
  {
    assert density * (4.0 / 3.0) * pi * cube == density * ((4.0 / 3.0) * (pi * cube));
    assert 4.0 / 3.0 * pi * cube == (4.0 / 3.0) * (pi * cube);
  }

  /** Every particle tried has four random numbers of its own: the first makes its radius, and the others its
      place along the three axes of the crack. */
  lemma FourDraws(c: Physics, rng: Rng, g: Geometry, p: DemParameters, material: int, first: nat, i: nat)
    ensures var q, n := Tried(c, rng, g, p, material, first)(i), first + 4 * i;
      && q.id == i && q.radius == rng(n, p.minRadius, p.maxRadius)
      && q.position.x - g.origin.x == rng(n + 1, -0.5 * g.length, 0.5 * g.length)
      && q.position.y - g.origin.y == rng(n + 2, -0.0000005 * g.width, 0.0000005 * g.width)
      && q.position.z - g.origin.z == rng(n + 3, -0.0000005 * g.depth, 0.0000005 * g.depth)
  {
    var half := HalfSize(g);
    assert half.x == 0.5 * g.length && half.y == 0.0000005 * g.width && half.z == 0.0000005 * g.depth;
  }

  lemma OverlappingOrNot(c: Physics, p: Particle, q: Particle)
    requires Touching(c, q, p)
    ensures Overlapping(c, p, q)
  {
    hide Norm, Sub;
  }

  lemma NoTwoTouch(c: Physics, tried: nat -> Particle, k: nat, ps: seq<Particle>)
    requires Kept(c, tried, k, ps)
    ensures forall i: nat, j: nat :: i < j < |ps| ==> !Touching(c, ps[i], ps[j])
  {
    hide Overlapping, Touching, Decided;
    forall i: nat, j: nat | i < j < |ps| ensures !Touching(c, ps[i], ps[j]) {
      if Touching(c, ps[i], ps[j]) { OverlappingOrNot(c, ps[j], ps[i]); }
    }
  }

  lemma MassIsPacked(c: Physics, g: Geometry, material: int, ps: seq<Particle>)
    requires g.length > 0.0 && g.width > 0.0 && g.depth > 0.0
    requires forall i: nat :: i < |ps| ==> JustGenerated(c, material, ps[i])
    ensures Total(MassOf(), ps) ==
      c.density * (PackingDensity(c, g, ps) * (g.length * (g.width * 0.000001) * (g.depth * 0.000001)))
  {
    hide BoxVolume, Volume, Ball, Total;
    MassesAreVolumes(c, ps);
    BoxIsProduct(g);
    var v := BoxVolume(g);
    assert Volume(c, Loose(), ps) / v * v == Volume(c, Loose(), ps);
  }

  lemma KeptAreGenerated(c: Physics, rng: Rng, g: Geometry, p: DemParameters, material: int, first: nat, k: nat,
                         ps: seq<Particle>)
    requires Kept(c, Tried(c, rng, g, p, material, first), k, ps)
    ensures forall i: nat :: i < |ps| ==> JustGenerated(c, material, ps[i])
  {
    hide Candidate, Overlapping, Decided, JustGenerated;
    forall i: nat | i < |ps| ensures JustGenerated(c, material, ps[i]) {
      CandidateFields(c, rng, g, p, material, first + 4 * ps[i].id, ps[i].id);
    }
  }

  /** What has just been generated: loose, free particles of this material, at rest under their weight, of the
      given density; no two of them touch; and together they weigh density times packing density times the
      volume of the crack. */
  lemma GeneratedParticles(c: Physics, rng: Rng, g: Geometry, p: DemParameters, material: int, first: nat, k: nat,
                           ps: seq<Particle>)
    requires Kept(c, Tried(c, rng, g, p, material, first), k, ps)
    requires g.length > 0.0 && g.width > 0.0 && g.depth > 0.0
    ensures forall i: nat :: i < |ps| ==> JustGenerated(c, material, ps[i])
    ensures forall i: nat, j: nat :: i < j < |ps| ==> !Touching(c, ps[i], ps[j])
    ensures Total(MassOf(), ps) ==
      c.density * (PackingDensity(c, g, ps) * (g.length * (g.width * 0.000001) * (g.depth * 0.000001)))
  {
    hide Kept, JustGenerated, Touching, PackingDensity, Total;
    KeptAreGenerated(c, rng, g, p, material, first, k, ps);
    NoTwoTouch(c, Tried(c, rng, g, p, material, first), k, ps);
    MassIsPacked(c, g, material, ps);
  }

  // ------------------------------------------------- what a run reports

  lemma SelectSnoc(ps: seq<Particle>, p: Particle)
    ensures Select(Loose(), ps + [p]) == if p.boundary then Select(Loose(), ps) else Select(Loose(), ps) + [p]
  {
    assert (ps + [p])[..|ps|] == ps;
  }

  /** The particles reported are those that are not of the boundary, as often as they are there, and the
      number reported is theirs. */
  lemma {:induction false} LooseAreReported(ps: seq<Particle>, q: Particle)
    ensures multiset(Select(Loose(), ps))[q] == if q.boundary then 0 else multiset(ps)[q]
    ensures Count(Loose(), ps) == |Select(Loose(), ps)|
  {
    hide Select, Count;
    if ps == [] {
      NothingSelected();
    } else {
      var rest, last := ps[..|ps| - 1], ps[|ps| - 1];
      LooseAreReported(rest, q);
      SelectSnoc(rest, last);
      assert ps == rest + [last];
    }
  }

  lemma NothingSelected()
    ensures Select(Loose(), []) == []
  {
  }

  /** They keep their order. */
  lemma {:induction false} LooseKeepOrder(a: seq<Particle>, b: seq<Particle>)
    ensures Select(Loose(), a + b) == Select(Loose(), a) + Select(Loose(), b)
  {
    if b == [] {
      assert a + b == a;
    } else {
      LooseKeepOrder(a, b[..|b| - 1]);
      assert (a + b)[..|a + b| - 1] == a + b[..|b| - 1];
    }
  }

  lemma WeightIsMeasured(sqrt: real -> real, p: Particle, g: Geometry, dt: real, o: Vec, k: nat)
    requires Roots(sqrt) && Settled(p, g, dt, o, k)
    ensures ForceSize(sqrt)(p) == if p.fixed then 0.0 else 9.81 * Abs(p.mass)
  {
    hide Roots, InBox, FallPosition, FallVelocity, Norm;
    VerticalSpeed(sqrt, if p.fixed then 0.0 else -9.81 * p.mass);
  }

  lemma {:induction false} LargestIsOne(sqrt: real -> real, ps: seq<Particle>)
    requires forall i: nat :: i < |ps| ==> ForceSize(sqrt)(ps[i]) >= 0.0
    ensures forall i: nat :: i < |ps| ==> ForceSize(sqrt)(ps[i]) <= LargestForce(sqrt, ps)
    ensures if ps == [] then LargestForce(sqrt, ps) == 0.0
            else exists i: nat :: i < |ps| && ForceSize(sqrt)(ps[i]) == LargestForce(sqrt, ps)
  {
    hide Norm;
    if ps != [] {
      var n := |ps| - 1;
      var rest, last := ps[..n], ps[n];
      LargestIsOne(sqrt, rest);
      assert ForceSize(sqrt)(last) == Norm(sqrt, last.force) >= 0.0;
      if LargestForce(sqrt, rest) < Norm(sqrt, last.force) || n == 0 {
        assert LargestForce(sqrt, ps) == ForceSize(sqrt)(ps[n]);
      } else {
        var i: nat :| i < n && ForceSize(sqrt)(rest[i]) == LargestForce(sqrt, rest);
        assert ps[i] == rest[i];
      }
    }
  }

  /** So the largest force of a run is 9.81 times the mass of one of its free particles, or zero, and no
      particle has a larger one. */
  lemma LargestIsAWeight(sqrt: real -> real, m: Moment, g: Geometry, dt: real)
    requires Roots(sqrt) && AllSettled(m, g, dt)
    ensures var most := LargestForce(sqrt, m.particles);
      && (forall i: nat :: i < |m.particles| && !m.particles[i].fixed ==> 9.81 * Abs(m.particles[i].mass) <= most)
      && (most == 0.0 || exists i: nat :: i < |m.particles| && !m.particles[i].fixed
                           && most == 9.81 * Abs(m.particles[i].mass))
  {
    hide Settled, Roots, LargestForce, ForceSize;
    var ps := m.particles;
    forall i: nat | i < |ps|
      ensures ForceSize(sqrt)(ps[i]) == if ps[i].fixed then 0.0 else 9.81 * Abs(ps[i].mass)
    {
      WeightIsMeasured(sqrt, ps[i], g, dt, m.origins[i], m.ages[i]);
    }
    LargestIsOne(sqrt, ps);
    if ps != [] {
      var i: nat :| i < |ps| && ForceSize(sqrt)(ps[i]) == LargestForce(sqrt, ps);
    }
  }
}
