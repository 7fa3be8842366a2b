/** Contacts between particles: which pairs touch, in which order they are found, and the forces
    they exchange. */
module DemContacts {
  import opened Vectors

  datatype Particle = Particle(id: int, position: Vec, velocity: Vec, force: Vec, radius: real, mass: real,
                               materialId: int, boundary: bool, fixed: bool)

  datatype Contact = Contact(particleA: int, particleB: int, normal: Vec, overlap: real, normalForce: real)

  // sqrt and pow, and the material constants that the force laws read
  datatype Physics = Physics(sqrt: real -> real, pow: (real, real) -> real, pi: real,
                             youngsModulus: real, poissonsRatio: real, density: real, damping: real)

  const MAX_CONTACTS: nat := 50000

  // ------------------------------------------------- force laws

  // With radii that sum to zero there is no contact, so the quotient is not formed.
  function HertzForce(c: Physics, overlap: real, ra: real, rb: real): real {
    if overlap <= 0.0 || ra + rb == 0.0 || 1.0 - c.poissonsRatio * c.poissonsRatio == 0.0 then 0.0 else
    var rEff := ra * rb / (ra + rb);
    var eEff := c.youngsModulus / (2.0 * (1.0 - c.poissonsRatio * c.poissonsRatio));
    4.0 / 3.0 * eEff * c.sqrt(rEff) * c.pow(overlap, 1.5)
  }

  function DampingForce(c: Physics, speed: real, overlap: real): real {
    if overlap <= 0.0 then 0.0 else
    -(2.0 * c.damping * c.sqrt(c.youngsModulus * c.density)) * speed * c.sqrt(overlap)
  }

  function VanDerWaalsForce(distance: real, radius: real): real {
    var d := if distance < 0.0000000001 then 0.0000000001 else distance;
    -(0.0000000000000000001 * radius) / (6.0 * d * d)
  }

  // ------------------------------------------------- one pair

  function Distance(c: Physics, a: Particle, b: Particle): real { Norm(c.sqrt, Sub(b.position, a.position)) }

  predicate Touching(c: Physics, a: Particle, b: Particle) {
    0.000000000000001 < Distance(c, a, b) < a.radius + b.radius
  }

  function ContactOf(c: Physics, a: Particle, b: Particle): Contact {
    var dist := Distance(c, a, b);
    var normal := Normalize(c.sqrt, Sub(b.position, a.position));
    var overlap := a.radius + b.radius - dist;
    var speed := Dot(Sub(b.velocity, a.velocity), normal);
    var force := HertzForce(c, overlap, a.radius, b.radius) + DampingForce(c, speed, overlap)
                 + VanDerWaalsForce(dist, (a.radius + b.radius) / 2.0);
    Contact(a.id, b.id, normal, overlap, force)
  }

  // What a receives; b receives the opposite.
  function Push(c: Physics, a: Particle, b: Particle): Vec {
    var contact := ContactOf(c, a, b);
    Mul(contact.normal, -contact.normalForce)
  }

  lemma OppositeSpeed(u: Vec, v: Vec, n: Vec)
    ensures Dot(Sub(u, v), Mul(n, -1.0)) == Dot(Sub(v, u), n)
  {
    assert (u.x - v.x) * (n.x * -1.0) == (v.x - u.x) * n.x;
    assert (u.y - v.y) * (n.y * -1.0) == (v.y - u.y) * n.y;
    assert (u.z - v.z) * (n.z * -1.0) == (v.z - u.z) * n.z;
  }

  lemma HertzSymmetric(c: Physics, overlap: real, ra: real, rb: real)
    ensures HertzForce(c, overlap, ra, rb) == HertzForce(c, overlap, rb, ra)
  {
    assert ra * rb == rb * ra;
  }

  /** Two particles touch, and push each other apart by opposite forces, whichever is taken first. */
  lemma ReactionIsOpposite(c: Physics, a: Particle, b: Particle)
    ensures Touching(c, a, b) <==> Touching(c, b, a)
    ensures ContactOf(c, a, b).normalForce == ContactOf(c, b, a).normalForce
    ensures Push(c, b, a) == Mul(Push(c, a, b), -1.0)
  {
    hide HertzForce, DampingForce, VanDerWaalsForce, Normalize, Norm, Dot;
    OppositeNormal(c.sqrt, a.position, b.position);
    OppositeSpeed(a.velocity, b.velocity, Normalize(c.sqrt, Sub(b.position, a.position)));
    HertzSymmetric(c, a.radius + b.radius - Distance(c, a, b), a.radius, b.radius);
    Flipped(ContactOf(c, a, b).normal, ContactOf(c, a, b).normalForce);
  }

  lemma Flipped(n: Vec, f: real)
    ensures Mul(Mul(n, -1.0), -f) == Mul(Mul(n, -f), -1.0)
  {
  }

  datatype Pair = Pair(i: nat, j: nat)

  function Exchange(c: Physics, ps: seq<Particle>, pair: Pair): seq<Particle>
    requires pair.i < pair.j < |ps|
  {
    var a, b := ps[pair.i], ps[pair.j];
    ps[pair.i := a.(force := Add(a.force, Push(c, a, b)))][pair.j := b.(force := Sub(b.force, Push(c, a, b)))]
  }

  function Force(p: Particle): Vec { p.force }
  function Torque(p: Particle): Vec { Cross(p.position, p.force) }

  lemma PushIsAlongTheLine(c: Physics, a: Particle, b: Particle)
    ensures Cross(a.position, Push(c, a, b)) == Cross(b.position, Push(c, a, b))
  {
    hide Normalize, Cross, Mul;
    var d := Sub(b.position, a.position);
    var s := -ContactOf(c, a, b).normalForce;
    var q := NormalizeIsScaling(c.sqrt, d);
    CrossOfParallel(d, q, s);
    CrossSubLeft(b.position, a.position, Push(c, a, b));
  }

  lemma TorqueExchanged(c: Physics, a: Particle, b: Particle)
    ensures var f := Push(c, a, b);
      Add(Sub(Cross(a.position, Add(a.force, f)), Cross(a.position, a.force)),
          Sub(Cross(b.position, Sub(b.force, f)), Cross(b.position, b.force))) == ZERO
  {
    hide Cross, Push;
    var f := Push(c, a, b);
    CrossAdd(a.position, a.force, f);
    CrossAdd(b.position, Sub(b.force, f), f);
    assert Add(Sub(b.force, f), f) == b.force;
    PushIsAlongTheLine(c, a, b);
  }

  /** One contact changes neither the total force nor the total torque. */
  lemma ExchangeConserves(c: Physics, ps: seq<Particle>, pair: Pair)
    requires pair.i < pair.j < |ps|
    ensures Sum(Force, Exchange(c, ps, pair)) == Sum(Force, ps)
    ensures Sum(Torque, Exchange(c, ps, pair)) == Sum(Torque, ps)
  {
    hide Push, Cross, Sum;
    var a, b := ps[pair.i], ps[pair.j];
    var f := Push(c, a, b);
    var p, q := a.(force := Add(a.force, f)), b.(force := Sub(b.force, f));
    SumExchange(Force, ps, pair.i, pair.j, p, q);
    TorqueExchanged(c, a, b);
    SumExchange(Torque, ps, pair.i, pair.j, p, q);
  }

  // ------------------------------------------------- the pairs, in the order they are found

  // Touching pairs (i, k) with i < k < j.
  function Row(c: Physics, ps: seq<Particle>, i: nat, j: nat): seq<Pair>
    requires i < j <= |ps|
  {
    if j == i + 1 then [] else
    Row(c, ps, i, j - 1) + (if Touching(c, ps[i], ps[j - 1]) then [Pair(i, j - 1)] else [])
  }

  // Touching pairs whose first index is below i.
  function Rows(c: Physics, ps: seq<Particle>, i: nat): seq<Pair>
    requires i <= |ps|
  {
    if i == 0 then [] else Rows(c, ps, i - 1) + Row(c, ps, i - 1, |ps|)
  }

  function TouchingPairs(c: Physics, ps: seq<Particle>): seq<Pair> { Rows(c, ps, |ps|) }

  function FirstOf(pairs: seq<Pair>): seq<Pair> { if |pairs| <= MAX_CONTACTS then pairs else pairs[..MAX_CONTACTS] }

  predicate Before(p: Pair, q: Pair) { p.i < q.i || (p.i == q.i && p.j < q.j) }

  ghost predicate Sorted(pairs: seq<Pair>) { forall x: nat, y: nat :: x < y < |pairs| ==> Before(pairs[x], pairs[y]) }

  ghost predicate Touch(c: Physics, ps: seq<Particle>, p: Pair) { p.i < p.j < |ps| && Touching(c, ps[p.i], ps[p.j]) }

  lemma SortedConcat(a: seq<Pair>, b: seq<Pair>)
    requires Sorted(a) && Sorted(b) && forall p, q :: p in a && q in b ==> Before(p, q)
    ensures Sorted(a + b)
  {
    forall x: nat, y: nat | x < y < |a + b| ensures Before((a + b)[x], (a + b)[y]) {
      if x < |a| <= y { assert a[x] in a && b[y - |a|] in b; }
    }
  }

  lemma {:induction false} RowExact(c: Physics, ps: seq<Particle>, i: nat, j: nat)
    requires i < j <= |ps|
    ensures Sorted(Row(c, ps, i, j))
    ensures forall p :: p in Row(c, ps, i, j) <==> Touch(c, ps, p) && p.i == i && p.j < j
    decreases j
  {
    hide Touching;
    if j > i + 1 {
      RowExact(c, ps, i, j - 1);
      SortedConcat(Row(c, ps, i, j - 1), if Touching(c, ps[i], ps[j - 1]) then [Pair(i, j - 1)] else []);
    }
  }

  lemma {:induction false} RowsExact(c: Physics, ps: seq<Particle>, i: nat)
    requires i <= |ps|
    ensures Sorted(Rows(c, ps, i))
    ensures forall p :: p in Rows(c, ps, i) <==> Touch(c, ps, p) && p.i < i
  {
    hide Touching, Row;
    if i > 0 {
      RowsExact(c, ps, i - 1);
      RowExact(c, ps, i - 1, |ps|);
      SortedConcat(Rows(c, ps, i - 1), Row(c, ps, i - 1, |ps|));
    }
  }

  /** The pairs found are exactly the touching ones, each once, in lexicographic order. */
  lemma TouchingPairsExact(c: Physics, ps: seq<Particle>)
    ensures Sorted(TouchingPairs(c, ps))
    ensures forall p :: p in TouchingPairs(c, ps) <==> Touch(c, ps, p)
  {
    RowsExact(c, ps, |ps|);
  }

  lemma {:induction false} RowPrefix(c: Physics, ps: seq<Particle>, i: nat, j: nat, k: nat)
    requires i < j <= k <= |ps|
    ensures Row(c, ps, i, j) <= Row(c, ps, i, k)
    decreases k
  {
    if j < k { RowPrefix(c, ps, i, j, k - 1); }
  }

  lemma {:induction false} RowsPrefix(c: Physics, ps: seq<Particle>, i: nat, k: nat)
    requires i <= k <= |ps|
    ensures Rows(c, ps, i) <= Rows(c, ps, k)
    decreases k
  {
    if i < k { RowsPrefix(c, ps, i, k - 1); }
  }

  lemma UptoPrefix(c: Physics, ps: seq<Particle>, i: nat, j: nat)
    requires i < j <= |ps|
    ensures Rows(c, ps, i) + Row(c, ps, i, j) <= TouchingPairs(c, ps)
  {
    hide Row, Rows;
    RowPrefix(c, ps, i, j, |ps|);
    RowsPrefix(c, ps, i + 1, |ps|);
    RowsNext(c, ps, i);
    ExtendPrefix(Rows(c, ps, i), Row(c, ps, i, j), Row(c, ps, i, |ps|), Rows(c, ps, i + 1), TouchingPairs(c, ps));
  }

  lemma RowsNext(c: Physics, ps: seq<Particle>, i: nat)
    requires i < |ps|
    ensures Rows(c, ps, i + 1) == Rows(c, ps, i) + Row(c, ps, i, |ps|)
  {
    hide Row;
  }

  lemma ExtendPrefix(a: seq<Pair>, b: seq<Pair>, d: seq<Pair>, e: seq<Pair>, whole: seq<Pair>)
    requires b <= d && e == a + d && e <= whole
    ensures a + b <= whole
  {
    assert d == b + d[|b|..] && whole == e + whole[|e|..];
    assert whole == (a + b) + (d[|b|..] + whole[|e|..]);
  }

  // ------------------------------------------------- all the exchanges

  ghost predicate InRange(ps: seq<Particle>, pairs: seq<Pair>) { forall p :: p in pairs ==> p.i < p.j < |ps| }

  function Exchanges(c: Physics, ps: seq<Particle>, pairs: seq<Pair>): (r: seq<Particle>)
    requires InRange(ps, pairs)
    ensures |r| == |ps|
  {
    if pairs == [] then ps else
    assert pairs[|pairs| - 1] in pairs;
    Exchange(c, Exchanges(c, ps, pairs[..|pairs| - 1]), pairs[|pairs| - 1])
  }

  function ContactsOf(c: Physics, ps: seq<Particle>, pairs: seq<Pair>): (r: seq<Contact>)
    requires InRange(ps, pairs)
    ensures |r| == |pairs|
  {
    if pairs == [] then [] else
    var last := pairs[|pairs| - 1];
    assert last in pairs;
    ContactsOf(c, ps, pairs[..|pairs| - 1]) + [ContactOf(c, ps[last.i], ps[last.j])]
  }

  // Only the force differs.
  predicate SameBut(p: Particle, q: Particle) { q == p.(force := q.force) }

  lemma {:induction false} ExchangesOnlyForces(c: Physics, ps: seq<Particle>, pairs: seq<Pair>)
    requires InRange(ps, pairs)
    ensures forall k: nat :: k < |ps| ==> SameBut(ps[k], Exchanges(c, ps, pairs)[k])
  {
    hide Push;
    if pairs != [] {
      var n := |pairs| - 1;
      assert pairs[n] in pairs;
      ExchangesOnlyForces(c, ps, pairs[..n]);
    }
  }

  lemma ContactIgnoresForces(c: Physics, a: Particle, b: Particle, a': Particle, b': Particle)
    requires SameBut(a, a') && SameBut(b, b')
    ensures ContactOf(c, a, b) == ContactOf(c, a', b') && (Touching(c, a, b) <==> Touching(c, a', b'))
  {
    hide HertzForce, DampingForce, VanDerWaalsForce, Normalize, Norm;
  }

  /** All the contacts together change neither the total force nor the total torque. */
  lemma {:induction false} ExchangesConserve(c: Physics, ps: seq<Particle>, pairs: seq<Pair>)
    requires InRange(ps, pairs)
    ensures Sum(Force, Exchanges(c, ps, pairs)) == Sum(Force, ps)
    ensures Sum(Torque, Exchanges(c, ps, pairs)) == Sum(Torque, ps)
  {
    hide Exchange, Sum;
    if pairs != [] {
      var n := |pairs| - 1;
      assert pairs[n] in pairs;
      ExchangesConserve(c, ps, pairs[..n]);
      ExchangeConserves(c, Exchanges(c, ps, pairs[..n]), pairs[n]);
    }
  }

  /** A particle in none of the pairs keeps its force. */
  lemma {:induction false} OthersUntouched(c: Physics, ps: seq<Particle>, pairs: seq<Pair>, k: nat)
    requires InRange(ps, pairs) && k < |ps| && forall p :: p in pairs ==> p.i != k && p.j != k
    ensures Exchanges(c, ps, pairs)[k] == ps[k]
  {
    hide Push;
    if pairs != [] {
      var n := |pairs| - 1;
      assert pairs[n] in pairs;
      OthersUntouched(c, ps, pairs[..n], k);
    }
  }
}
