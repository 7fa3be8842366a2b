/** Three-dimensional vectors, as the particle simulation computes with them, and sums of them. */
module Vectors {
  datatype Vec = Vec(x: real, y: real, z: real)

  const ZERO := Vec(0.0, 0.0, 0.0)

  function Add(a: Vec, b: Vec): Vec { Vec(a.x + b.x, a.y + b.y, a.z + b.z) }
  function Sub(a: Vec, b: Vec): Vec { Vec(a.x - b.x, a.y - b.y, a.z - b.z) }
  function Mul(v: Vec, s: real): Vec { Vec(v.x * s, v.y * s, v.z * s) }
  function Dot(a: Vec, b: Vec): real { a.x * b.x + a.y * b.y + a.z * b.z }

  function Cross(a: Vec, b: Vec): Vec {
    Vec(a.y * b.z - a.z * b.y, a.z * b.x - a.x * b.z, a.x * b.y - a.y * b.x)
  }

  function Square(v: Vec): real { v.x * v.x + v.y * v.y + v.z * v.z }
  function Norm(sqrt: real -> real, v: Vec): real { sqrt(Square(v)) }

  function Normalize(sqrt: real -> real, v: Vec): Vec {
    var n := Norm(sqrt, v);
    if n < 0.000000000000001 then ZERO else Vec(v.x / n, v.y / n, v.z / n)
  }

  lemma MinorOfParallel(a: real, b: real, q: real, s: real)
    ensures a * (b * q * s) - b * (a * q * s) == 0.0
  {
    assert a * (b * q * s) == (a * b) * (q * s) && b * (a * q * s) == (a * b) * (q * s);
  }

  // A vector along d has no moment with d.
  lemma CrossOfParallel(d: Vec, q: real, s: real)
    ensures Cross(d, Mul(Mul(d, q), s)) == ZERO
  {
    MinorOfParallel(d.y, d.z, q, s);
    MinorOfParallel(d.z, d.x, q, s);
    MinorOfParallel(d.x, d.y, q, s);
  }

  lemma NormalizeIsScaling(sqrt: real -> real, v: Vec) returns (q: real)
    ensures Normalize(sqrt, v) == Mul(v, q)
  {
    var n := Norm(sqrt, v);
    if n < 0.000000000000001 {
      q := 0.0;
    } else {
      q := 1.0 / n;
      Quotient(v.x, n);
      Quotient(v.y, n);
      Quotient(v.z, n);
    }
  }

  lemma Quotient(x: real, n: real)
    requires n > 0.0
    ensures x / n == x * (1.0 / n)
  {
  }

  lemma MinorSum(a: real, b: real, x: real, y: real, u: real, v: real)
    ensures a * (x + u) - b * (y + v) == (a * x - b * y) + (a * u - b * v)
  {
  }

  lemma CrossAdd(a: Vec, f: Vec, g: Vec)
    ensures Cross(a, Add(f, g)) == Add(Cross(a, f), Cross(a, g))
  {
    MinorSum(a.y, a.z, f.z, f.y, g.z, g.y);
    MinorSum(a.z, a.x, f.x, f.z, g.x, g.z);
    MinorSum(a.x, a.y, f.y, f.x, g.y, g.x);
  }

  lemma MinorLeft(a: real, b: real, c: real, d: real, x: real, y: real)
    ensures (a - c) * x - (b - d) * y == (a * x - b * y) - (c * x - d * y)
  {
  }

  lemma CrossSubLeft(a: Vec, b: Vec, f: Vec)
    ensures Cross(Sub(a, b), f) == Sub(Cross(a, f), Cross(b, f))
  {
    MinorLeft(a.y, a.z, b.y, b.z, f.z, f.y);
    MinorLeft(a.z, a.x, b.z, b.x, f.x, f.z);
    MinorLeft(a.x, a.y, b.x, b.y, f.y, f.x);
  }

  lemma SquareOpposite(a: Vec, b: Vec)
    ensures Square(Sub(a, b)) == Square(Sub(b, a))
  {
    SquareFlip(a.x, b.x);
    SquareFlip(a.y, b.y);
    SquareFlip(a.z, b.z);
  }

  lemma SquareFlip(a: real, b: real)
    ensures (a - b) * (a - b) == (b - a) * (b - a)
  {
  }

  lemma QuotientFlip(a: real, b: real, n: real)
    requires n > 0.0
    ensures (a - b) / n == (b - a) / n * -1.0
  {
  }

  /** The line between two points has opposite directions from its two ends. */
  lemma OppositeNormal(sqrt: real -> real, a: Vec, b: Vec)
    ensures Norm(sqrt, Sub(a, b)) == Norm(sqrt, Sub(b, a))
    ensures Normalize(sqrt, Sub(a, b)) == Mul(Normalize(sqrt, Sub(b, a)), -1.0)
  {
    hide Square;
    SquareOpposite(a, b);
    var n := Norm(sqrt, Sub(a, b));
    if n >= 0.000000000000001 {
      QuotientFlip(a.x, b.x, n);
      QuotientFlip(a.y, b.y, n);
      QuotientFlip(a.z, b.z, n);
    }
  }

  // ------------------------------------------------- sums

  function Sum<P>(g: P -> Vec, ps: seq<P>): Vec {
    if ps == [] then ZERO else Add(Sum(g, ps[..|ps| - 1]), g(ps[|ps| - 1]))
  }

  lemma {:induction false} SumUpdate<P>(g: P -> Vec, ps: seq<P>, i: nat, p: P)
    requires i < |ps|
    ensures Sum(g, ps[i := p]) == Add(Sum(g, ps), Sub(g(p), g(ps[i])))
  {
    var n := |ps| - 1;
    if i == n {
      assert ps[i := p][..n] == ps[..n];
    } else {
      assert ps[i := p][..n] == ps[..n][i := p];
      SumUpdate(g, ps[..n], i, p);
    }
  }

  /** Changing two terms by opposite amounts leaves a sum as it is. */
  lemma SumExchange<P>(g: P -> Vec, ps: seq<P>, i: nat, j: nat, p: P, q: P)
    requires i < |ps| && j < |ps| && i != j
    requires Add(Sub(g(p), g(ps[i])), Sub(g(q), g(ps[j]))) == ZERO
    ensures Sum(g, ps[i := p][j := q]) == Sum(g, ps)
  {
    SumUpdate(g, ps, i, p);
    SumUpdate(g, ps[i := p], j, q);
  }
}
