/** Colour scales: stops along a depth axis and the exact colour between them. */
module ColorScale {
  import opened Reals

  datatype Color = Color(r: real, g: real, b: real)
  datatype Stop = Stop(depth: real, color: Color)
  datatype Channel = Red | Green | Blue

  function Value(c: Color, ch: Channel): real {
    match ch case Red => c.r case Green => c.g case Blue => c.b
  }

  const DEFAULT_STOPS: seq<Stop> := [
    Stop(0.0, Color(0.19, 0.51, 0.81)), Stop(50.0, Color(0.22, 0.63, 0.41)), Stop(100.0, Color(0.93, 0.79, 0.29)),
    Stop(150.0, Color(0.93, 0.53, 0.21)), Stop(200.0, Color(0.90, 0.24, 0.24))]

  predicate Increasing(stops: seq<Stop>) {
    forall i: nat, j: nat :: i < j < |stops| ==> stops[i].depth < stops[j].depth
  }

  // The colour between two stops; between stops at one depth the first one's, where the source
  // would divide by zero.
  function Between(a: Stop, b: Stop, depth: real): Color {
    if a.depth == b.depth then a.color else
    var t := (depth - a.depth) / (b.depth - a.depth);
    Color(a.color.r + (b.color.r - a.color.r) * t, a.color.g + (b.color.g - a.color.g) * t,
          a.color.b + (b.color.b - a.color.b) * t)
  }

  // The first segment from the i-th on that holds the depth; the last colour if there is none.
  function Search(stops: seq<Stop>, depth: real, i: nat): Color
    requires i < |stops|
    decreases |stops| - i
  {
    if i == |stops| - 1 then stops[i].color
    else if stops[i].depth <= depth <= stops[i + 1].depth then Between(stops[i], stops[i + 1], depth)
    else Search(stops, depth, i + 1)
  }

  /** `sampleColorAtDepth`: the exact colour. */
  function ColorAt(stops: seq<Stop>, depth: real): Color
    requires stops != []
  {
    if depth <= stops[0].depth then stops[0].color
    else if depth >= stops[|stops| - 1].depth then stops[|stops| - 1].color
    else Search(stops, depth, 0)
  }

  method SampleColorAtDepth(stops: seq<Stop>, depth: real) returns (c: Color)
    requires stops != []
    ensures c == ColorAt(stops, depth)
  {
    hide Between;
    if depth <= stops[0].depth { return stops[0].color; }
    if depth >= stops[|stops| - 1].depth { return stops[|stops| - 1].color; }
    for i := 0 to |stops| - 1
      invariant Search(stops, depth, 0) == Search(stops, depth, i)
    {
      if stops[i].depth <= depth && depth <= stops[i + 1].depth { return Between(stops[i], stops[i + 1], depth); }
    }
    return stops[|stops| - 1].color;
  }

  // ------------------------------------------------- how steep a scale is

  function Slope(a: Stop, b: Stop, ch: Channel): (r: real)
    requires a.depth < b.depth
    ensures r >= 0.0
  {
    Abs(Value(b.color, ch) - Value(a.color, ch)) / (b.depth - a.depth)
  }

  // The steepest segment from the i-th on.
  function Steepest(stops: seq<Stop>, ch: Channel, i: nat): (r: real)
    requires Increasing(stops) && i < |stops|
    ensures r >= 0.0
    decreases |stops| - i
  {
    if i == |stops| - 1 then 0.0
    else Max(Slope(stops[i], stops[i + 1], ch), Steepest(stops, ch, i + 1))
  }

  lemma DefaultSlopes()
    ensures Increasing(DEFAULT_STOPS)
    ensures Slope(DEFAULT_STOPS[0], DEFAULT_STOPS[1], Red) == 0.0006
      && Slope(DEFAULT_STOPS[1], DEFAULT_STOPS[2], Red) == 0.0142
    ensures Slope(DEFAULT_STOPS[2], DEFAULT_STOPS[3], Red) == 0.0
      && Slope(DEFAULT_STOPS[3], DEFAULT_STOPS[4], Red) == 0.0006
    ensures Slope(DEFAULT_STOPS[0], DEFAULT_STOPS[1], Green) == 0.0024
      && Slope(DEFAULT_STOPS[1], DEFAULT_STOPS[2], Green) == 0.0032
    ensures Slope(DEFAULT_STOPS[2], DEFAULT_STOPS[3], Green) == 0.0052
      && Slope(DEFAULT_STOPS[3], DEFAULT_STOPS[4], Green) == 0.0058
    ensures Slope(DEFAULT_STOPS[0], DEFAULT_STOPS[1], Blue) == 0.008
      && Slope(DEFAULT_STOPS[1], DEFAULT_STOPS[2], Blue) == 0.0024
    ensures Slope(DEFAULT_STOPS[2], DEFAULT_STOPS[3], Blue) == 0.0016
      && Slope(DEFAULT_STOPS[3], DEFAULT_STOPS[4], Blue) == 0.0006
  {
  }

  /** The steepest slopes of the default scale, by channel. */
  lemma DefaultSteepest()
    ensures Increasing(DEFAULT_STOPS)
    ensures Steepest(DEFAULT_STOPS, Red, 0) == 0.0142 && Steepest(DEFAULT_STOPS, Green, 0) == 0.0058
    ensures Steepest(DEFAULT_STOPS, Blue, 0) == 0.008
  {
    hide Slope, Steepest, Increasing;
    DefaultSlopes();
    FourSegments(Red);
    FourSegments(Green);
    FourSegments(Blue);
  }

  lemma FourSegments(ch: Channel)
    ensures Increasing(DEFAULT_STOPS)
    ensures Steepest(DEFAULT_STOPS, ch, 0) ==
      Max(Slope(DEFAULT_STOPS[0], DEFAULT_STOPS[1], ch), Max(Slope(DEFAULT_STOPS[1], DEFAULT_STOPS[2], ch),
          Max(Slope(DEFAULT_STOPS[2], DEFAULT_STOPS[3], ch), Max(Slope(DEFAULT_STOPS[3], DEFAULT_STOPS[4], ch), 0.0))))
  {
    hide Slope, Max;
    assert Steepest(DEFAULT_STOPS, ch, 4) == 0.0;
    assert Steepest(DEFAULT_STOPS, ch, 3) == Max(Slope(DEFAULT_STOPS[3], DEFAULT_STOPS[4], ch), 0.0);
    assert Steepest(DEFAULT_STOPS, ch, 2) ==
      Max(Slope(DEFAULT_STOPS[2], DEFAULT_STOPS[3], ch), Steepest(DEFAULT_STOPS, ch, 3));
    assert Steepest(DEFAULT_STOPS, ch, 1) ==
      Max(Slope(DEFAULT_STOPS[1], DEFAULT_STOPS[2], ch), Steepest(DEFAULT_STOPS, ch, 2));
  }

  // A scale seen from its i-th stop on: flat before it.
  function From(stops: seq<Stop>, depth: real, i: nat): Color
    requires i < |stops|
    decreases |stops| - i
  {
    if i == |stops| - 1 || depth <= stops[i].depth then stops[i].color
    else if depth <= stops[i + 1].depth then Between(stops[i], stops[i + 1], depth)
    else From(stops, depth, i + 1)
  }

  lemma {:induction false} SearchIsFrom(stops: seq<Stop>, depth: real, i: nat)
    requires Increasing(stops) && i < |stops| && stops[i].depth < depth < stops[|stops| - 1].depth
    ensures Search(stops, depth, i) == From(stops, depth, i)
    decreases |stops| - i
  {
    hide Between;
    if i < |stops| - 1 && stops[i + 1].depth < depth { SearchIsFrom(stops, depth, i + 1); }
  }

  lemma {:induction false} PastTheEnd(stops: seq<Stop>, depth: real, i: nat)
    requires Increasing(stops) && i < |stops| && depth >= stops[|stops| - 1].depth
    ensures From(stops, depth, i) == stops[|stops| - 1].color
    decreases |stops| - i
  {
    if i < |stops| - 1 {
      if depth <= stops[i + 1].depth {
        assert i + 1 == |stops| - 1;
        AtItsEnd(stops[i], stops[i + 1]);
      } else {
        PastTheEnd(stops, depth, i + 1);
      }
    }
  }

  lemma AtItsEnd(a: Stop, b: Stop)
    requires a.depth < b.depth
    ensures Between(a, b, b.depth) == b.color && Between(a, b, a.depth) == a.color
  {
    assert (b.depth - a.depth) / (b.depth - a.depth) == 1.0;
    assert (a.depth - a.depth) / (b.depth - a.depth) == 0.0;
  }

  lemma ColorAtIsFrom(stops: seq<Stop>, depth: real)
    requires Increasing(stops) && stops != []
    ensures ColorAt(stops, depth) == From(stops, depth, 0)
  {
    if depth > stops[0].depth {
      if depth >= stops[|stops| - 1].depth { PastTheEnd(stops, depth, 0); } else { SearchIsFrom(stops, depth, 0); }
    }
  }

  // ------------------------------------------------- at the stops and between them

  lemma {:induction false} FromAtStop(stops: seq<Stop>, i: nat, j: nat)
    requires Increasing(stops) && i <= j < |stops|
    ensures From(stops, stops[j].depth, i) == stops[j].color
    decreases |stops| - i
  {
    hide Between;
    if i < j {
      AtItsEnd(stops[i], stops[i + 1]);
      if j > i + 1 { FromAtStop(stops, i + 1, j); }
    }
  }

  /** At a stop the colour is the stop's. */
  lemma ExactAtStops(stops: seq<Stop>, i: nat)
    requires Increasing(stops) && i < |stops|
    ensures ColorAt(stops, stops[i].depth) == stops[i].color
  {
    hide From, ColorAt;
    ColorAtIsFrom(stops, stops[i].depth);
    FromAtStop(stops, 0, i);
  }

  lemma ProductPositive(x: real, y: real)
    requires x >= 0.0 && y >= 0.0
    ensures x * y >= 0.0
  {
  }

  // A part t of the way from u to v.
  lemma PartOfTheWay(u: real, v: real, t: real, lo: real, hi: real)
    requires 0.0 <= t <= 1.0 && lo <= u <= hi && lo <= v <= hi
    ensures lo <= u + (v - u) * t <= hi
  {
    ProductPositive(v - lo, t);
    ProductPositive(u - lo, 1.0 - t);
    ProductPositive(hi - v, t);
    ProductPositive(hi - u, 1.0 - t);
    assert u + (v - u) * t - lo == (v - lo) * t + (u - lo) * (1.0 - t);
    assert hi - (u + (v - u) * t) == (hi - v) * t + (hi - u) * (1.0 - t);
  }

  lemma RatioInRange(a: Stop, b: Stop, depth: real)
    requires a.depth < b.depth && a.depth <= depth <= b.depth
    ensures 0.0 <= Ratio(a, b, depth) <= 1.0
  {
    Proportion(depth - a.depth, b.depth - a.depth);
  }

  lemma Proportion(x: real, y: real)
    requires 0.0 <= x <= y && y > 0.0
    ensures 0.0 <= x / y <= 1.0
  {
  }

  lemma {:induction false} FromWithin(stops: seq<Stop>, ch: Channel, lo: real, hi: real, depth: real, i: nat)
    requires Increasing(stops) && i < |stops|
    requires forall k: nat :: k < |stops| ==> lo <= Value(stops[k].color, ch) <= hi
    ensures lo <= Value(From(stops, depth, i), ch) <= hi
    decreases |stops| - i
  {
    hide Between, Value, Ratio;
    if i < |stops| - 1 && depth > stops[i].depth {
      var a, b := stops[i], stops[i + 1];
      if depth <= b.depth {
        BetweenValue(a, b, ch, depth);
        RatioInRange(a, b, depth);
        PartOfTheWay(Value(a.color, ch), Value(b.color, ch), Ratio(a, b, depth), lo, hi);
      } else {
        FromWithin(stops, ch, lo, hi, depth, i + 1);
      }
    }
  }

  /** A channel never leaves the range that it has at the stops. */
  lemma ColorAtWithin(stops: seq<Stop>, ch: Channel, lo: real, hi: real, depth: real)
    requires stops != [] && Increasing(stops)
    requires forall k: nat :: k < |stops| ==> lo <= Value(stops[k].color, ch) <= hi
    ensures lo <= Value(ColorAt(stops, depth), ch) <= hi
  {
    hide From, ColorAt, Value;
    ColorAtIsFrom(stops, depth);
    FromWithin(stops, ch, lo, hi, depth, 0);
  }

  // ------------------------------------------------- Lipschitz continuity

  // |v - u| <= l * gap
  predicate Near(u: real, v: real, l: real, gap: real) { Abs(v - u) <= l * gap }

  lemma NearTrans(u: real, v: real, w: real, l: real, g: real, h: real)
    requires Near(u, v, l, g) && Near(v, w, l, h)
    ensures Near(u, w, l, g + h)
  {
    assert l * (g + h) == l * g + l * h;
  }

  lemma NearWider(u: real, v: real, l: real, m: real, g: real, h: real)
    requires Near(u, v, l, g) && 0.0 <= l <= m && 0.0 <= g <= h
    ensures Near(u, v, m, h)
  {
    assert l * g <= m * g;
    assert m * g <= m * h;
  }

  lemma NearSame(u: real, l: real, g: real)
    requires 0.0 <= l && 0.0 <= g
    ensures Near(u, u, l, g)
  {
  }

  function Ratio(a: Stop, b: Stop, depth: real): real
    requires a.depth != b.depth
  {
    (depth - a.depth) / (b.depth - a.depth)
  }

  lemma BetweenValue(a: Stop, b: Stop, ch: Channel, depth: real)
    requires a.depth < b.depth
    ensures Value(Between(a, b, depth), ch) ==
      Value(a.color, ch) + (Value(b.color, ch) - Value(a.color, ch)) * Ratio(a, b, depth)
  {
  }

  lemma RatioGap(a: Stop, b: Stop, d: real, e: real)
    requires a.depth < b.depth
    ensures Ratio(a, b, e) - Ratio(a, b, d) == (e - d) / (b.depth - a.depth)
  {
  }

  lemma StraightLine(v: real, w: real, x: real, y: real, run: real, gap: real)
    requires run > 0.0 && gap >= 0.0 && y - x == gap / run
    ensures Abs((v + (w - v) * y) - (v + (w - v) * x)) == Abs(w - v) / run * gap
  {
    assert (v + (w - v) * y) - (v + (w - v) * x) == (w - v) * (gap / run);
    assert Abs((w - v) * (gap / run)) == Abs(w - v) * (gap / run);
    assert Abs(w - v) * (gap / run) == Abs(w - v) / run * gap;
  }

  lemma Straight(a: Stop, b: Stop, ch: Channel, d: real, e: real)
    requires a.depth < b.depth && d <= e
    ensures Near(Value(Between(a, b, d), ch), Value(Between(a, b, e), ch), Slope(a, b, ch), e - d)
  {
    hide Between, Value, Ratio;
    BetweenValue(a, b, ch, d);
    BetweenValue(a, b, ch, e);
    RatioGap(a, b, d, e);
    StraightLine(Value(a.color, ch), Value(b.color, ch), Ratio(a, b, d), Ratio(a, b, e), b.depth - a.depth, e - d);
  }

  // Within the i-th segment and before it.
  lemma SegmentNear(stops: seq<Stop>, ch: Channel, d: real, e: real, i: nat)
    requires Increasing(stops) && i + 1 < |stops| && d <= e <= stops[i + 1].depth
    ensures Near(Value(From(stops, d, i), ch), Value(From(stops, e, i), ch), Steepest(stops, ch, i), e - d)
  {
    hide Between, Value, Near, Slope;
    var a, b := stops[i], stops[i + 1];
    AtItsEnd(a, b);
    if e <= a.depth {
      NearSame(Value(a.color, ch), Steepest(stops, ch, i), e - d);
    } else {
      var start := Max(d, a.depth);
      Straight(a, b, ch, start, e);
      NearWider(Value(Between(a, b, start), ch), Value(Between(a, b, e), ch), Slope(a, b, ch), Steepest(stops, ch, i),
                e - start, e - d);
    }
  }

  /** The exact colour changes no faster than the steepest segment. */
  lemma {:induction false} Lipschitz(stops: seq<Stop>, ch: Channel, d: real, e: real, i: nat)
    requires Increasing(stops) && i < |stops| && d <= e
    ensures Near(Value(From(stops, d, i), ch), Value(From(stops, e, i), ch), Steepest(stops, ch, i), e - d)
    decreases |stops| - i
  {
    hide Between, Value, Near, Slope;
    if i == |stops| - 1 {
      NearSame(Value(stops[i].color, ch), 0.0, e - d);
    } else if e <= stops[i + 1].depth {
      SegmentNear(stops, ch, d, e, i);
    } else {
      var b := stops[i + 1];
      AtItsEnd(stops[i], b);
      var middle := Max(d, b.depth);
      Lipschitz(stops, ch, middle, e, i + 1);
      NearWider(Value(From(stops, middle, i + 1), ch), Value(From(stops, e, i + 1), ch), Steepest(stops, ch, i + 1),
                Steepest(stops, ch, i), e - middle, e - middle);
      if d <= b.depth {
        SegmentNear(stops, ch, d, b.depth, i);
        NearTrans(Value(From(stops, d, i), ch), Value(b.color, ch), Value(From(stops, e, i), ch),
                  Steepest(stops, ch, i), b.depth - d, e - b.depth);
      }
    }
  }
}
