/** All cracks merged into one line mesh: `MergedCrackLines`, and the colours of the tubes. */
module CrackLines {
  import opened Wrappers
  import opened Common
  import opened ColorScale
  import opened CrackGradient
  import opened Reals

  datatype LinePoint = LinePoint(x: real, y: real, z: real, depth: real, width: real)
  datatype Line = Line(id: int, points: seq<LinePoint>)

  // ------------------------------------------------- colours

  lemma DefaultsIncrease()
    ensures Increasing(DEFAULT_STOPS)
  {
  }

  /** Within the scale the plain search finds the exact colour, also at its two ends. */
  lemma {:induction false} SearchIsExact(stops: seq<Stop>, depth: real)
    requires stops != [] && Increasing(stops) && stops[0].depth <= depth <= stops[|stops| - 1].depth
    ensures Search(stops, depth, 0) == ColorAt(stops, depth)
  {
    hide Between;
    if depth == stops[|stops| - 1].depth {
      SearchAtEnd(stops, 0);
    } else if depth == stops[0].depth {
      FirstSegment(stops);
    }
  }

  lemma FirstSegment(stops: seq<Stop>)
    requires |stops| > 1 && Increasing(stops)
    ensures Search(stops, stops[0].depth, 0) == stops[0].color
  {
    hide Between;
    AtItsEnd(stops[0], stops[1]);
  }

  lemma {:induction false} SearchAtEnd(stops: seq<Stop>, i: nat)
    requires i < |stops| && Increasing(stops)
    ensures Search(stops, stops[|stops| - 1].depth, i) == stops[|stops| - 1].color
    decreases |stops| - i
  {
    hide Between;
    if i < |stops| - 1 {
      AtItsEnd(stops[i], stops[i + 1]);
      SearchAtEnd(stops, i + 1);
    }
  }

  function Clamp(depth: real): real { if depth < 0.0 then 0.0 else if depth > 200.0 then 200.0 else depth }

  /** The tube colour: equal to the exact colour at every depth, clamped or not. */
  method TubeColor(depth: real) returns (c: Color)
    ensures c == ColorAt(DEFAULT_STOPS, depth)
  {
    c := SearchColor(Clamp(depth));
    DefaultsIncrease();
    SearchIsExact(DEFAULT_STOPS, Clamp(depth));
  }

  method SearchColor(depth: real) returns (c: Color)
    ensures c == Search(DEFAULT_STOPS, depth, 0)
  {
    hide Between;
    for i := 0 to |DEFAULT_STOPS| - 1
      invariant Search(DEFAULT_STOPS, depth, 0) == Search(DEFAULT_STOPS, depth, i)
    {
      if DEFAULT_STOPS[i].depth <= depth && depth <= DEFAULT_STOPS[i + 1].depth {
        return Between(DEFAULT_STOPS[i], DEFAULT_STOPS[i + 1], depth);
      }
    }
    return DEFAULT_STOPS[|DEFAULT_STOPS| - 1].color;
  }

  lemma EntryInScale(i: nat)
    requires i < LUT_SIZE
    ensures 0.0 <= EntryDepth(200.0, i) <= 200.0
  {
  }

  /** `buildColorLUT`: the table that a default colour gradient builds. */
  method BuildColorLUT() returns (lut: array<real>)
    ensures fresh(lut) && Tabulates(lut[..], DEFAULT_STOPS, 200.0)
  {
    hide ColorAt, EntryDepth, Search;
    lut := new real[3 * LUT_SIZE];
    DefaultsIncrease();
    for i := 0 to LUT_SIZE
      invariant forall k: nat :: k < i ==> EntryIs(lut[..], k, ColorAt(DEFAULT_STOPS, EntryDepth(200.0, k)))
    {
      var c := SearchColor(EntryDepth(200.0, i));
      EntryInScale(i);
      SearchIsExact(DEFAULT_STOPS, EntryDepth(200.0, i));
      ghost var before := lut[..];
      lut[3 * i], lut[3 * i + 1], lut[3 * i + 2] := c.r, c.g, c.b;
      forall k: nat | k < i ensures EntryIs(lut[..], k, ColorAt(DEFAULT_STOPS, EntryDepth(200.0, k))) {
        assert EntryIs(before, k, ColorAt(DEFAULT_STOPS, EntryDepth(200.0, k)));
      }
    }
  }

  // What the table gives for a depth.
  function LineColor(depth: real): Color { ColorAt(DEFAULT_STOPS, EntryDepth(200.0, Index(200.0, depth))) }

  // ------------------------------------------------- the merged mesh

  ghost predicate Drawable(data: seq<Line>) { forall c: nat :: c < |data| ==> |data[c].points| >= 2 }

  function Vertices(data: seq<Line>): seq<LinePoint> {
    if data == [] then [] else Vertices(data[..|data| - 1]) + data[|data| - 1].points
  }

  // m segments that join vertex `first` and the following ones.
  function Segments(first: nat, m: nat): (r: seq<nat>)
    ensures |r| == 2 * m
  {
    if m == 0 then [] else Segments(first, m - 1) + [first + m - 1, first + m]
  }

  function Indices(data: seq<Line>): seq<nat>
    requires Drawable(data)
  {
    if data == [] then [] else
    var n := |data| - 1;
    Indices(data[..n]) + Segments(|Vertices(data[..n])|, |data[n].points| - 1)
  }

  // Where the vertices of the c-th crack begin, and its index positions.
  function FirstVertex(data: seq<Line>, c: nat): nat
    requires c <= |data|
  {
    if c == 0 then 0 else FirstVertex(data, c - 1) + |data[c - 1].points|
  }

  function FirstIndex(data: seq<Line>, c: nat): nat
    requires c <= |data| && Drawable(data)
  {
    if c == 0 then 0 else FirstIndex(data, c - 1) + 2 * (|data[c - 1].points| - 1)
  }

  lemma {:induction false} Sizes(data: seq<Line>)
    requires Drawable(data)
    ensures |Vertices(data)| == FirstVertex(data, |data|) && |Indices(data)| == FirstIndex(data, |data|)
  {
    if data != [] {
      var n := |data| - 1;
      Sizes(data[..n]);
      SameStart(data[..n], data, n);
    }
  }

  // A prefix has its vertices and indices at the same places.
  lemma {:induction false} SameStart(some: seq<Line>, data: seq<Line>, c: nat)
    requires some <= data && c <= |some| && Drawable(data) && Drawable(some)
    ensures FirstVertex(some, c) == FirstVertex(data, c) && FirstIndex(some, c) == FirstIndex(data, c)
    decreases c
  {
    if c > 0 { SameStart(some, data, c - 1); }
  }

  lemma {:induction false} Ordered(data: seq<Line>, c: nat, d: nat)
    requires c <= d <= |data| && Drawable(data)
    ensures FirstVertex(data, c) <= FirstVertex(data, d) && FirstIndex(data, c) <= FirstIndex(data, d)
    decreases d
  {
    if c < d { Ordered(data, c, d - 1); }
  }

  lemma {:induction false} SegmentAt(first: nat, m: nat, i: nat)
    requires i < m
    ensures Segments(first, m)[2 * i] == first + i && Segments(first, m)[2 * i + 1] == first + i + 1
    decreases m
  {
    if i < m - 1 { SegmentAt(first, m - 1, i); }
  }

  /** The i-th point of the c-th crack is where the mesh expects it. */
  lemma {:induction false} VertexAt(data: seq<Line>, c: nat, i: nat)
    requires Drawable(data) && c < |data| && i < |data[c].points|
    ensures FirstVertex(data, c) + i < |Vertices(data)| && Vertices(data)[FirstVertex(data, c) + i] == data[c].points[i]
  {
    var n := |data| - 1;
    Sizes(data[..n]);
    SameStart(data[..n], data, n);
    SameStart(data[..n], data, if c < n then c else n);
    if c < n { VertexAt(data[..n], c, i); }
  }

  lemma LastIndices(data: seq<Line>)
    requires Drawable(data) && data != []
    ensures var n := |data| - 1;
      Indices(data) == Indices(data[..n]) + Segments(|Vertices(data[..n])|, |data[n].points| - 1)
  {
    hide Segments, Vertices;
  }

  /** The i-th segment of the c-th crack joins its i-th and next vertices. */
  lemma {:induction false} IndexAt(data: seq<Line>, c: nat, i: nat)
    requires Drawable(data) && c < |data| && i + 1 < |data[c].points|
    ensures var k := FirstIndex(data, c) + 2 * i;
      k + 1 < |Indices(data)| && Indices(data)[k] == FirstVertex(data, c) + i
        && Indices(data)[k + 1] == FirstVertex(data, c) + i + 1
  {
    var n := |data| - 1;
    hide Indices, Vertices, Segments;
    LastIndices(data);
    Sizes(data[..n]);
    SameStart(data[..n], data, n);
    if c < n {
      SameStart(data[..n], data, c);
      IndexAt(data[..n], c, i);
    } else {
      SegmentAt(|Vertices(data[..n])|, |data[n].points| - 1, i);
    }
  }

  // The crack whose index positions include k.
  ghost predicate Covers(data: seq<Line>, c: nat, k: nat)
    requires Drawable(data)
  {
    c < |data| && FirstIndex(data, c) <= k < FirstIndex(data, c + 1)
  }

  // The crack whose vertices include v.
  ghost predicate Owns(data: seq<Line>, c: nat, v: nat) {
    c < |data| && FirstVertex(data, c) <= v < FirstVertex(data, c + 1)
  }

  lemma {:induction false} SomeCovers(data: seq<Line>, n: nat, k: nat) returns (c: nat)
    requires Drawable(data) && n <= |data| && k < FirstIndex(data, n)
    ensures Covers(data, c, k)
    decreases n
  {
    if k < FirstIndex(data, n - 1) { c := SomeCovers(data, n - 1, k); } else { c := n - 1; }
  }

  lemma CoverOwns(data: seq<Line>, c: nat, k: nat)
    requires Drawable(data) && Covers(data, c, k)
    ensures k < |Indices(data)| && Owns(data, c, Indices(data)[k])
  {
    hide Indices;
    IndexAt(data, c, (k - FirstIndex(data, c)) / 2);
  }

  /** Every index names a vertex of the crack its position belongs to, so all are in range and the
      two ends of every segment are consecutive vertices of one crack. */
  lemma NoSegmentJoinsTwoCracks(data: seq<Line>, s: nat)
    requires Drawable(data) && 2 * s + 1 < |Indices(data)|
    ensures Indices(data)[2 * s + 1] == Indices(data)[2 * s] + 1 < |Vertices(data)|
    ensures exists c: nat :: Owns(data, c, Indices(data)[2 * s]) && Owns(data, c, Indices(data)[2 * s + 1])
  {
    hide Indices, Vertices;
    Sizes(data);
    var c := SomeCovers(data, |data|, 2 * s);
    IndexOfVertex(data, c);
    IndexAt(data, c, (2 * s - FirstIndex(data, c)) / 2);
    Ordered(data, c + 1, |data|);
    assert Owns(data, c, Indices(data)[2 * s]) && Owns(data, c, Indices(data)[2 * s + 1]);
  }

  // Every crack has one vertex more than segments.
  lemma {:induction false} IndexOfVertex(data: seq<Line>, c: nat)
    requires c <= |data| && Drawable(data)
    ensures FirstIndex(data, c) == 2 * (FirstVertex(data, c) - c)
    decreases c
  {
    if c > 0 { IndexOfVertex(data, c - 1); }
  }

  // The three numbers at v are those of a point.
  predicate TripleIs(a: seq<real>, v: nat, x: real, y: real, z: real)
    requires 3 * v + 3 <= |a|
  {
    a[3 * v] == x && a[3 * v + 1] == y && a[3 * v + 2] == z
  }

  // The buffers, of the right size, hold the first n vertices, each with the colour of its depth.
  ghost predicate Holds(vertices: seq<LinePoint>, n: nat, positions: seq<real>, colors: seq<real>) {
    && |positions| == |colors| == 3 * |vertices| && n <= |vertices|
    && forall v: nat :: v < n ==> VertexStands(vertices[v], v, positions, colors)
  }

  ghost predicate HoldsIndices(all: seq<nat>, n: nat, indices: seq<nat>) {
    |indices| == |all| && n <= |all| && indices[..n] == all[..n]
  }

  lemma HoldsNext(vertices: seq<LinePoint>, n: nat, positions: seq<real>, colors: seq<real>, positions': seq<real>,
                  colors': seq<real>)
    requires Holds(vertices, n, positions, colors) && n < |vertices|
    requires |positions'| == |positions| && |colors'| == |colors|
    requires positions'[..3 * n] == positions[..3 * n] && colors'[..3 * n] == colors[..3 * n]
    requires VertexStands(vertices[n], n, positions', colors')
    ensures Holds(vertices, n + 1, positions', colors')
  {
    hide LineColor;
    forall v: nat | v < n ensures VertexStands(vertices[v], v, positions', colors') {
      SameTriple(positions, positions', n, v);
      SameTriple(colors, colors', n, v);
    }
  }

  lemma SameTriple(a: seq<real>, b: seq<real>, n: nat, v: nat)
    requires v < n && 3 * n <= |a| == |b| && a[..3 * n] == b[..3 * n]
    ensures a[3 * v] == b[3 * v] && a[3 * v + 1] == b[3 * v + 1] && a[3 * v + 2] == b[3 * v + 2]
  {
    assert a[..3 * n][3 * v] == b[..3 * n][3 * v];
    assert a[..3 * n][3 * v + 1] == b[..3 * n][3 * v + 1];
    assert a[..3 * n][3 * v + 2] == b[..3 * n][3 * v + 2];
  }

  lemma HoldsIndicesNext(all: seq<nat>, n: nat, indices: seq<nat>, indices': seq<nat>)
    requires HoldsIndices(all, n, indices) && n + 2 <= |all| && |indices'| == |indices|
    requires indices'[..n] == indices[..n] && indices'[n] == all[n] && indices'[n + 1] == all[n + 1]
    ensures HoldsIndices(all, n + 2, indices')
  {
    assert indices'[..n + 2] == indices'[..n] + [indices'[n], indices'[n + 1]];
    assert all[..n + 2] == all[..n] + [all[n], all[n + 1]];
  }

  ghost predicate VertexStands(p: LinePoint, v: nat, positions: seq<real>, colors: seq<real>)
    requires 3 * v + 3 <= |positions| == |colors|
  {
    && TripleIs(positions, v, p.x, p.y, p.z)
    && TripleIs(colors, v, LineColor(p.depth).r, LineColor(p.depth).g, LineColor(p.depth).b)
  }

  // The line's points are these in the scene: a tenth of their coordinates, 15 up, with their depth and width.
  ghost predicate Draws(line: Line, points: seq<Point3D>) {
    && |line.points| == |points|
    && forall i: nat :: i < |points| ==>
         && line.points[i].x == 0.1 * points[i].x && line.points[i].y == 0.1 * points[i].y + 15.0
         && line.points[i].z == 0.1 * points[i].z
         && line.points[i].depth == points[i].depth && line.points[i].width == points[i].width
  }

  ghost predicate DrawsAll(data: seq<Line>, added: seq<seq<Point3D>>) {
    |data| == |added| && forall c: nat :: c < |data| ==> Draws(data[c], added[c])
  }

  // How many points the first c cracks have.
  function PointsBefore(added: seq<seq<Point3D>>, c: nat): nat
    requires c <= |added|
  {
    if c == 0 then 0 else PointsBefore(added, c - 1) + |added[c - 1]|
  }

  // No channel is further from a colour than the table's error.
  ghost predicate NearColor(c: Color, exact: Color) {
    Increasing(DEFAULT_STOPS) && forall ch ::
      Abs(Value(c, ch) - Value(exact, ch)) <= Steepest(DEFAULT_STOPS, ch, 0) * 200.0 / 510.0
  }

  // Vertex v shows point p: where it is in the scene, in the colour of its depth.
  ghost predicate PointShown(p: Point3D, v: nat, positions: seq<real>, colors: seq<real>) {
    && 3 * v + 3 <= |positions| == |colors|
    && TripleIs(positions, v, 0.1 * p.x, 0.1 * p.y + 15.0, 0.1 * p.z)
    && (0.0 <= p.depth <= 200.0 ==>
          NearColor(Color(colors[3 * v], colors[3 * v + 1], colors[3 * v + 2]), ColorAt(DEFAULT_STOPS, p.depth)))
  }

  // Each point added is shown, at the vertex that its place among all points says, and nothing else.
  ghost predicate AllShown(added: seq<seq<Point3D>>, positions: seq<real>, colors: seq<real>) {
    && |positions| == |colors| == 3 * PointsBefore(added, |added|)
    && forall c: nat, i: nat {:trigger added[c][i]} :: c < |added| && i < |added[c]| ==>
         PointShown(added[c][i], PointsBefore(added, c) + i, positions, colors)
  }

  lemma {:induction false} SamePlaces(data: seq<Line>, added: seq<seq<Point3D>>, c: nat)
    requires DrawsAll(data, added) && c <= |data|
    ensures FirstVertex(data, c) == PointsBefore(added, c)
  {
    hide Draws;
    if c > 0 {
      SamePlaces(data, added, c - 1);
      assert Draws(data[c - 1], added[c - 1]);
      SameSize(data[c - 1], added[c - 1]);
    }
  }

  lemma SameSize(line: Line, points: seq<Point3D>)
    requires Draws(line, points)
    ensures |line.points| == |points|
  {
  }

  lemma LineColorNear(depth: real)
    requires 0.0 <= depth <= 200.0
    ensures NearColor(LineColor(depth), ColorAt(DEFAULT_STOPS, depth))
  {
    hide Index, EntryDepth, ColorAt, Value, Steepest, Abs, Increasing;
    DefaultsIncrease();
    forall ch
      ensures Abs(Value(LineColor(depth), ch) - Value(ColorAt(DEFAULT_STOPS, depth), ch)) <=
        Steepest(DEFAULT_STOPS, ch, 0) * 200.0 / 510.0
    {
      TableIsClose(DEFAULT_STOPS, 200.0, depth, ch);
    }
  }

  lemma VertexShows(line: Line, points: seq<Point3D>, i: nat, v: nat, positions: seq<real>, colors: seq<real>)
    requires Draws(line, points) && i < |points| && 3 * v + 3 <= |positions| == |colors|
    requires VertexStands(line.points[i], v, positions, colors)
    ensures PointShown(points[i], v, positions, colors)
  {
    hide LineColor, ColorAt, NearColor;
    var p := points[i];
    if 0.0 <= p.depth <= 200.0 {
      LineColorNear(p.depth);
      assert Color(colors[3 * v], colors[3 * v + 1], colors[3 * v + 2]) == LineColor(p.depth);
    }
  }

  /** A mesh that holds the vertices of its lines shows every point that was added. */
  lemma MeshShowsPoints(data: seq<Line>, added: seq<seq<Point3D>>, positions: seq<real>, colors: seq<real>)
    requires Drawable(data) && DrawsAll(data, added)
    requires Holds(Vertices(data), |Vertices(data)|, positions, colors)
    ensures AllShown(added, positions, colors)
  {
    hide Vertices, VertexStands, PointShown, Draws, TripleIs;
    Sizes(data);
    SamePlaces(data, added, |data|);
    forall c: nat, i: nat | c < |added| && i < |added[c]|
      ensures PointShown(added[c][i], PointsBefore(added, c) + i, positions, colors)
    {
      assert Draws(data[c], added[c]);
      SameSize(data[c], added[c]);
      SamePlaces(data, added, c);
      VertexAt(data, c, i);
      VertexShows(data[c], added[c], i, PointsBefore(added, c) + i, positions, colors);
    }
  }

  class MergedCrackLines {
    var crackData: seq<Line>
    var dirty: bool
    var colorLUT: array<real>
    // lineSegments, with its geometry's buffers
    var built: bool
    var positions: array<real>
    var colors: array<real>
    var indices: array<nat>
    // the cracks in the mesh
    ghost var builtData: seq<Line>
    // the points of every crack that was kept, as they were added
    ghost var added: seq<seq<Point3D>>

    ghost predicate Valid()
      reads this, colorLUT, positions, colors, indices
    {
      && Drawable(crackData) && DrawsAll(crackData, added) && Tabulates(colorLUT[..], DEFAULT_STOPS, 200.0)
      && (built ==>
            && builtData <= crackData && indices[..] == Indices(builtData)
            && Holds(Vertices(builtData), |Vertices(builtData)|, positions[..], colors[..]))
    }

    constructor ()
      ensures Valid() && crackData == [] && added == [] && !built && fresh(colorLUT)
    {
      crackData, dirty, built, builtData, added := [], false, false, [], [];
      positions, colors, indices := new real[0], new real[0], new nat[0];
      colorLUT := new real[0];
      new;
      colorLUT := BuildColorLUT();
    }

    method Clear()
      requires Valid()
      modifies this
      ensures Valid() && crackData == [] && added == [] && !built && !dirty && colorLUT == old(colorLUT)
    {
      crackData, dirty, built, builtData, added := [], false, false, [], [];
    }

    /** A crack of fewer than two points is ignored. The mesh, if there is one, stays as it was. */
    method AddCrack(id: int, points: seq<Point3D>)
      requires Valid()
      modifies this`crackData, this`dirty, this`added
      ensures Valid()
      ensures |points| < 2 ==> crackData == old(crackData) && dirty == old(dirty) && added == old(added)
      ensures |points| >= 2 ==> dirty && added == old(added) + [points]
      ensures |points| >= 2 ==> |crackData| == |old(crackData)| + 1 && old(crackData) <= crackData
      ensures |points| >= 2 ==>
        crackData[|old(crackData)|].id == id && Draws(crackData[|old(crackData)|], points)
    {
      hide Tabulates, Indices, Vertices, Drawable, Holds;
      if |points| < 2 { return; }
      var scaled := [];
      for i := 0 to |points|
        invariant |scaled| == i && Draws(Line(id, scaled), points[..i])
      {
        var p := points[i];
        scaled := scaled + [LinePoint(p.x * 0.1, p.y * 0.1 + 15.0, p.z * 0.1, p.depth, p.width)];
      }
      assert points[..|points|] == points;
      AddedDrawable(builtData, crackData, Line(id, scaled));
      crackData, added := crackData + [Line(id, scaled)], added + [points];
      dirty := true;
    }

    method SampleColor(depth: real) returns (c: Color)
      requires Tabulates(colorLUT[..], DEFAULT_STOPS, 200.0)
      ensures c == LineColor(depth)
    {
      hide ColorAt, EntryDepth;
      var idx := Index(200.0, depth);
      assert EntryIs(colorLUT[..], idx, ColorAt(DEFAULT_STOPS, EntryDepth(200.0, idx)));
      c := Color(colorLUT[idx * 3], colorLUT[idx * 3 + 1], colorLUT[idx * 3 + 2]);
    }

    /** `build`: the buffers are filled exactly to their ends with the vertices and segments of all
        cracks; without any crack nothing happens. */
    method Build()
      requires Valid()
      modifies this
      ensures Valid() && crackData == old(crackData) && added == old(added) && colorLUT == old(colorLUT)
      ensures if crackData == [] then built == old(built) && dirty == old(dirty) && builtData == old(builtData)
              else built && !dirty && builtData == crackData && AllShown(added, positions[..], colors[..])
    {
      hide Tabulates, Holds, HoldsIndices, Vertices, Indices, DrawsAll, AllShown;
      if crackData == [] { return; }
      var totalVerts, totalSegs := Count(crackData);
      var newPositions, newColors := new real[totalVerts * 3], new real[totalVerts * 3];
      var newIndices := new nat[totalSegs * 2];
      Sizes(crackData);
      NothingHeld(crackData, newPositions[..], newColors[..], newIndices[..]);
      Fill(crackData, newPositions, newColors, newIndices);
      AllHeld(Indices(crackData), newIndices[..]);
      MeshShowsPoints(crackData, added, newPositions[..], newColors[..]);
      positions, colors, indices := newPositions, newColors, newIndices;
      built, dirty, builtData := true, false, crackData;
    }

    // How many vertices and segments the cracks have.
    static method Count(data: seq<Line>) returns (totalVerts: nat, totalSegs: nat)
      requires Drawable(data)
      ensures totalVerts == |Vertices(data)| && 2 * totalSegs == |Indices(data)|
    {
      hide Vertices, Indices;
      totalVerts, totalSegs := 0, 0;
      for c := 0 to |data|
        invariant totalVerts == FirstVertex(data, c) && 2 * totalSegs == FirstIndex(data, c)
      {
        totalVerts := totalVerts + |data[c].points|;
        totalSegs := totalSegs + (|data[c].points| - 1);
      }
      Sizes(data);
    }

    // All vertices and all segments.
    method Fill(data: seq<Line>, positions: array<real>, colors: array<real>, indices: array<nat>)
      requires Tabulates(colorLUT[..], DEFAULT_STOPS, 200.0) && colorLUT != positions && colorLUT != colors
        && positions != colors
      requires Drawable(data) && Holds(Vertices(data), 0, positions[..], colors[..])
      requires HoldsIndices(Indices(data), 0, indices[..])
      modifies positions, colors, indices
      ensures Holds(Vertices(data), |Vertices(data)|, positions[..], colors[..])
      ensures HoldsIndices(Indices(data), |Indices(data)|, indices[..])
    {
      hide Tabulates, Holds, HoldsIndices, Vertices, Indices, FirstVertex, FirstIndex;
      Sizes(data);
      NothingBefore(data);
      var vertOff, idxOff, indexOffset := 0, 0, 0;
      for c := 0 to |data|
        invariant indexOffset == FirstVertex(data, c) && vertOff == 3 * indexOffset
          && idxOff == FirstIndex(data, c)
        invariant Holds(Vertices(data), indexOffset, positions[..], colors[..])
        invariant HoldsIndices(Indices(data), idxOff, indices[..])
      {
        vertOff := FillVertices(data, c, vertOff, positions, colors);
        idxOff := FillIndices(data, c, idxOff, indexOffset, indices);
        indexOffset := indexOffset + |data[c].points|;
        NextStarts(data, c);
      }
    }

    // The vertices of one crack.
    method FillVertices(data: seq<Line>, c: nat, from: nat, positions: array<real>, colors: array<real>)
      returns (to: nat)
      requires Tabulates(colorLUT[..], DEFAULT_STOPS, 200.0) && colorLUT != positions && colorLUT != colors
        && positions != colors
      requires Drawable(data) && c < |data| && from == 3 * FirstVertex(data, c)
      requires Holds(Vertices(data), FirstVertex(data, c), positions[..], colors[..])
      modifies positions, colors
      ensures to == 3 * FirstVertex(data, c + 1)
      ensures Holds(Vertices(data), FirstVertex(data, c + 1), positions[..], colors[..])
    {
      hide Tabulates, Vertices, LineColor, Holds;
      ghost var first := FirstVertex(data, c);
      to := from;
      for i := 0 to |data[c].points|
        invariant to == 3 * (first + i)
        invariant Holds(Vertices(data), first + i, positions[..], colors[..])
      {
        var p := data[c].points[i];
        VertexAt(data, c, i);
        Lengths(Vertices(data), first + i, positions[..], colors[..]);
        ghost var oldPositions, oldColors := positions[..], colors[..];
        var col := SampleColor(p.depth);
        positions[to], positions[to + 1], positions[to + 2] := p.x, p.y, p.z;
        colors[to], colors[to + 1], colors[to + 2] := col.r, col.g, col.b;
        HoldsNext(Vertices(data), first + i, oldPositions, oldColors, positions[..], colors[..]);
        to := to + 3;
      }
    }

    // The segments of one crack.
    method FillIndices(data: seq<Line>, c: nat, from: nat, indexOffset: nat, indices: array<nat>) returns (to: nat)
      requires Drawable(data) && c < |data| && from == FirstIndex(data, c) && indexOffset == FirstVertex(data, c)
      requires HoldsIndices(Indices(data), from, indices[..])
      modifies indices
      ensures to == FirstIndex(data, c + 1)
      ensures HoldsIndices(Indices(data), to, indices[..])
    {
      hide Indices, FirstVertex;
      to := from;
      for i := 0 to |data[c].points| - 1
        invariant to == from + 2 * i
        invariant HoldsIndices(Indices(data), to, indices[..])
      {
        IndexAt(data, c, i);
        ghost var before := indices[..];
        indices[to] := indexOffset + i;
        indices[to + 1] := indexOffset + i + 1;
        HoldsIndicesNext(Indices(data), to, before, indices[..]);
        to := to + 2;
      }
    }

    /** `pickAt`, given the index position that the raycaster hit: the crack to which that index of
        the mesh belongs, also when cracks were added since it was built. */
    method PickAt(hit: Option<nat>) returns (r: Option<nat>)
      requires Valid()
      ensures !built || hit.None? ==> r.None?
      ensures built && hit.Some? && hit.value < indices.Length ==>
        r.Some? && Owns(builtData, r.value, indices[hit.value])
    {
      hide Indices, Vertices, Tabulates, FirstVertex;
      if !built || hit.None? { return None; }
      var k := hit.value;
      var accumulated := 0;
      for i := 0 to |crackData|
        invariant accumulated == FirstIndex(crackData, i) <= k
      {
        var segCount := (|crackData[i].points| - 1) * 2;
        if k < accumulated + segCount {
          PickedOwns(builtData, crackData, i, k);
          return Some(i);
        }
        accumulated := accumulated + segCount;
      }
      NothingLeft(builtData, crackData, k);
      return None;
    }
  }

  lemma NothingHeld(data: seq<Line>, positions: seq<real>, colors: seq<real>, indices: seq<nat>)
    requires Drawable(data) && |positions| == |colors| == 3 * |Vertices(data)| && |indices| == |Indices(data)|
    ensures Holds(Vertices(data), 0, positions, colors) && HoldsIndices(Indices(data), 0, indices)
  {
  }

  lemma NothingBefore(data: seq<Line>)
    requires Drawable(data)
    ensures FirstVertex(data, 0) == 0 && FirstIndex(data, 0) == 0
  {
  }

  lemma NextStarts(data: seq<Line>, c: nat)
    requires c < |data|
    ensures FirstVertex(data, c + 1) == FirstVertex(data, c) + |data[c].points|
  {
  }

  lemma AllHeld(all: seq<nat>, indices: seq<nat>)
    requires HoldsIndices(all, |all|, indices)
    ensures indices == all
  {
    assert all[..|all|] == all && indices[..|all|] == indices;
  }

  lemma Lengths(vertices: seq<LinePoint>, n: nat, positions: seq<real>, colors: seq<real>)
    requires Holds(vertices, n, positions, colors)
    ensures |positions| == |colors| == 3 * |vertices|
  {
  }

  lemma PickedOwns(some: seq<Line>, data: seq<Line>, c: nat, k: nat)
    requires Drawable(data) && some <= data && Covers(data, c, k)
    ensures Drawable(some)
    ensures k < |Indices(some)| ==> Owns(some, c, Indices(some)[k])
  {
    hide Indices, Owns, FirstVertex;
    assert Drawable(some) by { DrawablePrefix(some, data); }
    Sizes(some);
    if k < |Indices(some)| {
      SameStart(some, data, |some|);
      if c >= |some| { Ordered(data, |some|, c); }
      SameStart(some, data, c);
      SameStart(some, data, c + 1);
      CoverOwns(some, c, k);
    }
  }

  lemma AddedDrawable(some: seq<Line>, data: seq<Line>, line: Line)
    requires Drawable(data) && |line.points| >= 2
    ensures Drawable(data + [line])
    ensures some <= data ==> some <= data + [line]
  {
  }

  lemma DrawablePrefix(some: seq<Line>, data: seq<Line>)
    requires Drawable(data) && some <= data
    ensures Drawable(some)
  {
    forall c: nat | c < |some| ensures |some[c].points| >= 2 { assert some[c] == data[c]; }
  }

  lemma NothingLeft(some: seq<Line>, data: seq<Line>, k: nat)
    requires Drawable(data) && some <= data && FirstIndex(data, |data|) <= k
    ensures Drawable(some) && |Indices(some)| <= k
  {
    DrawablePrefix(some, data);
    Sizes(some);
    SameStart(some, data, |some|);
    Ordered(data, |some|, |data|);
  }
}
