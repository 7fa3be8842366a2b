/** The colour tables of the viewer: 256 entries computed from a colour scale. */
module CrackGradient {
  import opened Wrappers
  import opened ColorScale
  import opened Reals

  const LUT_SIZE: nat := 256

  // Math.round
  function Round(x: real): int { (x + 0.5).Floor }

  // What a Uint8Array keeps.
  function ToByte(x: int): int { x % 256 }

  function EntryDepth(maxDepth: real, i: int): real { i as real / 255.0 * maxDepth }

  // The entry that is looked up for a depth.
  function Index(maxDepth: real, depth: real): (i: nat)
    requires maxDepth != 0.0
    ensures i < LUT_SIZE
  {
    var i := Round(depth / maxDepth * 255.0);
    if i < 0 then 0 else if i > 255 then 255 else i
  }

  // Divided by a maximum depth of zero, a depth is infinite, or not a number if it is zero itself.
  function Lookup(maxDepth: real, depth: real): (i: Option<nat>)
    ensures i.Some? ==> i.value < LUT_SIZE
  {
    if maxDepth != 0.0 then Some(Index(maxDepth, depth))
    else if depth > 0.0 then Some(LUT_SIZE - 1)
    else if depth < 0.0 then Some(0)
    else None
  }

  ghost predicate Tabulates(lut: seq<real>, stops: seq<Stop>, maxDepth: real)
    requires stops != []
  {
    && |lut| == 3 * LUT_SIZE
    && forall i: nat :: i < LUT_SIZE ==> EntryIs(lut, i, ColorAt(stops, EntryDepth(maxDepth, i)))
  }

  predicate EntryIs(lut: seq<real>, i: nat, c: Color)
    requires 3 * i + 3 <= |lut|
  {
    Color(lut[3 * i], lut[3 * i + 1], lut[3 * i + 2]) == c
  }

  // Halves are rounded up.
  lemma RoundNear(x: real)
    ensures x - 0.5 < Round(x) as real <= x + 0.5
  {
  }

  /** A byte of the table is the rounded number but for a multiple of 256; a channel between zero and one
      fits, and is kept to the nearest 255th. */
  lemma ByteOf(x: real)
    ensures var b := ToByte(Round(x * 255.0));
      && 0 <= b < 256 && (b - Round(x * 255.0)) % 256 == 0
      && (0.0 <= x <= 1.0 ==> Abs(b as real - 255.0 * x) <= 0.5)
  {
    RoundNear(x * 255.0);
  }

  // Every byte is the nearest to 255 times the exact channel at its entry's depth.
  ghost predicate BytesClose(bytes: seq<int>, stops: seq<Stop>, maxDepth: real)
    requires stops != []
  {
    && |bytes| == 3 * LUT_SIZE
    && forall i: nat {:trigger EntryDepth(maxDepth, i)} :: i < LUT_SIZE ==>
         var c := ColorAt(stops, EntryDepth(maxDepth, i));
         && ByteClose(bytes[3 * i], c.r) && ByteClose(bytes[3 * i + 1], c.g) && ByteClose(bytes[3 * i + 2], c.b)
  }

  predicate ByteClose(b: int, x: real) { 0 <= b < 256 && Abs(b as real - 255.0 * x) <= 0.5 }

  // All channels of a scale are between zero and one.
  ghost predicate UnitStops(stops: seq<Stop>) {
    forall k: nat, ch {:trigger Value(stops[k].color, ch)} :: k < |stops| ==> 0.0 <= Value(stops[k].color, ch) <= 1.0
  }

  /** So for a scale with channels between zero and one the byte table is the exact colours, rounded. */
  lemma BytesAreColors(lut: seq<real>, bytes: seq<int>, stops: seq<Stop>, maxDepth: real)
    requires stops != [] && Increasing(stops) && UnitStops(stops)
    requires Tabulates(lut, stops, maxDepth) && |bytes| == |lut|
    requires forall k: nat :: k < |lut| ==> bytes[k] == ToByte(Round(lut[k] * 255.0))
    ensures BytesClose(bytes, stops, maxDepth)
  {
    hide ColorAt, EntryDepth, ToByte, Round, Abs, Increasing;
    forall i: nat | i < LUT_SIZE
      ensures var c := ColorAt(stops, EntryDepth(maxDepth, i));
        ByteClose(bytes[3 * i], c.r) && ByteClose(bytes[3 * i + 1], c.g) && ByteClose(bytes[3 * i + 2], c.b)
    {
      assert EntryIs(lut, i, ColorAt(stops, EntryDepth(maxDepth, i)));
      ColorAtWithin(stops, Red, 0.0, 1.0, EntryDepth(maxDepth, i));
      ColorAtWithin(stops, Green, 0.0, 1.0, EntryDepth(maxDepth, i));
      ColorAtWithin(stops, Blue, 0.0, 1.0, EntryDepth(maxDepth, i));
      ByteOf(lut[3 * i]);
      ByteOf(lut[3 * i + 1]);
      ByteOf(lut[3 * i + 2]);
    }
  }

  /** Outside the table's range the first or the last entry is looked up. */
  lemma IndexClamps(maxDepth: real, depth: real)
    requires maxDepth > 0.0
    ensures depth <= 0.0 ==> Index(maxDepth, depth) == 0
    ensures depth >= maxDepth ==> Index(maxDepth, depth) == LUT_SIZE - 1
  {
    var t := depth / maxDepth;
    assert t * maxDepth == depth;
    if t > 0.0 { assert t * maxDepth > 0.0; }
    if t < 1.0 { assert (1.0 - t) * maxDepth > 0.0; }
  }

  // The depth of the entry looked up is within half an entry of the depth asked for.
  lemma IndexNear(maxDepth: real, depth: real)
    requires maxDepth > 0.0 && 0.0 <= depth <= maxDepth
    ensures Abs(EntryDepth(maxDepth, Index(maxDepth, depth)) - depth) <= maxDepth / 510.0
  {
    var x := depth / maxDepth * 255.0;
    PositionInRange(maxDepth, depth);
    RoundNear(x);
    var i := Index(maxDepth, depth);
    assert i as real - 0.5 <= x <= i as real + 0.5;
    HalfEntry(maxDepth, depth, i as real, x);
  }

  lemma PositionInRange(maxDepth: real, depth: real)
    requires maxDepth > 0.0 && 0.0 <= depth <= maxDepth
    ensures 0.0 <= depth / maxDepth * 255.0 <= 255.0 && depth / maxDepth * maxDepth == depth
  {
    assert 0.0 <= depth / maxDepth <= 1.0;
  }

  lemma HalfEntry(maxDepth: real, depth: real, i: real, x: real)
    requires maxDepth > 0.0 && x == depth / maxDepth * 255.0 && i - 0.5 <= x <= i + 0.5
    ensures Abs(i / 255.0 * maxDepth - depth) <= maxDepth / 510.0
  {
    var t := depth / maxDepth;
    assert t * maxDepth == depth;
    var gap := i / 255.0 - t;
    assert -1.0 / 510.0 <= gap <= 1.0 / 510.0;
    assert i / 255.0 * maxDepth - depth == gap * maxDepth;
    assert -1.0 / 510.0 * maxDepth <= gap * maxDepth <= 1.0 / 510.0 * maxDepth;
  }

  // c is the exact colour but for half an entry's depth times the steepest slope.
  ghost predicate Close(stops: seq<Stop>, maxDepth: real, depth: real, c: Color, ch: Channel)
    requires stops != [] && Increasing(stops)
  {
    Abs(Value(c, ch) - Value(ColorAt(stops, depth), ch)) <= Steepest(stops, ch, 0) * maxDepth / 510.0
  }

  /** The table is a cache with a bounded error: every channel of the entry looked up is within half
      an entry's depth times the steepest slope of the exact colour. */
  lemma TableIsClose(stops: seq<Stop>, maxDepth: real, depth: real, ch: Channel)
    requires stops != [] && Increasing(stops) && maxDepth > 0.0 && 0.0 <= depth <= maxDepth
    ensures Close(stops, maxDepth, depth, ColorAt(stops, EntryDepth(maxDepth, Index(maxDepth, depth))), ch)
  {
    hide Index, EntryDepth, ColorAt, Value, From, Steepest, Abs;
    var e := EntryDepth(maxDepth, Index(maxDepth, depth));
    IndexNear(maxDepth, depth);
    ColorAtIsFrom(stops, e);
    ColorAtIsFrom(stops, depth);
    LipschitzEitherWay(stops, ch, e, depth);
    WithinHalfEntry(Value(From(stops, e, 0), ch), Value(From(stops, depth, 0), ch), Steepest(stops, ch, 0),
                    Abs(e - depth), maxDepth);
  }

  lemma LipschitzEitherWay(stops: seq<Stop>, ch: Channel, d: real, e: real)
    requires stops != [] && Increasing(stops)
    ensures Abs(Value(From(stops, d, 0), ch) - Value(From(stops, e, 0), ch)) <= Steepest(stops, ch, 0) * Abs(d - e)
    ensures Steepest(stops, ch, 0) >= 0.0
  {
    hide From, Value, Steepest;
    if d <= e { Lipschitz(stops, ch, d, e, 0); } else { Lipschitz(stops, ch, e, d, 0); }
  }

  lemma WithinHalfEntry(u: real, v: real, l: real, gap: real, maxDepth: real)
    requires l >= 0.0 && gap <= maxDepth / 510.0 && Abs(u - v) <= l * gap
    ensures Abs(u - v) <= l * maxDepth / 510.0
  {
    assert l * gap <= l * (maxDepth / 510.0);
    assert l * (maxDepth / 510.0) == l * maxDepth / 510.0;
  }

  lemma EntryOfZero(i: int)
    ensures EntryDepth(0.0, i) == 0.0
  {
  }

  class CrackGradient {
    var maxDepth: real
    var stops: seq<Stop>
    var colorLUT: array<real>
    var colorLUTUint8: array<int>

    ghost predicate Valid()
      reads this, colorLUT, colorLUTUint8
    {
      && stops != [] && Tabulates(colorLUT[..], stops, maxDepth)
      && colorLUTUint8.Length == colorLUT.Length
      && forall k: nat :: k < colorLUT.Length ==> colorLUTUint8[k] == ToByte(Round(colorLUT[k] * 255.0))
    }

    /** Options that are missing, and a depth of zero, become the defaults. */
    constructor (depth: Option<real>, scale: Option<seq<Stop>>)
      requires scale.Some? ==> scale.value != []
      ensures Valid() && fresh(colorLUT) && fresh(colorLUTUint8)
      ensures maxDepth == if depth.None? || depth.value == 0.0 then 200.0 else depth.value
      ensures stops == if scale.None? then DEFAULT_STOPS else scale.value
    {
      maxDepth := if depth.None? || depth.value == 0.0 then 200.0 else depth.value;
      stops := if scale.None? then DEFAULT_STOPS else scale.value;
      colorLUT, colorLUTUint8 := new real[0], new int[0];
      new;
      BuildLUT();
    }

    method BuildLUT()
      requires stops != []
      modifies this`colorLUT, this`colorLUTUint8
      ensures Valid() && fresh(colorLUT) && fresh(colorLUTUint8)
      ensures Increasing(stops) && UnitStops(stops) ==> BytesClose(colorLUTUint8[..], stops, maxDepth)
    {
      hide ColorAt, EntryDepth, ToByte, Round, UnitStops, BytesClose, Increasing;
      colorLUT, colorLUTUint8 := new real[3 * LUT_SIZE], new int[3 * LUT_SIZE];
      for i := 0 to LUT_SIZE
        invariant fresh(colorLUT) && fresh(colorLUTUint8)
        invariant colorLUT.Length == colorLUTUint8.Length == 3 * LUT_SIZE
        invariant forall k: nat :: k < i ==> EntryIs(colorLUT[..], k, ColorAt(stops, EntryDepth(maxDepth, k)))
        invariant forall k: nat :: k < 3 * i ==> colorLUTUint8[k] == ToByte(Round(colorLUT[k] * 255.0))
      {
        var c := SampleColorAtDepth(stops, EntryDepth(maxDepth, i));
        ghost var before := colorLUT[..];
        colorLUT[3 * i], colorLUT[3 * i + 1], colorLUT[3 * i + 2] := c.r, c.g, c.b;
        colorLUTUint8[3 * i] := ToByte(Round(c.r * 255.0));
        colorLUTUint8[3 * i + 1] := ToByte(Round(c.g * 255.0));
        colorLUTUint8[3 * i + 2] := ToByte(Round(c.b * 255.0));
        forall k: nat | k < i ensures EntryIs(colorLUT[..], k, ColorAt(stops, EntryDepth(maxDepth, k))) {
          assert EntryIs(before, k, ColorAt(stops, EntryDepth(maxDepth, k)));
        }
      }
      if Increasing(stops) && UnitStops(stops) {
        BytesAreColors(colorLUT[..], colorLUTUint8[..], stops, maxDepth);
      }
    }

    method SetMaxDepth(depth: real)
      requires Valid()
      modifies this
      ensures Valid() && maxDepth == depth && stops == old(stops) && fresh(colorLUT) && fresh(colorLUTUint8)
    {
      maxDepth := depth;
      BuildLUT();
    }

    method SetStops(scale: seq<Stop>)
      requires scale != []
      modifies this
      ensures Valid() && maxDepth == old(maxDepth) && stops == scale && fresh(colorLUT) && fresh(colorLUTUint8)
    {
      stops := scale;
      BuildLUT();
    }

    /** The colour from the table, close to the exact one. For a maximum depth of zero it is the same
        for all depths, that of depth zero, except at zero, where there is none. */
    method SampleColor(depth: real) returns (c: Option<Color>)
      requires Valid()
      ensures c.None? <==> maxDepth == 0.0 && depth == 0.0
      ensures maxDepth == 0.0 && depth != 0.0 ==> c == Some(ColorAt(stops, 0.0))
      ensures maxDepth != 0.0 ==> c == Some(ColorAt(stops, EntryDepth(maxDepth, Index(maxDepth, depth))))
      ensures Increasing(stops) && maxDepth > 0.0 && 0.0 <= depth <= maxDepth ==>
        forall ch :: Close(stops, maxDepth, depth, c.value, ch)
    {
      hide ColorAt, EntryDepth, Close, Increasing, Index;
      var entry := Lookup(maxDepth, depth);
      if entry.None? { return None; }
      var idx := entry.value;
      c := Some(Color(colorLUT[idx * 3], colorLUT[idx * 3 + 1], colorLUT[idx * 3 + 2]));
      assert EntryIs(colorLUT[..], idx, ColorAt(stops, EntryDepth(maxDepth, idx)));
      assert EntryDepth(0.0, idx) == 0.0 by { EntryOfZero(idx); }
      if Increasing(stops) && maxDepth > 0.0 && 0.0 <= depth <= maxDepth {
        forall ch ensures Close(stops, maxDepth, depth, c.value, ch) { TableIsClose(stops, maxDepth, depth, ch); }
      }
    }
  }
}
