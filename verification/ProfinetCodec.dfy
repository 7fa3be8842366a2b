/** The payload formats: the simulator's encoders and the backend's decoders.
    Floating-point numbers travel as opaque 32- and 64-bit words. */
module ProfinetCodec {
  import opened Wrappers
  import opened ByteCodec

  // ------------------------------------------------- consecutive integers of given widths

  function Total(widths: seq<nat>): nat {
    if widths == [] then 0 else Total(widths[..|widths| - 1]) + widths[|widths| - 1]
  }

  function Fields(data: seq<byte>, offset: nat, widths: seq<nat>): (r: Option<seq<nat>>)
    ensures r.Some? ==> |r.value| == |widths|
  {
    if widths == [] then Some([]) else
    var n := |widths| - 1;
    var first := Fields(data, offset, widths[..n]);
    if first.None? then None else
    var last := Read(data, offset + Total(widths[..n]), widths[n]);
    if last.None? then None else Some(first.value + [last.value])
  }

  function PutFields(vals: seq<nat>, widths: seq<nat>): (r: seq<byte>)
    requires |vals| == |widths|
    ensures |r| == Total(widths)
  {
    if widths == [] then [] else
    var n := |widths| - 1;
    PutFields(vals[..n], widths[..n]) + LE(vals[n], widths[n])
  }

  ghost predicate Fit(vals: seq<nat>, widths: seq<nat>)
    requires |vals| == |widths|
  {
    forall i :: 0 <= i < |vals| ==> vals[i] < Pow256(widths[i])
  }

  // The bytes `enc` stand at `offset`.
  ghost predicate At(data: seq<byte>, offset: nat, enc: seq<byte>) {
    enc == []
      || (offset + |enc| <= |data| && forall i {:trigger enc[i]} :: 0 <= i < |enc| ==> data[offset + i] == enc[i])
  }

  lemma AtIsSlice(data: seq<byte>, offset: nat, enc: seq<byte>)
    requires offset + |enc| <= |data|
    ensures At(data, offset, enc) <==> data[offset..offset + |enc|] == enc
  {
    var s := data[offset..offset + |enc|];
    if s == enc {
      forall i | 0 <= i < |enc| ensures data[offset + i] == enc[i] { assert s[i] == data[offset + i]; }
    }
  }

  lemma AtConcat(data: seq<byte>, offset: nat, a: seq<byte>, b: seq<byte>)
    ensures At(data, offset, a + b) <==> At(data, offset, a) && At(data, offset + |a|, b)
  {
    if At(data, offset, a + b) && a + b != [] {
      forall i | 0 <= i < |a| ensures data[offset + i] == a[i] { assert (a + b)[i] == a[i]; }
      forall i | 0 <= i < |b| ensures data[offset + |a| + i] == b[i] { assert (a + b)[|a| + i] == b[i]; }
    }
    if At(data, offset, a) && At(data, offset + |a|, b) {
      forall i | 0 <= i < |a + b| ensures data[offset + i] == (a + b)[i] {
        assert (a + b)[i] == if i < |a| then a[i] else b[i - |a|];
      }
    }
  }

  lemma ReadAt(data: seq<byte>, offset: nat, n: nat, v: nat)
    requires n > 0
    ensures Read(data, offset, n) == Some(v) <==> v < Pow256(n) && At(data, offset, LE(v, n))
  {
    ReadIff(data, offset, n, v);
    if offset + n <= |data| { AtIsSlice(data, offset, LE(v, n)); }
  }

  lemma FieldsLast(data: seq<byte>, offset: nat, widths: seq<nat>, vals: seq<nat>)
    requires |vals| == |widths| > 0
    ensures var n := |widths| - 1;
      Fields(data, offset, widths) == Some(vals) <==>
        Fields(data, offset, widths[..n]) == Some(vals[..n])
          && Read(data, offset + Total(widths[..n]), widths[n]) == Some(vals[n])
  {
    hide Read, Total;
    var n := |widths| - 1;
    assert vals == vals[..n] + [vals[n]];
  }

  lemma FitLast(widths: seq<nat>, vals: seq<nat>)
    requires |vals| == |widths| > 0
    ensures var n := |widths| - 1; Fit(vals, widths) <==> Fit(vals[..n], widths[..n]) && vals[n] < Pow256(widths[n])
  {
    hide Pow256;
  }

  lemma {:induction false} FieldsIff(data: seq<byte>, offset: nat, widths: seq<nat>, vals: seq<nat>)
    requires |vals| == |widths| && forall i :: 0 <= i < |widths| ==> widths[i] > 0
    ensures Fields(data, offset, widths) == Some(vals) <==>
      Fit(vals, widths) && At(data, offset, PutFields(vals, widths))
  {
    hide Fields, Fit, At, Read, Pow256;
    if widths == [] {
      NoFields(data, offset);
    } else {
      var n := |widths| - 1;
      FieldsIff(data, offset, widths[..n], vals[..n]);
      FieldsLast(data, offset, widths, vals);
      FitLast(widths, vals);
      ReadAt(data, offset + Total(widths[..n]), widths[n], vals[n]);
      AtConcat(data, offset, PutFields(vals[..n], widths[..n]), LE(vals[n], widths[n]));
    }
  }

  lemma NoFields(data: seq<byte>, offset: nat)
    ensures Fields(data, offset, []) == Some([]) && Fit([], []) && At(data, offset, [])
  {
  }

  method ReadFields(data: seq<byte>, offset: nat, widths: seq<nat>) returns (r: Option<seq<nat>>)
    ensures r == Fields(data, offset, widths)
  {
    var vals, at := [], offset;
    for i := 0 to |widths|
      invariant Fields(data, offset, widths[..i]) == Some(vals) && at == offset + Total(widths[..i])
    {
      assert widths[..i + 1][..i] == widths[..i];
      var v := ReadUnsigned(data, at, widths[i]);
      if v.None? {
        FieldsShort(data, offset, widths, i + 1);
        return None;
      }
      vals, at := vals + [v.value], at + widths[i];
    }
    assert widths[..|widths|] == widths;
    return Some(vals);
  }

  lemma {:induction false} FieldsShort(data: seq<byte>, offset: nat, widths: seq<nat>, i: nat)
    requires i <= |widths| && Fields(data, offset, widths[..i]).None?
    ensures Fields(data, offset, widths).None?
  {
    if i == |widths| {
      assert widths[..i] == widths;
    } else {
      assert widths[..|widths| - 1][..i] == widths[..i];
      FieldsShort(data, offset, widths[..|widths| - 1], i);
    }
  }

  method AppendFields(buf: seq<byte>, vals: seq<nat>, widths: seq<nat>) returns (r: seq<byte>)
    requires |vals| == |widths|
    ensures r == buf + PutFields(vals, widths)
  {
    r := buf;
    for i := 0 to |widths|
      invariant r == buf + PutFields(vals[..i], widths[..i])
    {
      assert widths[..i + 1][..i] == widths[..i] && vals[..i + 1][..i] == vals[..i];
      r := Append(r, vals[i], widths[i]);
    }
    assert widths[..|widths|] == widths && vals[..|vals|] == vals;
  }

  // ------------------------------------------------- the records

  datatype Point = Point(x: u64, y: u64, z: u64, depth: u64, width: u64, nx: u64, ny: u64, nz: u64, curvature: u64)
  datatype Crack = Crack(maxDepth: u64, maxWidth: u64, totalLength: u64, points: seq<Point>)

  const POINT_LAYOUT: seq<nat> := [8, 8, 8, 8, 8, 8, 8, 8, 8]
  const CRACK_LAYOUT: seq<nat> := [8, 8, 8, 4]
  // sensor, porcelain, timestamp, scan area (4), resolution, crack flag, crack count
  const LASER_LAYOUT: seq<nat> := [4, 4, 8, 8, 8, 8, 8, 8, 1, 4]
  // sensor, porcelain, timestamp, rms, peak, dominant frequency, temperature, humidity, count
  const VIBRATION_LAYOUT: seq<nat> := [4, 4, 8, 8, 8, 8, 4, 4, 4]

  lemma Widths()
    ensures Pow256(1) == 256 && Pow256(2) == 0x1_0000 && Pow256(4) == 0x1_0000_0000
    ensures Pow256(8) == 0x1_0000_0000_0000_0000
  {
    assert Pow256(3) == 0x100_0000;
    assert Pow256(5) == 0x100_0000_0000 && Pow256(6) == 0x1_0000_0000_0000 && Pow256(7) == 0x100_0000_0000_0000;
  }

  // ------------------------------------------------- points

  function PointWords(p: Point): (r: seq<nat>)
    ensures |r| == |POINT_LAYOUT|
  {
    [p.x, p.y, p.z, p.depth, p.width, p.nx, p.ny, p.nz, p.curvature]
  }

  function ToPoint(w: seq<u64>): Point
    requires |w| == |POINT_LAYOUT|
  {
    Point(w[0], w[1], w[2], w[3], w[4], w[5], w[6], w[7], w[8])
  }

  predicate AllU64(vals: seq<nat>) { forall i :: 0 <= i < |vals| ==> vals[i] < 0x1_0000_0000_0000_0000 }

  lemma FitU64(vals: seq<nat>, widths: seq<nat>)
    requires |vals| == |widths| && Fit(vals, widths)
    requires forall i :: 0 <= i < |widths| ==> widths[i] == 8
    ensures AllU64(vals)
  {
    Widths();
  }

  function EncodePoint(p: Point): seq<byte> { PutFields(PointWords(p), POINT_LAYOUT) }

  function DecodePoint(data: seq<byte>, offset: nat): Option<Point> {
    var vals := Fields(data, offset, POINT_LAYOUT);
    if vals.None? then None else
    assert AllU64(vals.value) by {
      FieldsIff(data, offset, POINT_LAYOUT, vals.value);
      FitU64(vals.value, POINT_LAYOUT);
    }
    Some(ToPoint(vals.value))
  }

  lemma PointIff(data: seq<byte>, offset: nat, p: Point)
    ensures DecodePoint(data, offset) == Some(p) <==> At(data, offset, EncodePoint(p))
  {
    Widths();
    FieldsIff(data, offset, POINT_LAYOUT, PointWords(p));
    var vals := Fields(data, offset, POINT_LAYOUT);
    if vals.Some? {
      FieldsIff(data, offset, POINT_LAYOUT, vals.value);
      FitU64(vals.value, POINT_LAYOUT);
      assert PointWords(ToPoint(vals.value)) == vals.value;
    }
  }

  lemma PointSize(p: Point)
    ensures |EncodePoint(p)| == 72
  {
    TotalOfEqual(POINT_LAYOUT, 8);
  }

  lemma {:induction false} TotalConcat(a: seq<nat>, b: seq<nat>)
    ensures Total(a + b) == Total(a) + Total(b)
  {
    if b == [] {
      assert a + b == a;
    } else {
      assert (a + b)[..|a + b| - 1] == a + b[..|b| - 1];
      TotalConcat(a, b[..|b| - 1]);
    }
  }

  lemma {:induction false} TotalOfEqual(widths: seq<nat>, w: nat)
    requires forall i :: 0 <= i < |widths| ==> widths[i] == w
    ensures Total(widths) == w * |widths|
  {
    if widths != [] { TotalOfEqual(widths[..|widths| - 1], w); }
  }

  // ------------------------------------------------- lists of records of one kind

  /** `dec` reads one record, `enc` writes one; the next record starts where the last one,
      `|enc(x)|` bytes long, ends. */
  function EncodeList<T>(enc: T -> seq<byte>, xs: seq<T>): seq<byte> {
    if xs == [] then [] else EncodeList(enc, xs[..|xs| - 1]) + enc(xs[|xs| - 1])
  }

  function DecodeList<T>(dec: (seq<byte>, nat) -> Option<T>, enc: T -> seq<byte>, data: seq<byte>, offset: nat, n: nat)
    : (r: Option<seq<T>>)
    ensures r.Some? ==> |r.value| == n
  {
    if n == 0 then Some([]) else
    var first := DecodeList(dec, enc, data, offset, n - 1);
    if first.None? then None else
    var last := dec(data, offset + |EncodeList(enc, first.value)|);
    if last.None? then None else Some(first.value + [last.value])
  }

  lemma SnocEqual<T>(a: seq<T>, x: T, b: seq<T>, y: T)
    ensures a + [x] == b + [y] <==> a == b && x == y
  {
    if a + [x] == b + [y] {
      assert (a + [x])[..|a|] == a && (b + [y])[..|b|] == b;
      assert (a + [x])[|a|] == x && (b + [y])[|b|] == y;
    }
  }

  ghost predicate AllOk<T>(ok: T -> bool, xs: seq<T>) { forall i :: 0 <= i < |xs| ==> ok(xs[i]) }

  lemma ListLast<T>(dec: (seq<byte>, nat) -> Option<T>, enc: T -> seq<byte>, data: seq<byte>, offset: nat, xs: seq<T>,
                    x: T)
    ensures DecodeList(dec, enc, data, offset, |xs| + 1) == Some(xs + [x]) <==>
      DecodeList(dec, enc, data, offset, |xs|) == Some(xs) && dec(data, offset + |EncodeList(enc, xs)|) == Some(x)
  {
    hide EncodeList;
    var got := DecodeList(dec, enc, data, offset, |xs|);
    if got.Some? {
      var next := dec(data, offset + |EncodeList(enc, got.value)|);
      if next.Some? { SnocEqual(got.value, next.value, xs, x); }
    }
  }

  lemma EncodeListLast<T>(enc: T -> seq<byte>, xs: seq<T>, x: T)
    ensures EncodeList(enc, xs + [x]) == EncodeList(enc, xs) + enc(x)
  {
    assert (xs + [x])[..|xs|] == xs;
  }

  lemma AllOkLast<T>(ok: T -> bool, xs: seq<T>, x: T)
    ensures AllOk(ok, xs + [x]) <==> AllOk(ok, xs) && ok(x)
  {
    var all := xs + [x];
    if AllOk(ok, all) {
      assert ok(all[|xs|]);
      forall i | 0 <= i < |xs| ensures ok(xs[i]) { assert ok(all[i]); }
    }
  }

  lemma {:induction false} ListIff<T(!new)>(dec: (seq<byte>, nat) -> Option<T>, enc: T -> seq<byte>, ok: T -> bool,
                                            data: seq<byte>, offset: nat, xs: seq<T>)
    requires forall at: nat, x :: dec(data, at) == Some(x) <==> ok(x) && At(data, at, enc(x))
    ensures DecodeList(dec, enc, data, offset, |xs|) == Some(xs) <==>
      AllOk(ok, xs) && At(data, offset, EncodeList(enc, xs))
  {
    hide DecodeList, EncodeList, At, AllOk;
    if xs == [] {
      NoList(dec, enc, ok, data, offset);
    } else {
      var first, last := xs[..|xs| - 1], xs[|xs| - 1];
      assert xs == first + [last];
      ListIff(dec, enc, ok, data, offset, first);
      ListLast(dec, enc, data, offset, first, last);
      EncodeListLast(enc, first, last);
      AllOkLast(ok, first, last);
      AtConcat(data, offset, EncodeList(enc, first), enc(last));
      assert dec(data, offset + |EncodeList(enc, first)|) == Some(last) <==>
        ok(last) && At(data, offset + |EncodeList(enc, first)|, enc(last));
    }
  }

  lemma NoList<T>(dec: (seq<byte>, nat) -> Option<T>, enc: T -> seq<byte>, ok: T -> bool, data: seq<byte>, offset: nat)
    ensures DecodeList(dec, enc, data, offset, 0) == Some([]) && AllOk(ok, []) && At(data, offset, EncodeList(enc, []))
  {
  }

  lemma {:induction false} ListShort<T>(dec: (seq<byte>, nat) -> Option<T>, enc: T -> seq<byte>, data: seq<byte>,
                                        offset: nat, m: nat, n: nat)
    requires m <= n && DecodeList(dec, enc, data, offset, m).None?
    ensures DecodeList(dec, enc, data, offset, n).None?
  {
    if m < n { ListShort(dec, enc, data, offset, m, n - 1); }
  }

  // What a loop that has read xs finds out when it reads the next record.
  lemma ListNext<T>(dec: (seq<byte>, nat) -> Option<T>, enc: T -> seq<byte>, data: seq<byte>, offset: nat, xs: seq<T>,
                    n: nat)
    requires DecodeList(dec, enc, data, offset, |xs|) == Some(xs) && |xs| < n
    ensures var x := dec(data, offset + |EncodeList(enc, xs)|);
      if x.None? then DecodeList(dec, enc, data, offset, n).None?
      else DecodeList(dec, enc, data, offset, |xs| + 1) == Some(xs + [x.value])
  {
    if dec(data, offset + |EncodeList(enc, xs)|).None? { ListShort(dec, enc, data, offset, |xs| + 1, n); }
  }

  // ------------------------------------------------- the points of a crack

  function EncodePoints(ps: seq<Point>): seq<byte> { EncodeList(EncodePoint, ps) }

  function DecodePoints(data: seq<byte>, offset: nat, n: nat): (r: Option<seq<Point>>)
    ensures r.Some? ==> |r.value| == n
  {
    DecodeList(DecodePoint, EncodePoint, data, offset, n)
  }

  lemma {:induction false} PointsSize(ps: seq<Point>)
    ensures |EncodePoints(ps)| == 72 * |ps|
  {
    if ps != [] {
      PointsSize(ps[..|ps| - 1]);
      PointSize(ps[|ps| - 1]);
    }
  }

  lemma PointsIff(data: seq<byte>, offset: nat, ps: seq<Point>)
    ensures DecodePoints(data, offset, |ps|) == Some(ps) <==> At(data, offset, EncodePoints(ps))
  {
    var ok := (_: Point) => true;
    forall at: nat, p ensures DecodePoint(data, at) == Some(p) <==> ok(p) && At(data, at, EncodePoint(p)) {
      PointIff(data, at, p);
    }
    ListIff(DecodePoint, EncodePoint, ok, data, offset, ps);
  }
}
