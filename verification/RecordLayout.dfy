/** Where the fields of a decoded record stand in the bytes it was decoded from: the two payload formats,
    byte by byte. */
module RecordLayout {
  import opened Wrappers
  import opened ByteCodec
  import opened ProfinetCodec
  import L = LaserCodec
  import V = VibrationCodec

  // The n bytes at an offset, lowest first, are those of x.
  ghost predicate Word(data: seq<byte>, at: nat, n: nat, x: nat) {
    at + n <= |data| && x == Num(data[at..at + n])
  }

  // The four bytes at an offset are those of x in two's complement.
  ghost predicate Signed(data: seq<byte>, at: nat, x: i32) {
    at + 4 <= |data| && (x - Num(data[at..at + 4])) % 0x1_0000_0000 == 0
  }

  /** The lowest byte comes first. */
  lemma LowestFirst(a: byte, b: byte, c: byte, d: byte)
    ensures Num([a, b]) == a + 0x100 * b
    ensures Num([a, b, c, d]) == a + 0x100 * b + 0x1_0000 * c + 0x100_0000 * d
  {
    hide Num;
    NumCons(d, []);
    assert [d] + [] == [d] && [c] + [d] == [c, d] && [b] + [c, d] == [b, c, d] && [a] + [b, c, d] == [a, b, c, d];
    assert [b] + [] == [b] && [a] + [b] == [a, b];
    NumCons(c, [d]);
    NumCons(b, [c, d]);
    NumCons(a, [b, c, d]);
    NumCons(b, []);
    NumCons(a, [b]);
    NumOfNothing();
  }

  lemma NumCons(b: byte, s: seq<byte>)
    ensures Num([b] + s) == b + 0x100 * Num(s)
  {
    assert ([b] + s)[1..] == s;
  }

  lemma NumOfNothing()
    ensures Num([]) == 0
  {
  }

  lemma SignedIs(data: seq<byte>, at: nat, x: u32)
    requires Word(data, at, 4, x)
    ensures Signed(data, at, ToI32(x))
  {
  }

  // ------------------------------------------------- fields and lists

  lemma {:induction false} FieldAt(data: seq<byte>, offset: nat, widths: seq<nat>, vals: seq<nat>, i: nat)
    requires |vals| == |widths| && Fields(data, offset, widths) == Some(vals) && i < |widths|
    ensures Word(data, offset + Total(widths[..i]), widths[i], vals[i])
  {
    hide Total, Word;
    var n := |widths| - 1;
    FieldsLast(data, offset, widths, vals);
    if i < n {
      assert widths[..n][..i] == widths[..i];
      FieldAt(data, offset, widths[..n], vals[..n], i);
    } else {
      ReadWord(data, offset + Total(widths[..n]), widths[n], vals[n]);
    }
  }

  lemma ReadWord(data: seq<byte>, at: nat, n: nat, x: nat)
    requires Read(data, at, n) == Some(x)
    ensures Word(data, at, n, x)
  {
  }

  lemma TotalNext(widths: seq<nat>, i: nat)
    requires i < |widths|
    ensures Total(widths[..i + 1]) == Total(widths[..i]) + widths[i]
  {
    assert widths[..i + 1][..i] == widths[..i];
  }

  lemma {:induction false} ListElement<T>(dec: (seq<byte>, nat) -> Option<T>, enc: T -> seq<byte>, data: seq<byte>,
                                          offset: nat, xs: seq<T>, k: nat)
    requires DecodeList(dec, enc, data, offset, |xs|) == Some(xs) && k < |xs|
    ensures dec(data, offset + |EncodeList(enc, xs[..k])|) == Some(xs[k])
  {
    hide EncodeList, DecodeList;
    var n := |xs| - 1;
    ListLast(dec, enc, data, offset, xs[..n], xs[n]);
    assert xs == xs[..n] + [xs[n]];
    if k < n {
      assert xs[..n][..k] == xs[..k];
      ListElement(dec, enc, data, offset, xs[..n], k);
    }
  }

  // ------------------------------------------------- points and cracks

  // A point: nine numbers of eight bytes each.
  ghost predicate PointAt(data: seq<byte>, o: nat, p: Point) {
    && Word(data, o, 8, p.x) && Word(data, o + 8, 8, p.y) && Word(data, o + 16, 8, p.z)
    && Word(data, o + 24, 8, p.depth) && Word(data, o + 32, 8, p.width)
    && Word(data, o + 40, 8, p.nx) && Word(data, o + 48, 8, p.ny) && Word(data, o + 56, 8, p.nz)
    && Word(data, o + 64, 8, p.curvature)
  }

  // A crack: its measures, the number of its points, and these.
  ghost predicate CrackAt(data: seq<byte>, o: nat, c: Crack) {
    && Word(data, o, 8, c.maxDepth) && Word(data, o + 8, 8, c.maxWidth) && Word(data, o + 16, 8, c.totalLength)
    && Word(data, o + 24, 4, |c.points|)
    && forall j: nat {:trigger c.points[j]} :: j < |c.points| ==> PointAt(data, o + 28 + 72 * j, c.points[j])
  }

  lemma EighthField(data: seq<byte>, o: nat, vals: seq<nat>, i: nat)
    requires |vals| == 9 && Fields(data, o, POINT_LAYOUT) == Some(vals) && i < 9
    ensures Word(data, o + 8 * i, 8, vals[i])
  {
    hide Fields, Word, Total;
    FieldAt(data, o, POINT_LAYOUT, vals, i);
    TotalOfEqual(POINT_LAYOUT[..i], 8);
  }

  lemma DecodedPoint(data: seq<byte>, o: nat, p: Point)
    requires DecodePoint(data, o) == Some(p)
    ensures PointAt(data, o, p)
  {
    hide Fields, Word;
    var vals := Fields(data, o, POINT_LAYOUT).value;
    forall i: nat | i < 9 ensures Word(data, o + 8 * i, 8, vals[i]) { EighthField(data, o, vals, i); }
    assert Word(data, o + 8 * 0, 8, vals[0]) && Word(data, o + 8 * 1, 8, vals[1]) && Word(data, o + 8 * 2, 8, vals[2]);
    assert Word(data, o + 8 * 3, 8, vals[3]) && Word(data, o + 8 * 4, 8, vals[4]) && Word(data, o + 8 * 5, 8, vals[5]);
    assert Word(data, o + 8 * 6, 8, vals[6]) && Word(data, o + 8 * 7, 8, vals[7]) && Word(data, o + 8 * 8, 8, vals[8]);
  }

  lemma DecodedPoints(data: seq<byte>, o: nat, ps: seq<Point>, j: nat)
    requires DecodePoints(data, o, |ps|) == Some(ps) && j < |ps|
    ensures PointAt(data, o + 72 * j, ps[j])
  {
    hide DecodePoint, PointAt, EncodePoint;
    ListElement(DecodePoint, EncodePoint, data, o, ps, j);
    PointsSize(ps[..j]);
    DecodedPoint(data, o + 72 * j, ps[j]);
  }

  lemma CrackTotals()
    ensures Total(CRACK_LAYOUT[..0]) == 0 && Total(CRACK_LAYOUT[..1]) == 8 && Total(CRACK_LAYOUT[..2]) == 16
    ensures Total(CRACK_LAYOUT[..3]) == 24
  {
    hide Total;
    TotalOfEqual(CRACK_LAYOUT[..0], 8);
    TotalOfEqual(CRACK_LAYOUT[..1], 8);
    TotalOfEqual(CRACK_LAYOUT[..2], 8);
    TotalOfEqual(CRACK_LAYOUT[..3], 8);
  }

  lemma DecodedCrack(data: seq<byte>, o: nat, c: Crack)
    requires L.DecodeCrack(data, o) == Some(c)
    ensures CrackAt(data, o, c)
  {
    hide Fields, Word, Total, L.DecodeCrack, DecodePoints, PointAt;
    L.DecodedStands(data, o, c);
    var vals := L.CrackWords(c);
    CrackTotals();
    FieldAt(data, o, CRACK_LAYOUT, vals, 0);
    FieldAt(data, o, CRACK_LAYOUT, vals, 1);
    FieldAt(data, o, CRACK_LAYOUT, vals, 2);
    FieldAt(data, o, CRACK_LAYOUT, vals, 3);
    forall j: nat | j < |c.points| ensures PointAt(data, o + 28 + 72 * j, c.points[j]) {
      DecodedPoints(data, o + 28, c.points, j);
    }
  }

  // ------------------------------------------------- a laser record

  // The fields before the cracks.
  ghost predicate LaserHeadAt(data: seq<byte>, r: L.LaserRecord) {
    && 61 <= |data| && Signed(data, 0, r.sensorId) && Signed(data, 4, r.porcelainId) && Word(data, 8, 8, r.timestamp)
    && Word(data, 16, 8, r.scanArea.0) && Word(data, 24, 8, r.scanArea.1) && Word(data, 32, 8, r.scanArea.2)
    && Word(data, 40, 8, r.scanArea.3) && Word(data, 48, 8, r.resolution)
    && (r.crackDetected <==> data[56] != 0) && Signed(data, 57, r.crackCount)
  }

  // The cracks one after the other from byte 61 on, each 28 bytes and 72 for every point.
  ghost predicate CracksAt(data: seq<byte>, cs: seq<Crack>) {
    forall k: nat {:trigger cs[k]} :: k < |cs| ==> CrackAt(data, 61 + L.CracksSize(cs[..k]), cs[k])
  }

  // The tail: its length, and a text of this length if it is not empty and all there.
  ghost predicate TailAt(data: seq<byte>, o: nat, json: Option<seq<byte>>) {
    && o + 4 <= |data|
    && var n := Num(data[o..o + 4]);
       json == if n > 0 && o + 4 + n <= |data| then Some(data[o + 4..o + 4 + n]) else None
  }

  lemma LaserTotals(i: nat)
    requires i < 10
    ensures Total(LASER_LAYOUT[..i]) ==
      if i <= 2 then 4 * i else if i <= 8 then 8 * i - 8 else 57
  {
    if i == 0 {
    } else {
      LaserTotals(i - 1);
      TotalNext(LASER_LAYOUT, i - 1);
    }
  }

  lemma LaserFieldAt(data: seq<byte>, vals: seq<nat>, i: nat)
    requires |vals| == 10 && Fields(data, 0, LASER_LAYOUT) == Some(vals) && i < 10
    ensures Word(data, if i <= 2 then 4 * i else if i <= 8 then 8 * i - 8 else 57, LASER_LAYOUT[i], vals[i])
  {
    hide Fields, Word, Total;
    FieldAt(data, 0, LASER_LAYOUT, vals, i);
    LaserTotals(i);
  }

  lemma OneByte(data: seq<byte>, at: nat, x: nat)
    requires Word(data, at, 1, x)
    ensures x == data[at]
  {
    assert data[at..at + 1] == [data[at]] + [];
    NumCons(data[at], []);
    NumOfNothing();
  }

  lemma DecodedHead(data: seq<byte>, h: L.Head, cracks: seq<Crack>, json: Option<seq<byte>>)
    requires L.DecodeHead(data) == Some(h)
    ensures LaserHeadAt(data, L.Record(h, cracks, json))
  {
    hide Fields, Word, Signed, ToI32;
    var vals := Fields(data, 0, LASER_LAYOUT).value;
    LaserFieldAt(data, vals, 0);
    LaserFieldAt(data, vals, 1);
    LaserFieldAt(data, vals, 2);
    LaserFieldAt(data, vals, 3);
    LaserFieldAt(data, vals, 4);
    LaserFieldAt(data, vals, 5);
    LaserFieldAt(data, vals, 6);
    LaserFieldAt(data, vals, 7);
    LaserFieldAt(data, vals, 8);
    LaserFieldAt(data, vals, 9);
    SignedIs(data, 0, h.sensorId);
    SignedIs(data, 4, h.porcelainId);
    SignedIs(data, 57, h.count);
    assert 61 <= |data| by { WordEnds(data, 57, 4, h.count); }
    OneByte(data, 56, h.flag);
  }

  lemma WordEnds(data: seq<byte>, at: nat, n: nat, x: nat)
    requires Word(data, at, n, x)
    ensures at + n <= |data|
  {
  }

  lemma DecodedCracks(data: seq<byte>, cs: seq<Crack>)
    requires L.DecodeCracks(data, 61, |cs|) == Some(cs)
    ensures CracksAt(data, cs)
  {
    hide L.DecodeCrack, L.EncodeCrack, CrackAt, L.CracksSize;
    forall k: nat | k < |cs| ensures CrackAt(data, 61 + L.CracksSize(cs[..k]), cs[k]) {
      ListElement(L.DecodeCrack, L.EncodeCrack, data, 61, cs, k);
      L.CracksEncodedSize(cs[..k]);
      DecodedCrack(data, 61 + L.CracksSize(cs[..k]), cs[k]);
    }
  }

  lemma DecodedTail(data: seq<byte>, o: nat, json: Option<seq<byte>>)
    requires L.JsonText(data, o) == Some(json)
    ensures TailAt(data, o, json)
  {
  }

  /** Arbitrary bytes: every field of an accepted laser record is at its place, those of equal width too. */
  lemma LaserFieldsInPlace(data: seq<byte>, wellFormed: seq<byte> -> bool)
    requires L.DecodeLaser(data, wellFormed).Ok?
    ensures var r := L.DecodeLaser(data, wellFormed).value;
      LaserHeadAt(data, r) && CracksAt(data, r.cracks) && TailAt(data, 61 + L.CracksSize(r.cracks), r.json)
  {
    hide L.DecodeHead, L.DecodeCracks, L.JsonText, L.CracksSize, LaserHeadAt, CracksAt, TailAt;
    var r, h := L.DecodeLaser(data, wellFormed).value, L.DecodeHead(data).value;
    DecodedHead(data, h, r.cracks, r.json);
    DecodedCracks(data, r.cracks);
    DecodedTail(data, 61 + L.CracksSize(r.cracks), r.json);
  }

  // ------------------------------------------------- a vibration record

  ghost predicate VibrationHeadAt(data: seq<byte>, r: V.VibrationRecord) {
    && Signed(data, 0, r.sensorId) && Signed(data, 4, r.porcelainId) && Word(data, 8, 8, r.timestamp)
    && Word(data, 16, 8, r.rms) && Word(data, 24, 8, r.peak) && Word(data, 32, 8, r.frequency)
    && Word(data, 40, 4, r.temperature) && Word(data, 44, 4, r.humidity) && Word(data, 48, 4, |r.amplitude|)
  }

  lemma VibrationTotals(i: nat)
    requires i < 9
    ensures Total(VIBRATION_LAYOUT[..i]) ==
      if i <= 2 then 4 * i else if i <= 6 then 8 * i - 8 else 4 * i + 16
  {
    if i == 0 {
    } else {
      VibrationTotals(i - 1);
      TotalNext(VIBRATION_LAYOUT, i - 1);
    }
  }

  lemma VibrationFieldAt(data: seq<byte>, vals: seq<nat>, i: nat)
    requires |vals| == 9 && Fields(data, 0, VIBRATION_LAYOUT) == Some(vals) && i < 9
    ensures Word(data, if i <= 2 then 4 * i else if i <= 6 then 8 * i - 8 else 4 * i + 16, VIBRATION_LAYOUT[i], vals[i])
  {
    hide Fields, Word, Total;
    FieldAt(data, 0, VIBRATION_LAYOUT, vals, i);
    VibrationTotals(i);
  }

  lemma DecodedVibrationHead(data: seq<byte>, h: V.VibrationHead, amps: seq<u64>, json: Option<seq<byte>>)
    requires V.DecodeVibrationHead(data) == Some(h) && |amps| == h.count
    ensures VibrationHeadAt(data, V.RecordOf(h, amps, json))
  {
    hide Fields, Word, Signed, ToI32;
    var vals := Fields(data, 0, VIBRATION_LAYOUT).value;
    VibrationFieldAt(data, vals, 0);
    VibrationFieldAt(data, vals, 1);
    VibrationFieldAt(data, vals, 2);
    VibrationFieldAt(data, vals, 3);
    VibrationFieldAt(data, vals, 4);
    VibrationFieldAt(data, vals, 5);
    VibrationFieldAt(data, vals, 6);
    VibrationFieldAt(data, vals, 7);
    VibrationFieldAt(data, vals, 8);
    SignedIs(data, 0, h.sensorId);
    SignedIs(data, 4, h.porcelainId);
  }

  lemma DecodedAmplitude(data: seq<byte>, amps: seq<u64>, k: nat)
    requires V.DecodeAmplitudes(data, 52, |amps|) == Some(amps) && k < |amps|
    ensures Word(data, 52 + 8 * k, 8, amps[k])
  {
    hide Read, V.EncodeAmplitude;
    ListElement(V.DecodeAmplitude, V.EncodeAmplitude, data, 52, amps, k);
    V.AmplitudesSize(amps[..k]);
    V.AmplitudeIsRead(data, 52 + 8 * k);
    ReadWord(data, 52 + 8 * k, 8, amps[k]);
  }

  /** And every field of an accepted vibration record. */
  lemma VibrationFieldsInPlace(data: seq<byte>, wellFormed: seq<byte> -> bool)
    requires V.DecodeVibration(data, wellFormed).Ok?
    ensures var r := V.DecodeVibration(data, wellFormed).value;
      && VibrationHeadAt(data, r) && TailAt(data, 52 + 8 * |r.amplitude|, r.json)
      && forall k: nat {:trigger r.amplitude[k]} :: k < |r.amplitude| ==> Word(data, 52 + 8 * k, 8, r.amplitude[k])
  {
    hide V.DecodeVibrationHead, V.DecodeAmplitudes, L.JsonText, VibrationHeadAt, TailAt, Word;
    var r, h := V.DecodeVibration(data, wellFormed).value, V.DecodeVibrationHead(data).value;
    DecodedVibrationHead(data, h, r.amplitude, r.json);
    DecodedTail(data, 52 + 8 * |r.amplitude|, r.json);
    forall k: nat | k < |r.amplitude| ensures Word(data, 52 + 8 * k, 8, r.amplitude[k]) {
      DecodedAmplitude(data, r.amplitude, k);
    }
  }
}
