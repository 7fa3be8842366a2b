/** `parse_laser_data` and `build_laser_payload`. */
module LaserCodec {
  import opened Wrappers
  import opened ByteCodec
  import opened ProfinetCodec

  // ------------------------------------------------- one crack

  function CrackWords(c: Crack): (r: seq<nat>)
    ensures |r| == |CRACK_LAYOUT|
  {
    [c.maxDepth, c.maxWidth, c.totalLength, |c.points| % 0x1_0000_0000]
  }

  function EncodeCrack(c: Crack): seq<byte> {
    PutFields(CrackWords(c), CRACK_LAYOUT) + EncodePoints(c.points)
  }

  function DecodeCrack(data: seq<byte>, offset: nat): Option<Crack> {
    var vals := Fields(data, offset, CRACK_LAYOUT);
    if vals.None? then None else
    assert CrackFit(vals.value) by { FieldsIff(data, offset, CRACK_LAYOUT, vals.value); CrackFitIff(vals.value); }
    var points := DecodePoints(data, offset + 28, vals.value[3]);
    if points.None? then None else Some(Crack(vals.value[0], vals.value[1], vals.value[2], points.value))
  }

  predicate CrackFit(vals: seq<nat>) {
    && |vals| == 4 && vals[0] < 0x1_0000_0000_0000_0000 && vals[1] < 0x1_0000_0000_0000_0000
    && vals[2] < 0x1_0000_0000_0000_0000 && vals[3] < 0x1_0000_0000
  }

  lemma CrackFitIff(vals: seq<nat>)
    requires |vals| == 4
    ensures Fit(vals, CRACK_LAYOUT) <==> CrackFit(vals)
  {
    Widths();
  }

  lemma CrackHeaderSize()
    ensures Total(CRACK_LAYOUT) == 28
  {
    var w := CRACK_LAYOUT;
    assert w[..3] == [8, 8, 8];
    TotalOfEqual(w[..3], 8);
  }

  function CrackSize(c: Crack): nat { 28 + 72 * |c.points| }

  lemma CrackEncodedSize(c: Crack)
    ensures |EncodeCrack(c)| == CrackSize(c)
  {
    CrackHeaderSize();
    PointsSize(c.points);
  }

  // The record's fields and then its points stand at `offset`.
  ghost predicate CrackStands(data: seq<byte>, offset: nat, c: Crack) {
    && |c.points| < 0x1_0000_0000
    && Fields(data, offset, CRACK_LAYOUT) == Some(CrackWords(c))
    && DecodePoints(data, offset + 28, |c.points|) == Some(c.points)
  }

  lemma DecodedStands(data: seq<byte>, offset: nat, c: Crack)
    requires DecodeCrack(data, offset) == Some(c)
    ensures CrackStands(data, offset, c)
  {
    var vals := Fields(data, offset, CRACK_LAYOUT).value;
    assert CrackFit(vals) by { FieldsIff(data, offset, CRACK_LAYOUT, vals); CrackFitIff(vals); }
    assert vals == CrackWords(c);
  }

  lemma StandsDecoded(data: seq<byte>, offset: nat, c: Crack)
    requires CrackStands(data, offset, c)
    ensures DecodeCrack(data, offset) == Some(c)
  {
  }

  lemma StandsIff(data: seq<byte>, offset: nat, c: Crack)
    requires |c.points| < 0x1_0000_0000
    ensures CrackStands(data, offset, c) <==> At(data, offset, EncodeCrack(c))
  {
    CrackHeaderSize();
    FieldsIff(data, offset, CRACK_LAYOUT, CrackWords(c));
    CrackFitIff(CrackWords(c));
    PointsIff(data, offset + 28, c.points);
    AtConcat(data, offset, PutFields(CrackWords(c), CRACK_LAYOUT), EncodePoints(c.points));
  }

  function Countable(c: Crack): bool { |c.points| < 0x1_0000_0000 }

  lemma CrackIff(data: seq<byte>, offset: nat, c: Crack)
    ensures DecodeCrack(data, offset) == Some(c) <==> Countable(c) && At(data, offset, EncodeCrack(c))
  {
    if DecodeCrack(data, offset) == Some(c) { DecodedStands(data, offset, c); }
    if Countable(c) {
      StandsIff(data, offset, c);
      if CrackStands(data, offset, c) { StandsDecoded(data, offset, c); }
    }
  }

  // ------------------------------------------------- the cracks

  function EncodeCracks(cs: seq<Crack>): seq<byte> { EncodeList(EncodeCrack, cs) }

  function DecodeCracks(data: seq<byte>, offset: nat, n: nat): (r: Option<seq<Crack>>)
    ensures r.Some? ==> |r.value| == n
  {
    DecodeList(DecodeCrack, EncodeCrack, data, offset, n)
  }

  function CracksSize(cs: seq<Crack>): nat {
    if cs == [] then 0 else CracksSize(cs[..|cs| - 1]) + CrackSize(cs[|cs| - 1])
  }

  lemma {:induction false} CracksEncodedSize(cs: seq<Crack>)
    ensures |EncodeCracks(cs)| == CracksSize(cs)
  {
    if cs != [] {
      CracksEncodedSize(cs[..|cs| - 1]);
      CrackEncodedSize(cs[|cs| - 1]);
    }
  }

  lemma CracksIff(data: seq<byte>, offset: nat, cs: seq<Crack>)
    ensures DecodeCracks(data, offset, |cs|) == Some(cs) <==> AllOk(Countable, cs) && At(data, offset, EncodeCracks(cs))
  {
    hide At, DecodeCrack, EncodeCrack, Countable, AllOk;
    forall at: nat, c ensures DecodeCrack(data, at) == Some(c) <==> Countable(c) && At(data, at, EncodeCrack(c)) {
      CrackIff(data, at, c);
    }
    ListIff(DecodeCrack, EncodeCrack, Countable, data, offset, cs);
  }

  // ------------------------------------------------- the whole payload

  datatype Head = Head(sensorId: u32, porcelainId: u32, timestamp: u64, scan0: u64, scan1: u64, scan2: u64, scan3: u64,
                       resolution: u64, flag: byte, count: u32)

  function HeadWords(h: Head): (r: seq<nat>)
    ensures |r| == |LASER_LAYOUT|
  {
    [h.sensorId, h.porcelainId, h.timestamp, h.scan0, h.scan1, h.scan2, h.scan3, h.resolution, h.flag, h.count]
  }

  predicate HeadFit(v: seq<nat>) {
    && |v| == 10 && v[0] < 0x1_0000_0000 && v[1] < 0x1_0000_0000 && v[2] < 0x1_0000_0000_0000_0000
    && v[3] < 0x1_0000_0000_0000_0000 && v[4] < 0x1_0000_0000_0000_0000 && v[5] < 0x1_0000_0000_0000_0000
    && v[6] < 0x1_0000_0000_0000_0000 && v[7] < 0x1_0000_0000_0000_0000 && v[8] < 256 && v[9] < 0x1_0000_0000
  }

  lemma HeadFitIff(vals: seq<nat>)
    requires |vals| == 10
    ensures Fit(vals, LASER_LAYOUT) <==> HeadFit(vals)
  {
    Widths();
  }

  lemma HeadSize()
    ensures Total(LASER_LAYOUT) == 61
  {
    var ids, reals, rest := [4, 4], [8, 8, 8, 8, 8, 8], [1, 4];
    assert LASER_LAYOUT == ids + reals + rest;
    TotalConcat(ids + reals, rest);
    TotalConcat(ids, reals);
    TotalConcat([1], [4]);
    TotalOfEqual(ids, 4);
    TotalOfEqual(reals, 8);
    TotalOfEqual([1], 1);
    TotalOfEqual([4], 4);
  }

  function ToHead(v: seq<nat>): Head
    requires HeadFit(v)
  {
    Head(v[0], v[1], v[2], v[3], v[4], v[5], v[6], v[7], v[8], v[9])
  }

  function EncodeHead(h: Head): seq<byte> { PutFields(HeadWords(h), LASER_LAYOUT) }

  function DecodeHead(data: seq<byte>): Option<Head> {
    var vals := Fields(data, 0, LASER_LAYOUT);
    if vals.None? then None else
    assert HeadFit(vals.value) by { FieldsIff(data, 0, LASER_LAYOUT, vals.value); HeadFitIff(vals.value); }
    Some(ToHead(vals.value))
  }

  lemma HeadIff(data: seq<byte>, h: Head)
    ensures DecodeHead(data) == Some(h) <==> At(data, 0, EncodeHead(h))
  {
    FieldsIff(data, 0, LASER_LAYOUT, HeadWords(h));
    HeadFitIff(HeadWords(h));
    var vals := Fields(data, 0, LASER_LAYOUT);
    if vals.Some? {
      FieldsIff(data, 0, LASER_LAYOUT, vals.value);
      HeadFitIff(vals.value);
      assert HeadWords(ToHead(vals.value)) == vals.value;
    }
  }

  // What the backend keeps. The JSON text is the parser's argument, if it is called at all.
  datatype LaserRecord = LaserRecord(sensorId: i32, porcelainId: i32, timestamp: u64, scanArea: (u64, u64, u64, u64),
                                     resolution: u64, crackDetected: bool, crackCount: i32, cracks: seq<Crack>,
                                     json: Option<seq<byte>>)

  datatype Error = OutOfRange | BadJson

  // A count of 2^31 or more becomes negative, and the loop over the cracks does not run.
  function LoopCount(count: u32): nat { if ToI32(count) < 0 then 0 else ToI32(count) }

  function JsonText(data: seq<byte>, offset: nat): Option<Option<seq<byte>>> {
    var length := Read(data, offset, 4);
    if length.None? then None
    else if length.value > 0 && offset + 4 + length.value <= |data|
      then Some(Some(data[offset + 4..offset + 4 + length.value]))
    else Some(None)
  }

  // An empty text is not handed to the JSON parser.
  function Kept(json: seq<byte>): Option<seq<byte>> { if json == [] then None else Some(json) }

  function Record(h: Head, cracks: seq<Crack>, json: Option<seq<byte>>): LaserRecord {
    LaserRecord(ToI32(h.sensorId), ToI32(h.porcelainId), h.timestamp, (h.scan0, h.scan1, h.scan2, h.scan3),
                h.resolution, h.flag != 0, ToI32(h.count), cracks, json)
  }

  /** `wellFormed` says on which texts the JSON parser does not throw. */
  function DecodeLaser(data: seq<byte>, wellFormed: seq<byte> -> bool): Result<LaserRecord, Error> {
    var head := DecodeHead(data);
    if head.None? then Err(OutOfRange) else
    var cracks := DecodeCracks(data, 61, LoopCount(head.value.count));
    if cracks.None? then Err(OutOfRange) else
    var json := JsonText(data, 61 + CracksSize(cracks.value));
    if json.None? then Err(OutOfRange)
    else if json.value.Some? && !wellFormed(json.value.value) then Err(BadJson)
    else Ok(Record(head.value, cracks.value, json.value))
  }

  // ------------------------------------------------- the encoder

  // What the simulator sends: its random values are the fields.
  datatype Scan = Scan(sensorId: i32, porcelainId: i32, timestamp: u64, scanArea: (u64, u64, u64, u64), resolution: u64,
                       crackDetected: bool, cracks: seq<Crack>, json: seq<byte>)

  function HeadOf(s: Scan): Head {
    Head(ToU32(s.sensorId), ToU32(s.porcelainId), s.timestamp, s.scanArea.0, s.scanArea.1, s.scanArea.2, s.scanArea.3,
         s.resolution, if s.crackDetected then 1 else 0, |s.cracks| % 0x1_0000_0000)
  }

  function EncodeLaser(s: Scan): seq<byte> {
    EncodeHead(HeadOf(s)) + EncodeCracks(s.cracks) + LE(|s.json|, 4) + s.json
  }

  lemma JsonRoundTrip(data: seq<byte>, offset: nat, json: seq<byte>)
    requires |json| < 0x1_0000_0000 && At(data, offset, LE(|json|, 4)) && At(data, offset + 4, json)
    ensures JsonText(data, offset) == Some(Kept(json))
  {
    Widths();
    ReadAt(data, offset, 4, |json|);
    if json != [] { AtIsSlice(data, offset + 4, json); }
  }

  ghost predicate LaserStands(data: seq<byte>, s: Scan) {
    var j := 61 + CracksSize(s.cracks);
    && At(data, 0, EncodeHead(HeadOf(s))) && At(data, 61, EncodeCracks(s.cracks))
    && At(data, j, LE(|s.json|, 4)) && At(data, j + 4, s.json)
  }

  lemma HeadEncodedSize(h: Head)
    ensures |EncodeHead(h)| == 61
  {
    HeadSize();
  }

  lemma WholeStands(data: seq<byte>)
    ensures At(data, 0, data)
  {
  }

  // The parts of an encoded scan stand one after the other.
  lemma LaserParts(s: Scan, suffix: seq<byte>)
    requires |s.json| < 0x1_0000_0000
    ensures LaserStands(EncodeLaser(s) + suffix, s)
  {
    hide EncodeHead, EncodeCracks, HeadOf, LE, At, CracksSize;
    var h, cs, len := EncodeHead(HeadOf(s)), EncodeCracks(s.cracks), LE(|s.json|, 4);
    var data := EncodeLaser(s) + suffix;
    assert |h| == 61 by { HeadEncodedSize(HeadOf(s)); }
    assert |cs| == CracksSize(s.cracks) by { CracksEncodedSize(s.cracks); }
    WholeStands(data);
    AtConcat(data, 0, ((h + cs) + len) + s.json, suffix);
    AtConcat(data, 0, (h + cs) + len, s.json);
    AtConcat(data, 0, h + cs, len);
    AtConcat(data, 0, h, cs);
  }

  function Received(s: Scan): LaserRecord
    requires |s.cracks| < 0x8000_0000
  {
    LaserRecord(s.sensorId, s.porcelainId, s.timestamp, s.scanArea, s.resolution, s.crackDetected, |s.cracks|, s.cracks,
                Kept(s.json))
  }

  lemma RecordOfHead(s: Scan)
    requires |s.cracks| < 0x8000_0000
    ensures Record(HeadOf(s), s.cracks, Kept(s.json)) == Received(s)
    ensures LoopCount(HeadOf(s).count) == |s.cracks|
  {
    assert |s.cracks| % 0x1_0000_0000 == |s.cracks|;
    assert ToI32(ToU32(s.sensorId)) == s.sensorId && ToI32(ToU32(s.porcelainId)) == s.porcelainId;
  }

  lemma LaserFromParts(data: seq<byte>, h: Head, cracks: seq<Crack>, json: Option<seq<byte>>,
                       wellFormed: seq<byte> -> bool)
    requires json.Some? ==> wellFormed(json.value)
    requires DecodeHead(data) == Some(h) && DecodeCracks(data, 61, LoopCount(h.count)) == Some(cracks)
    requires JsonText(data, 61 + CracksSize(cracks)) == Some(json)
    ensures DecodeLaser(data, wellFormed) == Ok(Record(h, cracks, json))
  {
    hide DecodeHead, DecodeCracks, JsonText, CracksSize, Record;
  }

  /** Decoding an encoded scan, whatever follows it, gives the scan back. */
  lemma LaserRoundTrip(s: Scan, suffix: seq<byte>, wellFormed: seq<byte> -> bool)
    requires |s.cracks| < 0x8000_0000 && AllOk(Countable, s.cracks) && |s.json| < 0x1_0000_0000
    requires s.json != [] ==> wellFormed(s.json)
    ensures DecodeLaser(EncodeLaser(s) + suffix, wellFormed) == Ok(Received(s))
    ensures var r := DecodeLaser(EncodeLaser(s) + suffix, wellFormed).value;
      && r.sensorId == s.sensorId && r.porcelainId == s.porcelainId && r.timestamp == s.timestamp
      && r.scanArea == s.scanArea && r.resolution == s.resolution && r.crackDetected == s.crackDetected
      && r.crackCount == |s.cracks| && r.cracks == s.cracks && r.json == if s.json == [] then None else Some(s.json)
  {
    hide DecodeLaser, EncodeLaser, LaserStands, AllOk;
    LaserParts(s, suffix);
    LaserFromBytes(EncodeLaser(s) + suffix, s, wellFormed);
  }

  lemma LaserFromBytes(data: seq<byte>, s: Scan, wellFormed: seq<byte> -> bool)
    requires |s.cracks| < 0x8000_0000 && AllOk(Countable, s.cracks) && |s.json| < 0x1_0000_0000
    requires s.json != [] ==> wellFormed(s.json)
    requires LaserStands(data, s)
    ensures DecodeLaser(data, wellFormed) == Ok(Received(s))
  {
    hide DecodeHead, DecodeCracks, JsonText, DecodeLaser, CracksSize, LaserStands, Record, Received, HeadOf, LoopCount,
      AllOk;
    StandingBody(data, s);
    StandingJson(data, s);
    RecordOfHead(s);
    LaserFromParts(data, HeadOf(s), s.cracks, Kept(s.json), wellFormed);
  }

  lemma StandingBody(data: seq<byte>, s: Scan)
    requires AllOk(Countable, s.cracks) && LaserStands(data, s)
    ensures DecodeHead(data) == Some(HeadOf(s)) && DecodeCracks(data, 61, |s.cracks|) == Some(s.cracks)
  {
    HeadIff(data, HeadOf(s));
    CracksIff(data, 61, s.cracks);
  }

  lemma StandingJson(data: seq<byte>, s: Scan)
    requires |s.json| < 0x1_0000_0000 && LaserStands(data, s)
    ensures JsonText(data, 61 + CracksSize(s.cracks)) == Some(Kept(s.json))
  {
    JsonRoundTrip(data, 61 + CracksSize(s.cracks), s.json);
  }

  // The scan that the decoded fields describe.
  function Again(r: LaserRecord): Scan {
    Scan(r.sensorId, r.porcelainId, r.timestamp, r.scanArea, r.resolution, r.crackDetected, r.cracks, [])
  }

  lemma HeadAgain(h: Head, cracks: seq<Crack>, json: Option<seq<byte>>)
    requires |cracks| == LoopCount(h.count)
    ensures HeadOf(Again(Record(h, cracks, json))) == h <==> h.flag <= 1 && h.count < 0x8000_0000
  {
  }

  lemma HeadPrefix(data: seq<byte>, h: Head, cracks: seq<Crack>)
    requires At(data, 61, EncodeCracks(cracks)) && 61 + CracksSize(cracks) <= |data| && DecodeHead(data).Some?
    ensures data[..61 + CracksSize(cracks)] == EncodeHead(h) + EncodeCracks(cracks) <==> DecodeHead(data).value == h
  {
    HeadIff(data, h);
    assert |EncodeHead(h)| == 61 by { HeadSize(); }
    CracksEncodedSize(cracks);
    AtConcat(data, 0, EncodeHead(h), EncodeCracks(cracks));
    AtIsSlice(data, 0, EncodeHead(h) + EncodeCracks(cracks));
  }

  /** Arbitrary bytes: what is accepted is as long as its declared contents, and re-encoding the
      decoded fields reproduces the consumed bytes exactly when the flag byte is 0 or 1 and the
      crack count is below 2^31. */
  lemma AcceptedLaserReencodes(data: seq<byte>, wellFormed: seq<byte> -> bool)
    requires DecodeLaser(data, wellFormed).Ok?
    ensures DecodeHead(data).Some?
    ensures var r := DecodeLaser(data, wellFormed).value;
      var head := DecodeHead(data).value;
      && 65 + CracksSize(r.cracks) <= |data|
      && (data[..61 + CracksSize(r.cracks)] == EncodeHead(HeadOf(Again(r))) + EncodeCracks(r.cracks)
          <==> head.flag <= 1 && head.count < 0x8000_0000)
  {
    var r := DecodeLaser(data, wellFormed).value;
    var head := DecodeHead(data).value;
    assert At(data, 61, EncodeCracks(r.cracks)) by { CracksIff(data, 61, r.cracks); }
    HeadPrefix(data, HeadOf(Again(r)), r.cracks);
    HeadAgain(head, r.cracks, r.json);
  }

  /** An accepted record holds as many cracks as it counts exactly when the count is below 2^31;
      otherwise it holds none, and counts a negative number of them. */
  lemma CrackCountAgreesIff(data: seq<byte>, wellFormed: seq<byte> -> bool)
    requires DecodeLaser(data, wellFormed).Ok?
    ensures DecodeHead(data).Some?
    ensures var r, count := DecodeLaser(data, wellFormed).value, DecodeHead(data).value.count;
      && (r.crackCount == |r.cracks| <==> count < 0x8000_0000)
      && (count >= 0x8000_0000 ==> r.cracks == [] && r.crackCount < 0)
  {
    hide DecodeHead, DecodeCracks, JsonText;
  }

  // ------------------------------------------------- the loops

  method ReadPoint(data: seq<byte>, offset: nat) returns (r: Option<Point>)
    ensures r == DecodePoint(data, offset)
  {
    var vals := ReadFields(data, offset, POINT_LAYOUT);
    if vals.None? { return None; }
    FieldsIff(data, offset, POINT_LAYOUT, vals.value);
    FitU64(vals.value, POINT_LAYOUT);
    return Some(ToPoint(vals.value));
  }

  method ReadPoints(data: seq<byte>, offset: nat, count: nat) returns (r: Option<seq<Point>>)
    ensures r == DecodePoints(data, offset, count)
  {
    hide DecodePoint;
    var points, at := [], offset;
    for j := 0 to count
      invariant DecodePoints(data, offset, j) == Some(points) && at == offset + 72 * j
    {
      PointsSize(points);
      ListNext(DecodePoint, EncodePoint, data, offset, points, count);
      var point := ReadPoint(data, at);
      if point.None? { return None; }
      points, at := points + [point.value], at + 72;
    }
    return Some(points);
  }

  method ReadCrack(data: seq<byte>, offset: nat) returns (r: Option<Crack>)
    ensures r == DecodeCrack(data, offset)
  {
    var vals := ReadFields(data, offset, CRACK_LAYOUT);
    if vals.None? { return None; }
    FieldsIff(data, offset, CRACK_LAYOUT, vals.value);
    CrackFitIff(vals.value);
    var points := ReadPoints(data, offset + 28, vals.value[3]);
    if points.None? { return None; }
    return Some(Crack(vals.value[0], vals.value[1], vals.value[2], points.value));
  }

  lemma CracksSizeSnoc(cracks: seq<Crack>, crack: Crack)
    ensures CracksSize(cracks + [crack]) == CracksSize(cracks) + 28 + 72 * |crack.points|
  {
    assert (cracks + [crack])[..|cracks|] == cracks;
  }

  lemma NextCrackAfter(data: seq<byte>, offset: nat, cracks: seq<Crack>, n: nat)
    requires DecodeCracks(data, offset, |cracks|) == Some(cracks) && |cracks| < n
    ensures var c := DecodeCrack(data, offset + |EncodeCracks(cracks)|);
      if c.None? then DecodeCracks(data, offset, n).None?
      else DecodeCracks(data, offset, |cracks| + 1) == Some(cracks + [c.value])
  {
    hide DecodeCrack;
    ListNext(DecodeCrack, EncodeCrack, data, offset, cracks, n);
  }

  lemma NextCrack(data: seq<byte>, offset: nat, cracks: seq<Crack>, n: nat)
    requires DecodeCracks(data, offset, |cracks|) == Some(cracks) && |cracks| < n
    ensures var c := DecodeCrack(data, offset + CracksSize(cracks));
      if c.None? then DecodeCracks(data, offset, n).None?
      else DecodeCracks(data, offset, |cracks| + 1) == Some(cracks + [c.value])
  {
    hide *;
    CracksEncodedSize(cracks);
    NextCrackAfter(data, offset, cracks, n);
  }

  // The crack after those already read, and where it ends.
  method ReadNextCrack(data: seq<byte>, offset: nat, cracks: seq<Crack>, at: nat, ghost n: nat)
    returns (r: Option<Crack>, end: nat)
    requires DecodeCracks(data, offset, |cracks|) == Some(cracks) && |cracks| < n
    requires at == offset + CracksSize(cracks)
    ensures r.None? ==> DecodeCracks(data, offset, n).None?
    ensures r.Some? ==> DecodeCracks(data, offset, |cracks| + 1) == Some(cracks + [r.value])
    ensures r.Some? ==> end == offset + CracksSize(cracks + [r.value])
  {
    hide *;
    NextCrack(data, offset, cracks, n);
    r := ReadCrack(data, at);
    if r.None? { return r, at; }
    CracksSizeSnoc(cracks, r.value);
    end := at + 28 + 72 * |r.value.points|;
  }

  method ReadCracks(data: seq<byte>, offset: nat, count: i32) returns (r: Option<seq<Crack>>, end: nat)
    ensures r == DecodeCracks(data, offset, if count < 0 then 0 else count)
    ensures r.Some? ==> end == offset + CracksSize(r.value)
  {
    var cracks := [];
    end := offset;
    while |cracks| < count
      invariant |cracks| <= if count < 0 then 0 else count
      invariant DecodeCracks(data, offset, |cracks|) == Some(cracks) && end == offset + CracksSize(cracks)
    {
      var crack, after := ReadNextCrack(data, offset, cracks, end, count);
      if crack.None? { return None, end; }
      cracks, end := cracks + [crack.value], after;
    }
    return Some(cracks), end;
  }

  method ReadJson(data: seq<byte>, offset: nat) returns (r: Option<Option<seq<byte>>>)
    ensures r == JsonText(data, offset)
  {
    var length := ReadUnsigned(data, offset, 4);
    if length.None? { return None; }
    if length.value > 0 && offset + 4 + length.value <= |data| {
      return Some(Some(data[offset + 4..offset + 4 + length.value]));
    }
    return Some(None);
  }

  method ReadHead(data: seq<byte>) returns (r: Option<Head>)
    ensures r == DecodeHead(data)
  {
    var vals := ReadFields(data, 0, LASER_LAYOUT);
    if vals.None? { return None; }
    FieldsIff(data, 0, LASER_LAYOUT, vals.value);
    HeadFitIff(vals.value);
    return Some(ToHead(vals.value));
  }

  /** `parse_laser_data`. */
  method ParseLaserData(payload: seq<byte>, wellFormed: seq<byte> -> bool) returns (r: Result<LaserRecord, Error>)
    ensures r == DecodeLaser(payload, wellFormed)
  {
    hide DecodeHead, DecodeCracks, JsonText, CracksSize;
    var head := ReadHead(payload);
    if head.None? { return Err(OutOfRange); }
    var cracks, offset := ReadCracks(payload, 61, ToI32(head.value.count));
    if cracks.None? { return Err(OutOfRange); }
    var json := ReadJson(payload, offset);
    if json.None? { return Err(OutOfRange); }
    if json.value.Some? && !wellFormed(json.value.value) { return Err(BadJson); }
    return Ok(Record(head.value, cracks.value, json.value));
  }

  method AppendPoints(buf: seq<byte>, points: seq<Point>) returns (r: seq<byte>)
    ensures r == buf + EncodePoints(points)
  {
    r := buf;
    for j := 0 to |points|
      invariant r == buf + EncodePoints(points[..j])
    {
      assert points[..j + 1][..j] == points[..j];
      r := AppendFields(r, PointWords(points[j]), POINT_LAYOUT);
    }
    assert points[..|points|] == points;
  }

  method AppendCrack(buf: seq<byte>, crack: Crack) returns (r: seq<byte>)
    ensures r == buf + EncodeCrack(crack)
  {
    r := AppendFields(buf, CrackWords(crack), CRACK_LAYOUT);
    r := AppendPoints(r, crack.points);
  }

  method AppendCracks(buf: seq<byte>, cracks: seq<Crack>) returns (r: seq<byte>)
    ensures r == buf + EncodeCracks(cracks)
  {
    r := buf;
    for i := 0 to |cracks|
      invariant r == buf + EncodeCracks(cracks[..i])
    {
      assert cracks[..i + 1][..i] == cracks[..i];
      r := AppendCrack(r, cracks[i]);
    }
    assert cracks[..|cracks|] == cracks;
  }

  /** `build_laser_payload`. */
  method BuildLaserPayload(s: Scan) returns (r: seq<byte>)
    ensures r == EncodeLaser(s)
  {
    r := AppendFields([], HeadWords(HeadOf(s)), LASER_LAYOUT);
    assert r == EncodeHead(HeadOf(s));
    hide EncodeHead, EncodeCracks, HeadOf;
    r := AppendCracks(r, s.cracks);
    r := Append(r, |s.json|, 4);
    r := r + s.json;
  }
}
