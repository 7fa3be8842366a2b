/** What becomes of a sensor's messages between the simulator and the callbacks of the backend: with
    headers that splitter and parser understand, and as the simulator really writes them. */
module ScanDelivery {
  import opened Wrappers
  import opened ByteCodec
  import opened FrameSplitter
  import opened TcpSession
  import L = LaserCodec
  import V = VibrationCodec
  import W = ProfinetCodec

  // ------------------------------------------------- messages

  datatype Message = Laser(scan: L.Scan) | Vibration(vibration: V.Vibration)

  function Kind(m: Message): u16 { if m.Laser? then LASER_DATA else VIBRATION_DATA }

  function Payload(m: Message): seq<byte> {
    if m.Laser? then L.EncodeLaser(m.scan) else V.EncodeVibration(m.vibration)
  }

  function Text(m: Message): seq<byte> { if m.Laser? then m.scan.json else m.vibration.json }

  // It fits into a frame, and its JSON text, if it has one, can be parsed.
  ghost predicate Sendable(m: Message, wellFormed: seq<byte> -> bool) {
    |Payload(m)| + 4 < 0x1_0000 && (Text(m) != [] ==> wellFormed(Text(m)))
  }

  // The callback with the message itself, and the acknowledgement.
  function Delivered(m: Message, cycle: u32): seq<Event>
    requires m.Laser? ==> |m.scan.cracks| < 0x8000_0000
  {
    var packet := Packet(Kind(m), Payload(m));
    [if m.Laser? then LaserSeen(packet, L.Received(m.scan))
     else VibrationSeen(packet, V.VibrationReceived(m.vibration)),
     Acknowledged(cycle)]
  }

  lemma {:induction false} CracksAreSmall(cs: seq<W.Crack>)
    ensures 28 * |cs| <= L.CracksSize(cs)
    ensures forall i :: 0 <= i < |cs| ==> 72 * |cs[i].points| <= L.CracksSize(cs)
  {
    if cs != [] { CracksAreSmall(cs[..|cs| - 1]); }
  }

  lemma SendableScan(s: L.Scan)
    requires |L.EncodeLaser(s)| < 0x1_0000
    ensures |s.cracks| < 0x8000_0000 && W.AllOk(L.Countable, s.cracks) && |s.json| < 0x1_0000_0000
  {
    L.CracksEncodedSize(s.cracks);
    CracksAreSmall(s.cracks);
  }

  lemma SendableVibration(v: V.Vibration)
    requires |V.EncodeVibration(v)| < 0x1_0000
    ensures |v.amplitude| < 0x1_0000_0000 && |v.json| < 0x1_0000_0000
  {
    V.AmplitudesSize(v.amplitude);
  }

  lemma SendableIsCountable(m: Message, wellFormed: seq<byte> -> bool)
    requires Sendable(m, wellFormed)
    ensures m.Laser? ==> |m.scan.cracks| < 0x8000_0000
  {
    if m.Laser? { SendableScan(m.scan); }
  }

  // ------------------------------------------------- headers that agree

  // A header in which the splitter and the parser both find the length they look for, and the parser
  // the kind of message and the cycle counter; its other bytes are arbitrary.
  ghost predicate Agrees(header: seq<byte>, m: Message, cycle: u32) {
    && |header| == 20 && |Payload(m)| + 4 < 0x1_0000
    && header[0..2] == LE(Kind(m), 2) && header[4..8] == LE(cycle, 4)
    && header[12..14] == LE(|Payload(m)| + 4, 2) && header[18..20] == LE(|Payload(m)|, 2)
  }

  lemma ShortNum(v: nat, n: nat)
    requires n in {2, 4} && v < Pow256(n)
    ensures Num(LE(v, n)) == v
  {
    NumOfLE(v, n);
  }

  lemma AgreedPacket(header: seq<byte>, m: Message, cycle: u32)
    requires Agrees(header, m, cycle)
    ensures Delimited(SESSION, header + Payload(m))
    ensures ParsePacket(header + Payload(m)) == Ok(Packet(Kind(m), Payload(m)))
    ensures Num((header + Payload(m))[4..8]) == cycle
  {
    hide Payload;
    var payload := Payload(m);
    var p := header + payload;
    W.Widths();
    assert p[0..2] == header[0..2] && p[4..8] == header[4..8] && p[12..14] == header[12..14]
      && p[18..20] == header[18..20];
    assert p[20..20 + |payload|] == payload;
    ShortNum(Kind(m), 2);
    ShortNum(cycle, 4);
    ShortNum(|payload| + 4, 2);
    ShortNum(|payload|, 2);
  }

  lemma DecodesAgain(m: Message, wellFormed: seq<byte> -> bool)
    requires Sendable(m, wellFormed)
    ensures m.Laser? ==>
      |m.scan.cracks| < 0x8000_0000 && L.DecodeLaser(Payload(m), wellFormed) == Ok(L.Received(m.scan))
    ensures m.Vibration? ==> V.DecodeVibration(Payload(m), wellFormed) == Ok(V.VibrationReceived(m.vibration))
  {
    hide L.DecodeLaser, L.EncodeLaser, V.DecodeVibration, V.EncodeVibration, L.Received, V.VibrationReceived;
    assert Payload(m) + [] == Payload(m);
    if m.Laser? {
      SendableScan(m.scan);
      L.LaserRoundTrip(m.scan, [], wellFormed);
    } else {
      SendableVibration(m.vibration);
      V.VibrationRoundTrip(m.vibration, [], wellFormed);
    }
  }

  lemma AgreedFrame(header: seq<byte>, m: Message, cycle: u32, wellFormed: seq<byte> -> bool)
    requires Agrees(header, m, cycle) && Sendable(m, wellFormed)
    ensures m.Laser? ==> |m.scan.cracks| < 0x8000_0000
    ensures Delimited(SESSION, header + Payload(m)) && Handle(header + Payload(m), wellFormed) == Delivered(m, cycle)
  {
    hide Agrees, Sendable, Payload, ParsePacket, Delimited, L.DecodeLaser, V.DecodeVibration, L.Received,
      V.VibrationReceived;
    AgreedPacket(header, m, cycle);
    DecodesAgain(m, wellFormed);
  }

  // A header of its own for each message.
  ghost predicate AllAgree(headers: seq<seq<byte>>, ms: seq<Message>, cycles: seq<u32>, wellFormed: seq<byte> -> bool) {
    && |headers| == |ms| == |cycles|
    && forall i :: 0 <= i < |ms| ==> Agrees(headers[i], ms[i], cycles[i]) && Sendable(ms[i], wellFormed)
  }

  function Packets(headers: seq<seq<byte>>, ms: seq<Message>): seq<seq<byte>>
    requires |headers| == |ms|
  {
    seq(|ms|, i requires 0 <= i < |ms| => headers[i] + Payload(ms[i]))
  }

  ghost function AllDelivered(ms: seq<Message>, cycles: seq<u32>, wellFormed: seq<byte> -> bool): seq<Event>
    requires |cycles| == |ms| && forall i :: 0 <= i < |ms| ==> Sendable(ms[i], wellFormed)
  {
    if ms == [] then [] else
    var n := |ms| - 1;
    SendableIsCountable(ms[n], wellFormed);
    AllDelivered(ms[..n], cycles[..n], wellFormed) + Delivered(ms[n], cycles[n])
  }

  lemma {:induction false} AgreedFrames(headers: seq<seq<byte>>, ms: seq<Message>, cycles: seq<u32>,
                                        wellFormed: seq<byte> -> bool)
    requires AllAgree(headers, ms, cycles, wellFormed)
    ensures forall i :: 0 <= i < |ms| ==> Delimited(SESSION, Packets(headers, ms)[i])
    ensures Each(OnFrame(wellFormed), Packets(headers, ms)) == AllDelivered(ms, cycles, wellFormed)
  {
    hide Agrees, Sendable, Delivered, Handle, Delimited, Payload;
    if ms != [] {
      var n := |ms| - 1;
      AgreedFrames(headers[..n], ms[..n], cycles[..n], wellFormed);
      AgreedFrame(headers[n], ms[n], cycles[n], wellFormed);
      var packets, before := Packets(headers, ms), Packets(headers[..n], ms[..n]);
      assert packets[..n] == before;
      forall i | 0 <= i < |ms| ensures Delimited(SESSION, packets[i]) {
        if i < n { assert packets[i] == before[i]; }
      }
    }
  }

  /** With headers on which writer, splitter and parser agree, a session sees the messages that were
      sent, each with its acknowledgement and in order, however the stream is cut into reads. */
  method ReceiveAgreed(chunks: seq<seq<byte>>, wellFormed: seq<byte> -> bool,
                       ghost headers: seq<seq<byte>>, ghost ms: seq<Message>, ghost cycles: seq<u32>)
    returns (events: seq<Event>, rest: seq<byte>)
    requires AllAgree(headers, ms, cycles, wellFormed) && Join(chunks) == Join(Packets(headers, ms))
    ensures events == AllDelivered(ms, cycles, wellFormed) && rest == []
  {
    hide Agrees, Sendable, Delivered, Handle, Delimited, Payload, Each, Split;
    var session := new Session(wellFormed);
    session.Run(chunks);
    AgreedFrames(headers, ms, cycles, wellFormed);
    DelimitedSplit(SESSION, Packets(headers, ms));
    return session.events, session.frameBuf;
  }

  // ------------------------------------------------- as the simulator writes

  // What the parser takes for the payload of a written scan.
  function Shifted(s: L.Scan): seq<byte> {
    var p := L.EncodeLaser(s);
    ([0, 0, 0, 0] + p)[..|p| % 0x1_0000]
  }

  const BLANK := L.Scan(0, 0, 0, (0, 0, 0, 0), 0, false, [], [])

  ghost predicate ZeroUpTo(data: seq<byte>, n: nat) {
    n <= |data| && forall i :: 0 <= i < n ==> data[i] == 0
  }

  lemma {:induction false} NumOfZeros(s: seq<byte>)
    requires ZeroUpTo(s, |s|)
    ensures Num(s) == 0
  {
    if s != [] { NumOfZeros(s[1..]); }
  }

  lemma {:induction false} ZerosOfNum(s: seq<byte>)
    requires Num(s) == 0
    ensures ZeroUpTo(s, |s|)
  {
    if s != [] {
      ZerosOfNum(s[1..]);
      assert forall i :: 1 <= i < |s| ==> s[i] == s[1..][i - 1];
    }
  }

  lemma {:induction false} ZeroFields(data: seq<byte>, widths: seq<nat>)
    requires ZeroUpTo(data, W.Total(widths))
    ensures W.Fields(data, 0, widths).Some?
    ensures forall i :: 0 <= i < |widths| ==> W.Fields(data, 0, widths).value[i] == 0
  {
    if widths != [] {
      var n := |widths| - 1;
      ZeroFields(data, widths[..n]);
      var at := W.Total(widths[..n]);
      NumOfZeros(data[at..at + widths[n]]);
    }
  }

  // The first eight fields of the header, all but the flag and the count.
  lemma FirstEight(data: seq<byte>, h: L.Head)
    requires L.DecodeHead(data) == Some(h)
    ensures |data| >= 61 && W.Total(W.LASER_LAYOUT[..8]) == 56
    ensures W.Fields(data, 0, W.LASER_LAYOUT[..8]) == Some(L.HeadWords(h)[..8])
    ensures data[56] == h.flag && Num(data[57..61]) == h.count
  {
    hide W.Fields, W.Total, L.HeadWords, L.DecodeHead, Num;
    HeadPlaces();
    HeadIsFields(data, h);
    LastTwo(data, W.LASER_LAYOUT, L.HeadWords(h));
    OneByte(data[56..57]);
    FlagAndCount(h);
  }

  lemma FlagAndCount(h: L.Head)
    ensures L.HeadWords(h)[8] == h.flag && L.HeadWords(h)[9] == h.count
  {
  }

  lemma LastTwo(data: seq<byte>, widths: seq<nat>, vals: seq<nat>)
    requires |widths| == |vals| == 10 && W.Fields(data, 0, widths) == Some(vals)
    ensures W.Fields(data, 0, widths[..8]) == Some(vals[..8])
    ensures Read(data, W.Total(widths[..8]), widths[8]) == Some(vals[8])
    ensures Read(data, W.Total(widths[..9]), widths[9]) == Some(vals[9])
  {
    hide W.Fields, W.Total, Read;
    W.FieldsLast(data, 0, widths, vals);
    assert widths[..9][..8] == widths[..8] && vals[..9][..8] == vals[..8];
    W.FieldsLast(data, 0, widths[..9], vals[..9]);
  }

  lemma HeadPlaces()
    ensures W.Total(W.LASER_LAYOUT[..8]) == 56 && W.Total(W.LASER_LAYOUT[..9]) == 57
  {
    var w := W.LASER_LAYOUT;
    assert w[..9] == [4, 4] + [8, 8, 8, 8, 8, 8] + [1] && w[..8] == [4, 4] + [8, 8, 8, 8, 8, 8];
    W.TotalConcat([4, 4], [8, 8, 8, 8, 8, 8]);
    W.TotalConcat([4, 4] + [8, 8, 8, 8, 8, 8], [1]);
    W.TotalOfEqual([4, 4], 4);
    W.TotalOfEqual([8, 8, 8, 8, 8, 8], 8);
    W.TotalOfEqual([1], 1);
  }

  lemma HeadIsFields(data: seq<byte>, h: L.Head)
    requires L.DecodeHead(data) == Some(h)
    ensures W.Fields(data, 0, W.LASER_LAYOUT) == Some(L.HeadWords(h))
  {
    hide W.Fields;
    assert W.Fields(data, 0, W.LASER_LAYOUT).value == L.HeadWords(h);
  }

  lemma OneByte(s: seq<byte>)
    requires |s| == 1
    ensures Num(s) == s[0]
  {
    assert s[1..] == [];
  }

  lemma {:induction false} ShiftedZeros(p: seq<byte>, d: seq<byte>, n: nat)
    requires n + 4 <= |d| && n <= |p| && d[..4] == [0, 0, 0, 0]
    requires forall i :: 4 <= i < |d| && i < |p| + 4 ==> d[i] == p[i - 4]
    requires forall i :: 0 <= i < n ==> d[i] == p[i]
    ensures ZeroUpTo(p, n) && ZeroUpTo(d, n + 4)
  {
    if n == 0 {
      assert forall i :: 0 <= i < 4 ==> d[i] == d[..4][i];
    } else {
      ShiftedZeros(p, d, n - 1);
      assert d[n - 1] == p[n - 1] == 0 by { assert ZeroUpTo(d, n + 3); }
      assert d[n + 3] == p[n - 1];
    }
  }

  // Two byte strings that decode to the same first fields begin with the same bytes.
  lemma SameStart(a: seq<byte>, b: seq<byte>, vals: seq<nat>)
    requires |vals| == 8 && W.Fields(a, 0, W.LASER_LAYOUT[..8]) == Some(vals) == W.Fields(b, 0, W.LASER_LAYOUT[..8])
    ensures |a| >= 56 && |b| >= 56 && a[..56] == b[..56]
  {
    hide W.Fields, W.PutFields, W.Fit, W.Total;
    var w := W.LASER_LAYOUT[..8];
    HeadPlaces();
    W.FieldsIff(a, 0, w, vals);
    W.FieldsIff(b, 0, w, vals);
    var enc := W.PutFields(vals, w);
    assert |enc| == 56;
    W.AtIsSlice(a, 0, enc);
    W.AtIsSlice(b, 0, enc);
  }

  lemma {:induction false} ZeroPut(vals: seq<nat>, widths: seq<nat>)
    requires |vals| == |widths| && forall i :: 0 <= i < |vals| ==> vals[i] == 0
    ensures ZeroUpTo(W.PutFields(vals, widths), W.Total(widths))
  {
    if widths != [] {
      var n := |widths| - 1;
      ZeroPut(vals[..n], widths[..n]);
      ZeroBytes(widths[n]);
    }
  }

  lemma {:induction false} ZeroBytes(n: nat)
    ensures ZeroUpTo(LE(0, n), n)
  {
    if n > 0 {
      ZeroBytes(n - 1);
      assert LE(0, n) == [0] + LE(0, n - 1);
    }
  }

  lemma BlankBytes()
    ensures |L.EncodeLaser(BLANK)| == 65 && ZeroUpTo(L.EncodeLaser(BLANK), 65)
  {
    ZeroPut(L.HeadWords(L.HeadOf(BLANK)), W.LASER_LAYOUT);
    L.HeadSize();
    ZeroBytes(4);
    assert L.EncodeCracks([]) == [];
  }

  lemma BlankSurvives(wellFormed: seq<byte> -> bool)
    ensures L.DecodeLaser(Shifted(BLANK), wellFormed) == Ok(L.Received(BLANK))
  {
    hide L.DecodeLaser, L.Received, L.EncodeLaser;
    BlankBytes();
    var p := L.EncodeLaser(BLANK);
    assert ([0, 0, 0, 0] + p)[..65] == p == p + [];
    L.LaserRoundTrip(BLANK, [], wellFormed);
  }

  lemma WrittenHead(s: L.Scan)
    ensures L.DecodeHead(L.EncodeLaser(s)) == Some(L.HeadOf(s))
  {
    hide L.DecodeHead, L.EncodeHead, L.HeadOf;
    var head, p := L.EncodeHead(L.HeadOf(s)), L.EncodeLaser(s);
    var rest := L.EncodeCracks(s.cracks) + LE(|s.json|, 4) + s.json;
    assert p == head + rest && W.At(p, 0, p);
    W.AtConcat(p, 0, head, rest);
    L.HeadIff(p, L.HeadOf(s));
  }

  lemma ReceivedHead(d: seq<byte>, s: L.Scan, wellFormed: seq<byte> -> bool) returns (h: L.Head)
    requires |s.cracks| < 0x8000_0000 && L.DecodeLaser(d, wellFormed) == Ok(L.Received(s))
    ensures L.DecodeHead(d) == Some(h) && L.HeadWords(h)[..8] == L.HeadWords(L.HeadOf(s))[..8]
    ensures (h.flag != 0 <==> s.crackDetected) && ToI32(h.count) == |s.cracks|
    ensures L.JsonText(d, 61 + L.CracksSize(s.cracks)) == Some(L.Kept(s.json))
  {
    hide L.DecodeHead, L.DecodeCracks, L.JsonText;
    h := L.DecodeHead(d).value;
    assert ToU32(ToI32(h.sensorId)) == h.sensorId && ToU32(ToI32(h.porcelainId)) == h.porcelainId;
  }

  // If the shifted bytes hold the first eight numbers of the scan, all bytes up to the count are zero.
  lemma StartIsZero(s: L.Scan, h: L.Head)
    requires |s.cracks| < 0x8000_0000
    requires L.DecodeHead(Shifted(s)) == Some(h) && L.HeadWords(h)[..8] == L.HeadWords(L.HeadOf(s))[..8]
    requires (h.flag != 0 <==> s.crackDetected) && ToI32(h.count) == |s.cracks|
    ensures ZeroUpTo(L.EncodeLaser(s), 61) && |Shifted(s)| >= 61 && s.cracks == [] && !s.crackDetected
  {
    hide L.DecodeHead, L.EncodeLaser, L.HeadWords, ZeroUpTo;
    var p, d := L.EncodeLaser(s), Shifted(s);
    WrittenHead(s);
    FirstEight(d, h);
    FirstEight(p, L.HeadOf(s));
    SameStart(d, p, L.HeadWords(h)[..8]);
    ZeroRest(p, d, h, L.HeadOf(s));
  }

  lemma ZeroRest(p: seq<byte>, d: seq<byte>, h: L.Head, g: L.Head)
    requires |p| >= 61 && |d| >= 61 && |d| <= |p| + 4 && d[..56] == p[..56] && d == ([0, 0, 0, 0] + p)[..|d|]
    requires d[56] == h.flag && Num(d[57..61]) == h.count && p[56] == g.flag && Num(p[57..61]) == g.count
    requires h.flag == 0 ==> g.flag == 0
    requires h.count == 0 ==> g.count == 0
    ensures h.flag == 0 && h.count == 0 && ZeroUpTo(p, 61)
  {
    assert forall i :: 0 <= i < 56 ==> d[i] == d[..56][i] == p[..56][i] == p[i];
    ShiftedZeros(p, d, 56);
    assert d[60] == p[56] == 0;
    NumOfZeros(d[57..61]);
    ZerosOfNum(p[57..61]);
    assert forall i :: 57 <= i < 61 ==> p[i] == p[57..61][i - 57];
  }

  lemma OnlyBlankSurvives(s: L.Scan, wellFormed: seq<byte> -> bool)
    requires |s.cracks| < 0x8000_0000 && L.DecodeLaser(Shifted(s), wellFormed) == Ok(L.Received(s))
    ensures s == BLANK
  {
    hide L.DecodeLaser, L.Received, L.EncodeLaser, L.DecodeHead, Shifted, L.HeadWords;
    var h := ReceivedHead(Shifted(s), s, wellFormed);
    StartIsZero(s, h);
    TextIsEmpty(s);
    NumbersAreZero(s);
  }

  lemma SliceShifts(p: seq<byte>, d: seq<byte>)
    requires 65 <= |d| <= |p| + 4 && d == ([0, 0, 0, 0] + p)[..|d|]
    ensures d[61..65] == p[57..61]
  {
    assert d[61..65] == ([0, 0, 0, 0] + p)[61..65];
  }

  lemma TextIsEmpty(s: L.Scan)
    requires s.cracks == [] && ZeroUpTo(L.EncodeLaser(s), 61)
    requires L.JsonText(Shifted(s), 61 + L.CracksSize(s.cracks)) == Some(L.Kept(s.json))
    ensures s.json == []
  {
    hide L.EncodeLaser;
    var p, d := L.EncodeLaser(s), Shifted(s);
    assert L.CracksSize(s.cracks) == 0 && L.JsonText(d, 61).Some?;
    assert |d| >= 65;
    SliceShifts(p, d);
    NumOfZeros(p[57..61]);
  }

  lemma NumbersAreZero(s: L.Scan)
    requires ZeroUpTo(L.EncodeLaser(s), 61)
    ensures s.sensorId == 0 && s.porcelainId == 0 && s.timestamp == 0 && s.scanArea == (0, 0, 0, 0) && s.resolution == 0
  {
    hide L.EncodeLaser, L.DecodeHead, W.Fields;
    WrittenHead(s);
    FirstEight(L.EncodeLaser(s), L.HeadOf(s));
    ZeroFields(L.EncodeLaser(s), W.LASER_LAYOUT[..8]);
    var words := L.HeadWords(L.HeadOf(s));
    assert forall i :: 0 <= i < 8 ==> words[i] == words[..8][i] == 0;
    assert words[0] == 0 && words[1] == 0 && words[2] == 0 && words[3] == 0 && words[4] == 0 && words[5] == 0
      && words[6] == 0 && words[7] == 0;
  }

  /** As the code stands, a scan that the simulator writes is received as itself exactly when it is
      blank: every number zero, no crack and no text. */
  lemma WrittenScanSurvivesIff(s: L.Scan, wellFormed: seq<byte> -> bool)
    requires |s.cracks| < 0x8000_0000
    ensures L.DecodeLaser(Shifted(s), wellFormed) == Ok(L.Received(s)) <==> s == BLANK
  {
    hide L.DecodeLaser, L.Received, Shifted;
    if s == BLANK { BlankSurvives(wellFormed); }
    if L.DecodeLaser(Shifted(s), wellFormed) == Ok(L.Received(s)) { OnlyBlankSurvives(s, wellFormed); }
  }

  // Two byte strings agree as far as both go.
  ghost predicate Agree(q: seq<byte>, p: seq<byte>) {
    forall i :: 0 <= i < |q| && i < |p| ==> q[i] == p[i]
  }

  /** A frame that begins as a written packet does, wherever it ends, parses to the shifted payload if it
      holds all of that, and to an error otherwise. */
  lemma FrameOfWritten(frameId: u16, cycle: u32, timestamp: u64, payload: seq<byte>, q: seq<byte>)
    requires |q| >= HEADER_SIZE && Agree(q, EncodePacket(frameId, cycle, timestamp, payload))
    ensures var n := |payload| % 0x1_0000;
      if |q| >= 20 + n
      then ParsePacket(q) == Ok(Packet(frameId, ([0, 0, 0, 0] + payload)[..n]))
      else ParsePacket(q).Err?
  {
    hide EncodePacket;
    var p, n := EncodePacket(frameId, cycle, timestamp, payload), |payload| % 0x1_0000;
    WrittenFields(frameId, cycle, timestamp, payload);
    NumOfTwo(frameId);
    NumOfTwo(n);
    assert q[0..2] == p[0..2];
    if |q| >= 20 {
      assert q[18..20] == p[18..20];
      if |q| >= 20 + n { assert q[20..20 + n] == p[20..20 + n] == p[20..][..n]; }
    }
  }

  // The splitter takes two bytes of the timestamp for the length of the first frame.
  lemma FirstFrameOfWritten(frameId: u16, cycle: u32, timestamp: u64, payload: seq<byte>, rest: seq<byte>)
    ensures var stream := EncodePacket(frameId, cycle, timestamp, payload) + rest;
      var bits := timestamp / 0x1_0000_0000 % 0x1_0000;
      var frames := Split(SESSION, stream).frames;
      && (frames != [] <==> |stream| >= 16 + bits)
      && (frames != [] ==> frames[0] == stream[..16 + bits])
  {
    hide EncodePacket;
    var p := EncodePacket(frameId, cycle, timestamp, payload);
    WrittenFields(frameId, cycle, timestamp, payload);
    assert (p + rest)[12..14] == p[8..16][4..6];
    TimestampMiddle(timestamp);
  }

  predicate ScanSeen(events: seq<Event>, r: L.LaserRecord) {
    events != [] && events[0].LaserSeen? && events[0].laser == r
  }

  /** What a session makes of a written scan whose packet starts a new frame: whatever has come before
      and comes after, the frame that starts there shows the scan as itself exactly when the scan is
      blank, bits 32 to 47 of the packet's timestamp, which the splitter takes for the length, are at
      least 69, and as many bytes have arrived; the frame may end inside the packet or run on into what
      follows. */
  lemma WrittenScanArrivesIff(before: seq<byte>, cycle: u32, timestamp: u64, s: L.Scan, rest: seq<byte>,
                              wellFormed: seq<byte> -> bool)
    requires |s.cracks| < 0x8000_0000 && Split(SESSION, before).rest == []
    ensures var stream := EncodePacket(LASER_DATA, cycle, timestamp, L.EncodeLaser(s)) + rest;
      var bits, k := timestamp / 0x1_0000_0000 % 0x1_0000, |Split(SESSION, before).frames|;
      var frames := Split(SESSION, before + stream).frames;
      && |frames| >= k && frames[..k] == Split(SESSION, before).frames
      && (|frames| > k && ScanSeen(Handle(frames[k], wellFormed), L.Received(s)) <==>
            s == BLANK && bits >= 69 && |stream| >= 16 + bits)
  {
    hide L.DecodeLaser, L.Received, L.EncodeLaser, EncodePacket, ParsePacket, Split;
    var payload := L.EncodeLaser(s);
    var p := EncodePacket(LASER_DATA, cycle, timestamp, payload);
    var bits := timestamp / 0x1_0000_0000 % 0x1_0000;
    SplitAfter(SESSION, before, p + rest);
    FirstFrameOfWritten(LASER_DATA, cycle, timestamp, payload, rest);
    WrittenScanSurvivesIff(s, wellFormed);
    if |p + rest| >= 16 + bits { FrameOfWritten(LASER_DATA, cycle, timestamp, payload, (p + rest)[..16 + bits]); }
    if s == BLANK { BlankBytes(); }
  }
}
