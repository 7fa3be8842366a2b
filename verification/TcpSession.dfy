/** A sensor's TCP session: `TcpSession::do_read` and `try_parse_frames`, `ProfinetParser::parse`,
    and the packets the simulator really writes. */
module TcpSession {
  import opened Wrappers
  import opened ByteCodec
  import opened FrameSplitter
  import L = LaserCodec
  import V = VibrationCodec
  import W = ProfinetCodec

  const HEADER_SIZE: nat := 16
  const MAX_FRAME_BUF_SIZE: nat := 4 * 1024 * 1024
  const SESSION := Format(HEADER_SIZE, 12)
  const LASER_DATA: u16 := 0x8001
  const VIBRATION_DATA: u16 := 0x8002

  // ------------------------------------------------- one frame

  datatype Packet = Packet(frameId: nat, payload: seq<byte>)

  datatype FrameError = TooSmall | OutOfRange | Incomplete

  function ParsePacket(data: seq<byte>): Result<Packet, FrameError> {
    if |data| < HEADER_SIZE then Err(TooSmall) else
    if Read(data, 16, 2).None? || Read(data, 18, 2).None? then Err(OutOfRange) else
    var length := Read(data, 18, 2).value;
    if |data| >= HEADER_SIZE + 4 + length
      then Ok(Packet(Num(data[0..2]), data[HEADER_SIZE + 4..HEADER_SIZE + 4 + length]))
    else Err(Incomplete)
  }

  /** `ProfinetParser::parse`; the header fields that are read and dropped can still throw. */
  method Parse(data: seq<byte>) returns (r: Result<Packet, FrameError>)
    ensures r == ParsePacket(data)
  {
    if |data| < HEADER_SIZE { return Err(TooSmall); }
    var frameId := ReadUnsigned(data, 0, 2);
    var status := ReadUnsigned(data, 16, 2);
    if status.None? { return Err(OutOfRange); }
    var length := ReadUnsigned(data, 18, 2);
    if length.None? { return Err(OutOfRange); }
    if |data| >= HEADER_SIZE + 4 + length.value {
      return Ok(Packet(frameId.value, data[HEADER_SIZE + 4..HEADER_SIZE + 4 + length.value]));
    }
    return Err(Incomplete);
  }

  // A callback with its data, or an acknowledgement with the frame's cycle counter.
  datatype Event =
    | LaserSeen(packet: Packet, laser: L.LaserRecord)
    | VibrationSeen(packet: Packet, vibration: V.VibrationRecord)
    | Acknowledged(cycle: nat)

  // An exception anywhere in between leaves no event at all.
  function Handle(frame: seq<byte>, wellFormed: seq<byte> -> bool): seq<Event>
  {
    var parsed := ParsePacket(frame);
    if parsed.Err? then [] else
    var packet := parsed.value;
    var ack := [Acknowledged(Num(frame[4..8]))];
    if packet.frameId == LASER_DATA then
      var laser := L.DecodeLaser(packet.payload, wellFormed);
      if laser.Err? then [] else [LaserSeen(packet, laser.value)] + ack
    else if packet.frameId == VIBRATION_DATA then
      var vibration := V.DecodeVibration(packet.payload, wellFormed);
      if vibration.Err? then [] else [VibrationSeen(packet, vibration.value)] + ack
    else ack
  }

  // The frame holds the payload that its length field says, behind 20 bytes.
  ghost predicate Whole(frame: seq<byte>) { |frame| >= 20 && |frame| >= 20 + Num(frame[18..20]) }

  ghost function PayloadOf(frame: seq<byte>): seq<byte>
    requires Whole(frame)
  {
    frame[20..20 + Num(frame[18..20])]
  }

  /** When a frame is answered: it must be whole, and decode as what its first two bytes say, if these are
      0x8001 or 0x8002. The acknowledgement then comes last, with bytes 4 to 8; a laser or vibration callback,
      and nothing else, comes before it. */
  lemma AnsweredIff(frame: seq<byte>, wellFormed: seq<byte> -> bool)
    ensures Handle(frame, wellFormed) != [] <==>
      && Whole(frame)
      && (Num(frame[0..2]) == 0x8001 ==> L.DecodeLaser(PayloadOf(frame), wellFormed).Ok?)
      && (Num(frame[0..2]) == 0x8002 ==> V.DecodeVibration(PayloadOf(frame), wellFormed).Ok?)
    ensures Handle(frame, wellFormed) != [] ==>
      var seen, id, packet := Handle(frame, wellFormed), Num(frame[0..2]), Packet(Num(frame[0..2]), PayloadOf(frame));
      && |seen| == (if id == 0x8001 || id == 0x8002 then 2 else 1)
      && seen[|seen| - 1] == Acknowledged(Num(frame[4..8]))
      && (id == 0x8001 ==> seen[0] == LaserSeen(packet, L.DecodeLaser(packet.payload, wellFormed).value))
      && (id == 0x8002 ==> seen[0] == VibrationSeen(packet, V.DecodeVibration(packet.payload, wellFormed).value))
  {
    hide L.DecodeLaser, V.DecodeVibration, Num;
  }

  method HandleFrame(frame: seq<byte>, wellFormed: seq<byte> -> bool) returns (r: seq<Event>)
    ensures r == Handle(frame, wellFormed)
  {
    var parsed := Parse(frame);
    if parsed.Err? { return []; }
    var packet := parsed.value;
    r := [];
    if packet.frameId == LASER_DATA {
      var laser := L.ParseLaserData(packet.payload, wellFormed);
      if laser.Err? { return []; }
      r := [LaserSeen(packet, laser.value)];
    } else if packet.frameId == VIBRATION_DATA {
      var vibration := V.ParseVibrationData(packet.payload, wellFormed);
      if vibration.Err? { return []; }
      r := [VibrationSeen(packet, vibration.value)];
    }
    var cycle := ReadUnsigned(frame, 4, 4);
    r := r + [Acknowledged(cycle.value)];
  }

  // ------------------------------------------------- the stream

  function OnFrame(wellFormed: seq<byte> -> bool): seq<byte> -> seq<Event> { frame => Handle(frame, wellFormed) }

  class Session {
    var frameBuf: seq<byte>
    var events: seq<Event>
    const wellFormed: seq<byte> -> bool

    constructor (wellFormed: seq<byte> -> bool)
      ensures frameBuf == [] && events == [] && this.wellFormed == wellFormed
    {
      frameBuf, events := [], [];
      this.wellFormed := wellFormed;
    }

    method TryParseFrames()
      modifies this
      ensures frameBuf == Split(SESSION, old(frameBuf)).rest
      ensures events == old(events) + Each(OnFrame(wellFormed), Split(SESSION, old(frameBuf)).frames)
    {
      ghost var whole := Split(SESSION, frameBuf);
      ghost var done: seq<seq<byte>> := [];
      while |frameBuf| >= HEADER_SIZE
        invariant whole == Cut(done + Split(SESSION, frameBuf).frames, Split(SESSION, frameBuf).rest)
        invariant events == old(events) + Each(OnFrame(wellFormed), done)
        decreases |frameBuf|
      {
        var payloadLen := ReadUnsigned(frameBuf, 12, 2);
        var frameTotal := HEADER_SIZE + payloadLen.value;
        if |frameBuf| < frameTotal { break; }
        var frame := frameBuf[..frameTotal];
        var seen := HandleFrame(frame, wellFormed);
        EachNext(OnFrame(wellFormed), done, frame, Split(SESSION, frameBuf[frameTotal..]).frames);
        Assoc(old(events), Each(OnFrame(wellFormed), done), seen);
        events := events + seen;
        done := done + [frame];
        frameBuf := frameBuf[frameTotal..];
      }
      assert !Complete(SESSION, frameBuf) && done + [] == done;
      ResidueBound(SESSION, old(frameBuf));
      frameBuf := if |frameBuf| > MAX_FRAME_BUF_SIZE then [] else frameBuf;
    }

    /** One completed read. */
    method DoRead(chunk: seq<byte>)
      modifies this
      ensures frameBuf == Split(SESSION, old(frameBuf) + chunk).rest
      ensures events == old(events) + Each(OnFrame(wellFormed), Split(SESSION, old(frameBuf) + chunk).frames)
    {
      frameBuf := frameBuf + chunk;
      TryParseFrames();
    }

    /** A whole connection: whatever the reads deliver at a time, the events and the bytes left are
        those of the frames of the one-shot split. */
    method Run(chunks: seq<seq<byte>>)
      requires frameBuf == []
      modifies this
      ensures frameBuf == Split(SESSION, Join(chunks)).rest
      ensures events == old(events) + Each(OnFrame(wellFormed), Split(SESSION, Join(chunks)).frames)
      ensures |frameBuf| < 65551 <= MAX_FRAME_BUF_SIZE
    {
      for i := 0 to |chunks|
        invariant Arrived(SESSION, chunks[..i]).rest == frameBuf
        invariant events == old(events) + Each(OnFrame(wellFormed), Arrived(SESSION, chunks[..i]).frames)
      {
        ghost var seen := Arrived(SESSION, chunks[..i]).frames;
        NextChunk(chunks, i);
        EachAppend(OnFrame(wellFormed), seen, Split(SESSION, frameBuf + chunks[i]).frames);
        Assoc(old(events), Each(OnFrame(wellFormed), seen),
              Each(OnFrame(wellFormed), Split(SESSION, frameBuf + chunks[i]).frames));
        DoRead(chunks[i]);
      }
      assert chunks[..|chunks|] == chunks;
      ChunksDoNotMatter(SESSION, chunks);
      ResidueBound(SESSION, Join(chunks));
    }
  }

  lemma NextChunk(chunks: seq<seq<byte>>, i: nat)
    requires i < |chunks|
    ensures var before := Arrived(SESSION, chunks[..i]);
      var now := Split(SESSION, before.rest + chunks[i]);
      Arrived(SESSION, chunks[..i + 1]) == Cut(before.frames + now.frames, now.rest)
  {
    assert chunks[..i + 1][..i] == chunks[..i];
  }

  // ------------------------------------------------- what the simulator writes

  function WriterHeader(frameId: u16, cycle: u32, timestamp: u64, size: nat): (r: seq<byte>)
    ensures |r| == 24
  {
    LE(frameId, 2) + [1, 1] + LE(cycle, 4) + LE(timestamp, 8) + LE(1, 2) + LE(size % 0x1_0000, 2) + [0, 0, 0, 0]
  }

  function EncodePacket(frameId: u16, cycle: u32, timestamp: u64, payload: seq<byte>): (r: seq<byte>)
    ensures |r| == 24 + |payload|
  {
    WriterHeader(frameId, cycle, timestamp, |payload|) + payload
  }

  /** `build_profinet_packet`. */
  method BuildProfinetPacket(frameId: u16, cycle: u32, timestamp: u64, payload: seq<byte>) returns (r: seq<byte>)
    ensures r == EncodePacket(frameId, cycle, timestamp, payload)
  {
    r := Append([], frameId, 2);
    r := r + [1];
    r := r + [1];
    assert r == LE(frameId, 2) + [1, 1];
    r := Append(r, cycle, 4);
    r := Append(r, timestamp, 8);
    r := Append(r, 1, 2);
    r := Append(r, |payload| % 0x1_0000, 2);
    ghost var filled := r;
    r := r + [0];
    r := r + [0];
    r := r + [0];
    r := r + [0];
    assert r == filled + [0, 0, 0, 0];
    r := r + payload;
  }

  // Where the fields of a written packet stand.
  lemma WrittenFields(frameId: u16, cycle: u32, timestamp: u64, payload: seq<byte>)
    ensures var p := EncodePacket(frameId, cycle, timestamp, payload);
      && p[0..2] == LE(frameId, 2) && p[2..4] == [1, 1] && p[4..8] == LE(cycle, 4) && p[8..16] == LE(timestamp, 8)
      && p[16..18] == [1, 0] && p[18..20] == LE(|payload| % 0x1_0000, 2) && p[20..] == [0, 0, 0, 0] + payload
  {
    assert LE(1, 2) == [1, 0];
    FieldsStand(LE(frameId, 2), LE(cycle, 4), LE(timestamp, 8), LE(1, 2), LE(|payload| % 0x1_0000, 2), payload);
  }

  lemma FieldsStand(f: seq<byte>, c: seq<byte>, t: seq<byte>, s: seq<byte>, n: seq<byte>, payload: seq<byte>)
    requires |f| == 2 && |c| == 4 && |t| == 8 && |s| == 2 && |n| == 2
    ensures var p := f + [1, 1] + c + t + s + n + [0, 0, 0, 0] + payload;
      && p[0..2] == f && p[2..4] == [1, 1] && p[4..8] == c && p[8..16] == t && p[16..18] == s && p[18..20] == n
      && p[20..] == [0, 0, 0, 0] + payload
  {
    var head, tail := f + [1, 1] + c + t, [0, 0, 0, 0] + payload;
    var p := f + [1, 1] + c + t + s + n + [0, 0, 0, 0] + payload;
    assert p == head + s + n + tail;
    HeadStands(f, c, t, s + n + tail);
    assert p == head + (s + n + tail);
    assert p[16..18] == s && p[18..20] == n && p[20..] == tail;
  }

  lemma HeadStands(f: seq<byte>, c: seq<byte>, t: seq<byte>, rest: seq<byte>)
    requires |f| == 2 && |c| == 4 && |t| == 8
    ensures var p := f + [1, 1] + c + t + rest;
      p[0..2] == f && p[2..4] == [1, 1] && p[4..8] == c && p[8..16] == t
  {
  }

  lemma TimestampMiddle(timestamp: u64)
    ensures Num(LE(timestamp, 8)[4..6]) == timestamp / 0x1_0000_0000 % 0x1_0000
  {
    var middle := timestamp / 256 / 256 / 256 / 256;
    LEAt(timestamp, 8, 4);
    LEAt(timestamp, 8, 5);
    LEAt(middle, 2, 0);
    LEAt(middle, 2, 1);
    FourthShift(timestamp);
    assert LE(timestamp, 8)[4..6] == LE(middle, 2);
    NumOfTwo(middle);
  }

  lemma FourthShift(v: nat)
    ensures Shift(v, 4) == v / 256 / 256 / 256 / 256 == v / 0x1_0000_0000
    ensures Shift(v, 5) == Shift(v / 256 / 256 / 256 / 256, 1)
  {
    assert Shift(v, 4) == Shift(v / 256 / 256, 2) == Shift(v / 256 / 256 / 256 / 256, 0);
    assert v / 256 / 256 / 256 / 256 == v / 0x1_0000_0000;
    assert Shift(v, 5) == Shift(v / 256 / 256, 3) == Shift(v / 256 / 256 / 256 / 256, 1);
  }

  lemma LowBytes(v: nat)
    ensures LE(v, 2) == LE(v % 0x1_0000, 2)
  {
    assert v % 0x1_0000 % 256 == v % 256 && v % 0x1_0000 / 256 == v / 256 % 256;
  }

  lemma NumOfTwo(v: nat)
    ensures Num(LE(v, 2)) == v % 0x1_0000
  {
    assert Pow256(2) == 0x1_0000 by { assert Pow256(1) == 256; }
    assert LE(v, 2) == LE(v % 0x1_0000, 2) by { LowBytes(v); }
    NumOfLE(v % 0x1_0000, 2);
  }

  /** The splitter takes two bytes of the timestamp for the length: it sees a written packet as one
      frame exactly when those happen to say so. */
  lemma WrittenPacketIsOneFrame(frameId: u16, cycle: u32, timestamp: u64, payload: seq<byte>)
    ensures var p := EncodePacket(frameId, cycle, timestamp, payload);
      Split(SESSION, p) == Cut([p], []) <==> timestamp / 0x1_0000_0000 % 0x1_0000 == |payload| + 8
  {
    var p := EncodePacket(frameId, cycle, timestamp, payload);
    OneFrame(SESSION, p);
    WrittenFields(frameId, cycle, timestamp, payload);
    assert p[12..14] == p[8..16][4..6];
    TimestampMiddle(timestamp);
  }

  /** A written packet that leaves anything behind is acknowledged last, with its cycle counter. */
  lemma WrittenPacketAcknowledged(frameId: u16, cycle: u32, timestamp: u64, payload: seq<byte>,
                                  wellFormed: seq<byte> -> bool)
    requires Handle(EncodePacket(frameId, cycle, timestamp, payload), wellFormed) != []
    ensures var seen := Handle(EncodePacket(frameId, cycle, timestamp, payload), wellFormed);
      1 <= |seen| <= 2 && seen[|seen| - 1] == Acknowledged(cycle)
  {
    hide EncodePacket, L.DecodeLaser, V.DecodeVibration, ParsePacket;
    WrittenFields(frameId, cycle, timestamp, payload);
    assert Num(LE(cycle, 4)) == cycle by {
      W.Widths();
      NumOfLE(cycle, 4);
    }
  }

  /** The parser takes the four padding bytes for the start of the payload and misses its end. */
  lemma WrittenPacketParses(frameId: u16, cycle: u32, timestamp: u64, payload: seq<byte>)
    ensures ParsePacket(EncodePacket(frameId, cycle, timestamp, payload)) ==
      Ok(Packet(frameId, ([0, 0, 0, 0] + payload)[..|payload| % 0x1_0000]))
  {
    var p := EncodePacket(frameId, cycle, timestamp, payload);
    WrittenFields(frameId, cycle, timestamp, payload);
    NumOfTwo(frameId);
    NumOfTwo(|payload| % 0x1_0000);
    var n := |payload| % 0x1_0000;
    assert p[20..20 + n] == p[20..][..n];
  }

  /** So a payload survives writer and parser exactly when it is short and all zeros. */
  lemma WrittenPayloadSurvives(frameId: u16, cycle: u32, timestamp: u64, payload: seq<byte>)
    ensures ParsePacket(EncodePacket(frameId, cycle, timestamp, payload)) == Ok(Packet(frameId, payload)) <==>
      |payload| < 0x1_0000 && forall i :: 0 <= i < |payload| ==> payload[i] == 0
  {
    WrittenPacketParses(frameId, cycle, timestamp, payload);
    var shifted := [0, 0, 0, 0] + payload;
    if |payload| < 0x1_0000 {
      if shifted[..|payload|] == payload {
        forall i | 0 <= i < |payload| ensures payload[i] == 0 { ShiftedIsZero(payload, i); }
      }
      if forall i :: 0 <= i < |payload| ==> payload[i] == 0 {
        assert shifted[..|payload|] == payload;
      }
    } else {
      assert |shifted[..|payload| % 0x1_0000]| < |payload|;
    }
  }

  lemma {:induction false} ShiftedIsZero(payload: seq<byte>, i: nat)
    requires i < |payload| && ([0, 0, 0, 0] + payload)[..|payload|] == payload
    ensures payload[i] == 0
    decreases i
  {
    assert payload[i] == ([0, 0, 0, 0] + payload)[..|payload|][i];
    if i >= 4 { ShiftedIsZero(payload, i - 4); }
  }
}
