/** `parse_vibration_data` and `build_vibration_payload`. */
module VibrationCodec {
  import opened Wrappers
  import opened ByteCodec
  import opened ProfinetCodec
  import opened LaserCodec

  // ------------------------------------------------- the header

  datatype VibrationHead = VibrationHead(sensorId: u32, porcelainId: u32, timestamp: u64, rms: u64, peak: u64,
                                         frequency: u64, temperature: u32, humidity: u32, count: u32)

  function VibrationWords(h: VibrationHead): (r: seq<nat>)
    ensures |r| == |VIBRATION_LAYOUT|
  {
    [h.sensorId, h.porcelainId, h.timestamp, h.rms, h.peak, h.frequency, h.temperature, h.humidity, h.count]
  }

  predicate VibrationFit(v: seq<nat>) {
    && |v| == 9 && v[0] < 0x1_0000_0000 && v[1] < 0x1_0000_0000 && v[2] < 0x1_0000_0000_0000_0000
    && v[3] < 0x1_0000_0000_0000_0000 && v[4] < 0x1_0000_0000_0000_0000 && v[5] < 0x1_0000_0000_0000_0000
    && v[6] < 0x1_0000_0000 && v[7] < 0x1_0000_0000 && v[8] < 0x1_0000_0000
  }

  lemma VibrationFitIff(vals: seq<nat>)
    requires |vals| == 9
    ensures Fit(vals, VIBRATION_LAYOUT) <==> VibrationFit(vals)
  {
    Widths();
  }

  lemma VibrationHeadSize()
    ensures Total(VIBRATION_LAYOUT) == 52
  {
    var ids, reals, rest := [4, 4], [8, 8, 8, 8], [4, 4, 4];
    assert VIBRATION_LAYOUT == ids + reals + rest;
    TotalConcat(ids + reals, rest);
    TotalConcat(ids, reals);
    TotalOfEqual(ids, 4);
    TotalOfEqual(reals, 8);
    TotalOfEqual(rest, 4);
  }

  function ToVibrationHead(v: seq<nat>): VibrationHead
    requires VibrationFit(v)
  {
    VibrationHead(v[0], v[1], v[2], v[3], v[4], v[5], v[6], v[7], v[8])
  }

  function EncodeVibrationHead(h: VibrationHead): seq<byte> { PutFields(VibrationWords(h), VIBRATION_LAYOUT) }

  function DecodeVibrationHead(data: seq<byte>): Option<VibrationHead> {
    var vals := Fields(data, 0, VIBRATION_LAYOUT);
    if vals.None? then None else
    assert VibrationFit(vals.value) by {
      FieldsIff(data, 0, VIBRATION_LAYOUT, vals.value);
      VibrationFitIff(vals.value);
    }
    Some(ToVibrationHead(vals.value))
  }

  lemma VibrationHeadIff(data: seq<byte>, h: VibrationHead)
    ensures DecodeVibrationHead(data) == Some(h) <==> At(data, 0, EncodeVibrationHead(h))
  {
    FieldsIff(data, 0, VIBRATION_LAYOUT, VibrationWords(h));
    VibrationFitIff(VibrationWords(h));
    var vals := Fields(data, 0, VIBRATION_LAYOUT);
    if vals.Some? {
      FieldsIff(data, 0, VIBRATION_LAYOUT, vals.value);
      VibrationFitIff(vals.value);
      assert VibrationWords(ToVibrationHead(vals.value)) == vals.value;
    }
  }

  // ------------------------------------------------- the amplitudes

  function EncodeAmplitude(a: u64): seq<byte> { LE(a, 8) }

  function DecodeAmplitude(data: seq<byte>, offset: nat): Option<u64> {
    var a := Read(data, offset, 8);
    if a.None? then None else
    assert a.value < 0x1_0000_0000_0000_0000 by { Widths(); ReadAt(data, offset, 8, a.value); }
    Some(a.value)
  }

  function EncodeAmplitudes(amps: seq<u64>): seq<byte> { EncodeList(EncodeAmplitude, amps) }

  function DecodeAmplitudes(data: seq<byte>, offset: nat, n: nat): (r: Option<seq<u64>>)
    ensures r.Some? ==> |r.value| == n
  {
    DecodeList(DecodeAmplitude, EncodeAmplitude, data, offset, n)
  }

  lemma {:induction false} AmplitudesSize(amps: seq<u64>)
    ensures |EncodeAmplitudes(amps)| == 8 * |amps|
  {
    if amps != [] { AmplitudesSize(amps[..|amps| - 1]); }
  }

  lemma AmplitudesIff(data: seq<byte>, offset: nat, amps: seq<u64>)
    ensures DecodeAmplitudes(data, offset, |amps|) == Some(amps) <==> At(data, offset, EncodeAmplitudes(amps))
  {
    var ok := (_: u64) => true;
    forall at: nat, a: u64 ensures DecodeAmplitude(data, at) == Some(a) <==> ok(a) && At(data, at, EncodeAmplitude(a)) {
      Widths();
      ReadAt(data, at, 8, a);
    }
    ListIff(DecodeAmplitude, EncodeAmplitude, ok, data, offset, amps);
  }

  // ------------------------------------------------- the whole payload

  datatype VibrationRecord = VibrationRecord(sensorId: i32, porcelainId: i32, timestamp: u64, rms: u64, peak: u64,
                                             frequency: u64, temperature: u32, humidity: u32, amplitude: seq<u64>,
                                             json: Option<seq<byte>>)

  function RecordOf(h: VibrationHead, amps: seq<u64>, json: Option<seq<byte>>): VibrationRecord {
    VibrationRecord(ToI32(h.sensorId), ToI32(h.porcelainId), h.timestamp, h.rms, h.peak, h.frequency,
                    h.temperature, h.humidity, amps, json)
  }

  /** `wellFormed` says on which texts the JSON parser does not throw. */
  function DecodeVibration(data: seq<byte>, wellFormed: seq<byte> -> bool): Result<VibrationRecord, Error> {
    var head := DecodeVibrationHead(data);
    if head.None? then Err(OutOfRange) else
    var amps := DecodeAmplitudes(data, 52, head.value.count);
    if amps.None? then Err(OutOfRange) else
    var json := JsonText(data, 52 + 8 * head.value.count);
    if json.None? then Err(OutOfRange)
    else if json.value.Some? && !wellFormed(json.value.value) then Err(BadJson)
    else Ok(RecordOf(head.value, amps.value, json.value))
  }

  // What the simulator sends.
  datatype Vibration = Vibration(sensorId: i32, porcelainId: i32, timestamp: u64, rms: u64, peak: u64, frequency: u64,
                                 temperature: u32, humidity: u32, amplitude: seq<u64>, json: seq<byte>)

  function VibrationHeadOf(v: Vibration): VibrationHead {
    VibrationHead(ToU32(v.sensorId), ToU32(v.porcelainId), v.timestamp, v.rms, v.peak, v.frequency,
                  v.temperature, v.humidity, |v.amplitude| % 0x1_0000_0000)
  }

  function EncodeVibration(v: Vibration): seq<byte> {
    EncodeVibrationHead(VibrationHeadOf(v)) + EncodeAmplitudes(v.amplitude) + LE(|v.json|, 4) + v.json
  }

  function VibrationReceived(v: Vibration): VibrationRecord {
    VibrationRecord(v.sensorId, v.porcelainId, v.timestamp, v.rms, v.peak, v.frequency, v.temperature, v.humidity,
                    v.amplitude, Kept(v.json))
  }

  ghost predicate VibrationStands(data: seq<byte>, v: Vibration) {
    var j := 52 + 8 * |v.amplitude|;
    && At(data, 0, EncodeVibrationHead(VibrationHeadOf(v))) && At(data, 52, EncodeAmplitudes(v.amplitude))
    && At(data, j, LE(|v.json|, 4)) && At(data, j + 4, v.json)
  }

  lemma VibrationParts(v: Vibration, suffix: seq<byte>)
    ensures VibrationStands(EncodeVibration(v) + suffix, v)
  {
    var h, amps, len := EncodeVibrationHead(VibrationHeadOf(v)), EncodeAmplitudes(v.amplitude), LE(|v.json|, 4);
    var data := EncodeVibration(v) + suffix;
    assert |h| == 52 by { VibrationHeadSize(); }
    assert |amps| == 8 * |v.amplitude| by { AmplitudesSize(v.amplitude); }
    assert At(data, 0, data);
    AtConcat(data, 0, ((h + amps) + len) + v.json, suffix);
    AtConcat(data, 0, (h + amps) + len, v.json);
    AtConcat(data, 0, h + amps, len);
    AtConcat(data, 0, h, amps);
  }

  lemma VibrationFromParts(data: seq<byte>, h: VibrationHead, amps: seq<u64>, json: Option<seq<byte>>,
                           wellFormed: seq<byte> -> bool)
    requires json.Some? ==> wellFormed(json.value)
    requires DecodeVibrationHead(data) == Some(h) && DecodeAmplitudes(data, 52, h.count) == Some(amps)
    requires JsonText(data, 52 + 8 * h.count) == Some(json)
    ensures DecodeVibration(data, wellFormed) == Ok(RecordOf(h, amps, json))
  {
  }

  lemma StandingVibration(data: seq<byte>, v: Vibration)
    requires |v.json| < 0x1_0000_0000 && VibrationStands(data, v)
    ensures DecodeVibrationHead(data) == Some(VibrationHeadOf(v))
    ensures DecodeAmplitudes(data, 52, |v.amplitude|) == Some(v.amplitude)
    ensures JsonText(data, 52 + 8 * |v.amplitude|) == Some(Kept(v.json))
  {
    VibrationHeadIff(data, VibrationHeadOf(v));
    AmplitudesIff(data, 52, v.amplitude);
    JsonRoundTrip(data, 52 + 8 * |v.amplitude|, v.json);
  }

  lemma VibrationRecordOfHead(v: Vibration)
    requires |v.amplitude| < 0x1_0000_0000
    ensures VibrationHeadOf(v).count == |v.amplitude|
    ensures RecordOf(VibrationHeadOf(v), v.amplitude, Kept(v.json)) == VibrationReceived(v)
  {
    assert ToI32(ToU32(v.sensorId)) == v.sensorId && ToI32(ToU32(v.porcelainId)) == v.porcelainId;
  }

  lemma AsReceived(v: Vibration)
    ensures var r := VibrationReceived(v);
      && r.sensorId == v.sensorId && r.porcelainId == v.porcelainId && r.timestamp == v.timestamp
      && r.rms == v.rms && r.peak == v.peak && r.frequency == v.frequency
      && r.temperature == v.temperature && r.humidity == v.humidity && r.amplitude == v.amplitude
      && r.json == if v.json == [] then None else Some(v.json)
  {
  }

  /** Decoding an encoded vibration record, whatever follows it, gives it back. */
  lemma VibrationRoundTrip(v: Vibration, suffix: seq<byte>, wellFormed: seq<byte> -> bool)
    requires |v.amplitude| < 0x1_0000_0000 && |v.json| < 0x1_0000_0000
    requires v.json != [] ==> wellFormed(v.json)
    ensures DecodeVibration(EncodeVibration(v) + suffix, wellFormed) == Ok(VibrationReceived(v))
    ensures var r := DecodeVibration(EncodeVibration(v) + suffix, wellFormed).value;
      && r.sensorId == v.sensorId && r.porcelainId == v.porcelainId && r.timestamp == v.timestamp
      && r.rms == v.rms && r.peak == v.peak && r.frequency == v.frequency
      && r.temperature == v.temperature && r.humidity == v.humidity && r.amplitude == v.amplitude
      && r.json == if v.json == [] then None else Some(v.json)
  {
    AsReceived(v);
    hide DecodeVibrationHead, DecodeAmplitudes, JsonText, DecodeVibration, VibrationStands, RecordOf, VibrationReceived,
         VibrationHeadOf, EncodeVibration;
    var data := EncodeVibration(v) + suffix;
    VibrationParts(v, suffix);
    StandingVibration(data, v);
    VibrationRecordOfHead(v);
    VibrationFromParts(data, VibrationHeadOf(v), v.amplitude, Kept(v.json), wellFormed);
  }

  // The fields of a decoded record, as the simulator would send them.
  function VibrationAgain(r: VibrationRecord): Vibration {
    Vibration(r.sensorId, r.porcelainId, r.timestamp, r.rms, r.peak, r.frequency, r.temperature, r.humidity,
              r.amplitude, [])
  }

  /** Arbitrary bytes: what is accepted holds its declared amplitudes, and re-encoding the decoded
      fields always reproduces the bytes consumed before the JSON tail. */
  lemma AcceptedVibrationReencodes(data: seq<byte>, wellFormed: seq<byte> -> bool)
    requires DecodeVibration(data, wellFormed).Ok?
    ensures var r := DecodeVibration(data, wellFormed).value;
      && 56 + 8 * |r.amplitude| <= |data|
      && data[..52 + 8 * |r.amplitude|] ==
        EncodeVibrationHead(VibrationHeadOf(VibrationAgain(r))) + EncodeAmplitudes(r.amplitude)
  {
    var r := DecodeVibration(data, wellFormed).value;
    var head := DecodeVibrationHead(data).value;
    assert VibrationHeadOf(VibrationAgain(r)) == head;
    VibrationPrefix(data, head, r.amplitude);
  }

  lemma VibrationPrefix(data: seq<byte>, h: VibrationHead, amps: seq<u64>)
    requires 52 + 8 * |amps| <= |data|
    requires DecodeVibrationHead(data) == Some(h) && DecodeAmplitudes(data, 52, |amps|) == Some(amps)
    ensures data[..52 + 8 * |amps|] == EncodeVibrationHead(h) + EncodeAmplitudes(amps)
  {
    VibrationHeadIff(data, h);
    AmplitudesIff(data, 52, amps);
    assert |EncodeVibrationHead(h)| == 52 by { VibrationHeadSize(); }
    AmplitudesSize(amps);
    AtConcat(data, 0, EncodeVibrationHead(h), EncodeAmplitudes(amps));
    AtIsSlice(data, 0, EncodeVibrationHead(h) + EncodeAmplitudes(amps));
  }

  // ------------------------------------------------- the loops

  method ReadVibrationHead(data: seq<byte>) returns (r: Option<VibrationHead>)
    ensures r == DecodeVibrationHead(data)
  {
    var vals := ReadFields(data, 0, VIBRATION_LAYOUT);
    if vals.None? { return None; }
    FieldsIff(data, 0, VIBRATION_LAYOUT, vals.value);
    VibrationFitIff(vals.value);
    return Some(ToVibrationHead(vals.value));
  }

  lemma AmplitudeIsRead(data: seq<byte>, offset: nat)
    ensures DecodeAmplitude(data, offset) == Read(data, offset, 8)
  {
  }

  method ReadAmplitudes(data: seq<byte>, offset: nat, count: nat) returns (r: Option<seq<u64>>)
    ensures r == DecodeAmplitudes(data, offset, count)
  {
    hide Read, DecodeAmplitude, EncodeAmplitude;
    var amps, at := [], offset;
    for i := 0 to count
      invariant DecodeAmplitudes(data, offset, i) == Some(amps) && at == offset + 8 * i
    {
      AmplitudesSize(amps);
      ListNext(DecodeAmplitude, EncodeAmplitude, data, offset, amps, count);
      var a := ReadUnsigned(data, at, 8);
      if a.None? {
        AmplitudeIsRead(data, at);
        return None;
      }
      assert DecodeAmplitude(data, at) == Some(a.value) by { AmplitudeIsRead(data, at); }
      amps, at := amps + [a.value], at + 8;
    }
    return Some(amps);
  }

  /** `parse_vibration_data`. */
  method ParseVibrationData(payload: seq<byte>, wellFormed: seq<byte> -> bool)
    returns (r: Result<VibrationRecord, Error>)
    ensures r == DecodeVibration(payload, wellFormed)
  {
    hide DecodeVibrationHead, DecodeAmplitudes, JsonText;
    var head := ReadVibrationHead(payload);
    if head.None? { return Err(OutOfRange); }
    var amps := ReadAmplitudes(payload, 52, head.value.count);
    if amps.None? { return Err(OutOfRange); }
    var json := ReadJson(payload, 52 + 8 * head.value.count);
    if json.None? { return Err(OutOfRange); }
    if json.value.Some? && !wellFormed(json.value.value) { return Err(BadJson); }
    return Ok(RecordOf(head.value, amps.value, json.value));
  }

  /** `build_vibration_payload`. */
  method BuildVibrationPayload(v: Vibration) returns (r: seq<byte>)
    ensures r == EncodeVibration(v)
  {
    hide VibrationHeadOf, VibrationWords, LE;
    r := AppendFields([], VibrationWords(VibrationHeadOf(v)), VIBRATION_LAYOUT);
    ghost var head := r;
    for i := 0 to |v.amplitude|
      invariant r == head + EncodeAmplitudes(v.amplitude[..i])
    {
      assert v.amplitude[..i + 1][..i] == v.amplitude[..i];
      r := Append(r, v.amplitude[i], 8);
    }
    assert v.amplitude[..|v.amplitude|] == v.amplitude;
    r := Append(r, |v.json|, 4);
    r := r + v.json;
  }
}
