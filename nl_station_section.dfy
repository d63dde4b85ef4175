/**
 * Station section record (src/helper/nl2park/section/station-section.ts):
 * 97 bytes up to a one-byte count of the stations to synchronise dispatch
 * with, that many uint32 ids, then 165 bytes, 142 of them zero padding.
 */
module NoLimitsStationSection {
  import opened Wrappers
  import opened NoLimitsBytes
  import opened NoLimitsStream
  import opened NoLimitsBrakeSection

  /** The brake device of a station. */
  datatype BrakeDevice = BrakeDevice(deceleration: DoubleBits, brakeType: int)

  /** The dispatch timing of a station, with the stations it waits for. */
  datatype WaitTime = WaitTime(
    average: DoubleBits,
    minimum: DoubleBits,
    maximum: DoubleBits,
    deviation: DoubleBits,
    synchronizeDispatchWith: seq<int>)

  datatype StationSection = StationSection(
    useTransportDevice: bool,
    transportDevice: TransportDevice,
    brakeDevice: BrakeDevice,
    waitTime: WaitTime,
    unloadingOnly: bool,
    passes: int,
    shuttleBackwardsStart: bool,
    stationNumber: int,
    extraBlockLength: DoubleBits,
    gateDirection: int,
    display: int,
    entranceStairs: int,
    exitStairs: int,
    gatesColor: Color,
    railingsColor: Color,
    structureColor: Color)

  /** The loop of `writeStationSection` over the station ids, one uint32 each. */
  function IdsBytes(ids: seq<int>): (bytes: seq<byte>)
    ensures |bytes| == 4 * |ids|
  {
    if |ids| == 0 then [] else IdsBytes(ids[..|ids| - 1]) + WordBytes(ids[|ids| - 1])
  }

  /** The 97 bytes `writeStationSection` appends to c up to the id count. */
  function StationHeadBytes(c: seq<byte>, station: StationSection): (s: seq<byte>)
    ensures c <= s && |s| == |c| + 97
  {
    var device := station.transportDevice;
    var wait := station.waitTime;
    c + BoolBytes(station.useTransportDevice) + U8Bytes(device.transportType)
    + DoubleBytes(device.speed) + DoubleBytes(device.acceleration) + DoubleBytes(device.deceleration)
    + DoubleBytes(station.brakeDevice.deceleration)
    + DoubleBytes(wait.average) + DoubleBytes(wait.minimum) + DoubleBytes(wait.maximum) + DoubleBytes(wait.deviation)
    + BoolBytes(device.launch) + DoubleBytes(device.launchAcceleration) + DoubleBytes(device.launchMaxSpeed)
    + BoolBytes(station.unloadingOnly) + Zeros(3)
    + U8Bytes(station.passes) + BoolBytes(station.shuttleBackwardsStart) + WordBytes(station.stationNumber)
    + Zeros(3) + U8Bytes(|wait.synchronizeDispatchWith|)
  }

  /** The 165 bytes `writeStationSection` appends to y after the ids. */
  function StationTailBytes(y: seq<byte>, station: StationSection): (s: seq<byte>)
    ensures y <= s && |s| == |y| + 165
  {
    y + DoubleBytes(station.extraBlockLength)
    + U8Bytes(station.brakeDevice.brakeType) + U8Bytes(station.gateDirection) + U8Bytes(station.display)
    + U8Bytes(station.entranceStairs) + U8Bytes(station.exitStairs) + Zeros(1)
    + ColorBytes(station.gatesColor) + ColorBytes(station.railingsColor) + ColorBytes(station.structureColor)
    + Zeros(142)
  }

  /** The content after `writeStationSection` appended `station` to content `c`. */
  function StationWritten(c: seq<byte>, station: StationSection): (s: seq<byte>)
    ensures c <= s && |s| == |c| + 262 + 4 * |station.waitTime.synchronizeDispatchWith|
  {
    StationTailBytes(StationHeadBytes(c, station) + IdsBytes(station.waitTime.synchronizeDispatchWith), station)
  }

  /** The n uint32 ids read from position p on. */
  function IdsAt(s: seq<byte>, p: int, n: nat): seq<int>
    requires 0 <= p && p + 4 * n <= |s|
  {
    seq(n, i requires 0 <= i < n => Uint32At(s, p + 4 * i))
  }

  /** The fields `readStationSection` reads from position p, with n ids and the rest from q on. */
  function StationFields(s: seq<byte>, p: nat, n: nat, q: nat): StationSection
    requires p + 97 <= |s| && q == p + 97 + 4 * n && q + 23 <= |s|
  {
    StationSection(
      BoolAt(s, p),
      TransportDevice(U8At(s, p + 1), DoubleAt(s, p + 2), DoubleAt(s, p + 10), DoubleAt(s, p + 18),
        BoolAt(s, p + 66), DoubleAt(s, p + 67), DoubleAt(s, p + 75)),
      BrakeDevice(DoubleAt(s, p + 26), U8At(s, q + 8)),
      WaitTime(DoubleAt(s, p + 34), DoubleAt(s, p + 42), DoubleAt(s, p + 50), DoubleAt(s, p + 58), IdsAt(s, p + 97, n)),
      BoolAt(s, p + 83), U8At(s, p + 87), BoolAt(s, p + 88), Uint32At(s, p + 89),
      DoubleAt(s, q), U8At(s, q + 9), U8At(s, q + 10), U8At(s, q + 11), U8At(s, q + 12),
      ColorAt(s, q + 14), ColorAt(s, q + 17), ColorAt(s, q + 20))
  }

  /**
   * What `readStationSection` returns from position p, with the position
   * after it: None when the id count at offset 96, or the last colour, which
   * ends 23 bytes after the ids, lies past the end. The padding needs no bytes.
   */
  function DecodeStation(s: seq<byte>, p: nat): Option<(StationSection, nat)> {
    if p + 97 > |s| then None
    else
      var n := U8At(s, p + 96);
      var q := p + 97 + 4 * n;
      if q + 23 > |s| then None else Some((StationFields(s, p, n, q), q + 165))
  }

  /** The ids are uint32 values. */
  predicate IdsInRange(ids: seq<int>) {
    forall i :: 0 <= i < |ids| ==> 0 <= ids[i] < 0x1_0000_0000
  }

  /** The ids as they read back: each reduced modulo 2^32 by `writeUnsignedInteger`. */
  function MaskIds(ids: seq<int>): (masked: seq<int>)
    ensures |masked| == |ids| && (masked == ids <==> IdsInRange(ids))
  {
    var masked := seq(|ids|, i requires 0 <= i < |ids| => ids[i] % 0x1_0000_0000);
    assert masked == ids ==> IdsInRange(ids) by {
      if masked == ids {
        forall i | 0 <= i < |ids| ensures 0 <= ids[i] < 0x1_0000_0000 {
          assert masked[i] == ids[i];
        }
      }
    }
    masked
  }

  /** Every byte field is in 0..255, the station number and the ids are uint32 values, the colours are byte triples. */
  predicate StationInRange(station: StationSection) {
    0 <= station.transportDevice.transportType < 256 && 0 <= station.brakeDevice.brakeType < 256
    && 0 <= station.passes < 256 && 0 <= station.stationNumber < 0x1_0000_0000
    && IdsInRange(station.waitTime.synchronizeDispatchWith)
    && 0 <= station.gateDirection < 256 && 0 <= station.display < 256
    && 0 <= station.entranceStairs < 256 && 0 <= station.exitStairs < 256
    && MaskColor(station.gatesColor) == station.gatesColor && MaskColor(station.railingsColor) == station.railingsColor
    && MaskColor(station.structureColor) == station.structureColor
  }

  /** The record as it reads back: byte fields and colours masked, the station number and ids modulo 2^32. */
  function MaskStation(station: StationSection): (masked: StationSection)
    ensures masked == station <==> StationInRange(station)
  {
    station.(
      transportDevice := station.transportDevice.(transportType := Low8(station.transportDevice.transportType) as int),
      brakeDevice := station.brakeDevice.(brakeType := Low8(station.brakeDevice.brakeType) as int),
      waitTime := station.waitTime.(synchronizeDispatchWith := MaskIds(station.waitTime.synchronizeDispatchWith)),
      passes := Low8(station.passes) as int,
      stationNumber := station.stationNumber % 0x1_0000_0000,
      gateDirection := Low8(station.gateDirection) as int,
      display := Low8(station.display) as int,
      entranceStairs := Low8(station.entranceStairs) as int,
      exitStairs := Low8(station.exitStairs) as int,
      gatesColor := MaskColor(station.gatesColor),
      railingsColor := MaskColor(station.railingsColor),
      structureColor := MaskColor(station.structureColor))
  }

  /** `writeStationSection`. */
  method WriteStationSection(stream: Stream, station: StationSection)
    modifies stream
    ensures stream.content == StationWritten(old(stream.content), station)
    ensures stream.position == old(stream.position) + 262 + 4 * |station.waitTime.synchronizeDispatchWith|
  {
    WriteStationHead(stream, station);
    WriteIds(stream, station.waitTime.synchronizeDispatchWith);
    WriteStationTail(stream, station);
  }

  /** `writeStationSection` up to the id count. */
  method WriteStationHead(stream: Stream, station: StationSection)
    modifies stream
    ensures stream.content == StationHeadBytes(old(stream.content), station)
    ensures stream.position == old(stream.position) + 97
  {
    var device := station.transportDevice;
    var wait := station.waitTime;
    stream.WriteBoolean(station.useTransportDevice);
    stream.WriteUnsigned8(device.transportType);
    stream.WriteDouble(device.speed);
    stream.WriteDouble(device.acceleration);
    stream.WriteDouble(device.deceleration);
    stream.WriteDouble(station.brakeDevice.deceleration);
    stream.WriteDouble(wait.average);
    stream.WriteDouble(wait.minimum);
    stream.WriteDouble(wait.maximum);
    stream.WriteDouble(wait.deviation);
    stream.WriteBoolean(device.launch);
    stream.WriteDouble(device.launchAcceleration);
    stream.WriteDouble(device.launchMaxSpeed);
    stream.WriteBoolean(station.unloadingOnly);
    stream.WriteNull(3);
    stream.WriteUnsigned8(station.passes);
    stream.WriteBoolean(station.shuttleBackwardsStart);
    stream.WriteUnsignedInteger(station.stationNumber);
    stream.WriteNull(3);
    stream.WriteUnsigned8(|wait.synchronizeDispatchWith|);
  }

  /** `writeStationSection` after the ids. */
  method WriteStationTail(stream: Stream, station: StationSection)
    modifies stream
    ensures stream.content == StationTailBytes(old(stream.content), station)
    ensures stream.position == old(stream.position) + 165
  {
    stream.WriteDouble(station.extraBlockLength);
    stream.WriteUnsigned8(station.brakeDevice.brakeType);
    stream.WriteUnsigned8(station.gateDirection);
    stream.WriteUnsigned8(station.display);
    stream.WriteUnsigned8(station.entranceStairs);
    stream.WriteUnsigned8(station.exitStairs);
    stream.WriteNull(1);
    stream.WriteColor(station.gatesColor);
    stream.WriteColor(station.railingsColor);
    stream.WriteColor(station.structureColor);
    stream.WriteNull(142);
  }

  /** The loop of `writeStationSection` over the ids to synchronise dispatch with. */
  method WriteIds(stream: Stream, ids: seq<int>)
    modifies stream
    ensures stream.content == old(stream.content) + IdsBytes(ids)
    ensures stream.position == old(stream.position) + 4 * |ids|
  {
    for i := 0 to |ids|
      invariant stream.content == old(stream.content) + IdsBytes(ids[..i])
      invariant stream.position == old(stream.position) + 4 * i
    {
      stream.WriteUnsignedInteger(ids[i]);
      Associate(old(stream.content), IdsBytes(ids[..i]), WordBytes(ids[i]));
      assert ids[..i + 1][..i] == ids[..i];
    }
    assert ids[..|ids|] == ids;
  }

  /** `readStationSection`. */
  method ReadStationSection(stream: Stream) returns (station: StationSection)
    requires 0 <= stream.position && DecodeStation(stream.content, stream.position).Some?
    modifies stream
    ensures stream.content == old(stream.content)
    ensures (station, stream.position) == DecodeStation(stream.content, old(stream.position)).value
  {
    ghost var content, p := stream.content, stream.position;
    var useTransportDevice, device, brakeDeceleration, average, minimum, maximum, deviation := ReadStationDevice(stream);
    var unloadingOnly := stream.ReadBoolean();
    stream.ReadNull(3);
    var passes := stream.ReadUnsigned8();
    var shuttleBackwardsStart := stream.ReadBoolean();
    var stationNumber := stream.ReadUnsignedInteger();
    stream.ReadNull(3);
    var numSynchronizeDispatchWith := stream.ReadUnsigned8();
    var synchronizeDispatchWith := ReadIds(stream, numSynchronizeDispatchWith);
    var extraBlockLength, brakeType, gateDirection, display, entranceStairs, exitStairs, gatesColor, railingsColor,
      structureColor := ReadStationTail(stream);
    station := StationSection(useTransportDevice, device, BrakeDevice(brakeDeceleration, brakeType),
      WaitTime(average, minimum, maximum, deviation, synchronizeDispatchWith),
      unloadingOnly, passes, shuttleBackwardsStart, stationNumber, extraBlockLength,
      gateDirection, display, entranceStairs, exitStairs, gatesColor, railingsColor, structureColor);
  }

  /** `readStationSection` from the use flag to the launch top speed: 83 bytes. */
  method ReadStationDevice(stream: Stream)
    returns (useTransportDevice: bool, device: TransportDevice, brakeDeceleration: DoubleBits,
             average: DoubleBits, minimum: DoubleBits, maximum: DoubleBits, deviation: DoubleBits)
    requires 0 <= stream.position && stream.position + 83 <= |stream.content|
    modifies stream
    ensures stream.content == old(stream.content) && stream.position == old(stream.position) + 83
    ensures useTransportDevice == BoolAt(stream.content, old(stream.position))
    ensures device == TransportDevice(U8At(stream.content, old(stream.position) + 1),
      DoubleAt(stream.content, old(stream.position) + 2), DoubleAt(stream.content, old(stream.position) + 10),
      DoubleAt(stream.content, old(stream.position) + 18), BoolAt(stream.content, old(stream.position) + 66),
      DoubleAt(stream.content, old(stream.position) + 67), DoubleAt(stream.content, old(stream.position) + 75))
    ensures brakeDeceleration == DoubleAt(stream.content, old(stream.position) + 26)
    ensures average == DoubleAt(stream.content, old(stream.position) + 34)
    ensures minimum == DoubleAt(stream.content, old(stream.position) + 42)
    ensures maximum == DoubleAt(stream.content, old(stream.position) + 50)
    ensures deviation == DoubleAt(stream.content, old(stream.position) + 58)
  {
    ghost var content, p := stream.content, stream.position;
    useTransportDevice := stream.ReadBoolean();
    var transportType := stream.ReadUnsigned8();
    var speed := stream.ReadDouble();
    var acceleration := stream.ReadDouble();
    var deceleration := stream.ReadDouble();
    brakeDeceleration := stream.ReadDouble();
    assert stream.content == content && stream.position == p + 34;
    average := stream.ReadDouble();
    minimum := stream.ReadDouble();
    maximum := stream.ReadDouble();
    deviation := stream.ReadDouble();
    var launch := stream.ReadBoolean();
    var launchAcceleration := stream.ReadDouble();
    var launchMaxSpeed := stream.ReadDouble();
    device := TransportDevice(transportType, speed, acceleration, deceleration, launch, launchAcceleration, launchMaxSpeed);
  }

  /** `readStationSection` after the ids: the last colour ends 23 bytes on; the padding needs no bytes. */
  method ReadStationTail(stream: Stream)
    returns (extraBlockLength: DoubleBits, brakeType: int, gateDirection: int, display: int, entranceStairs: int,
             exitStairs: int, gatesColor: Color, railingsColor: Color, structureColor: Color)
    requires 0 <= stream.position && stream.position + 23 <= |stream.content|
    modifies stream
    ensures stream.content == old(stream.content) && stream.position == old(stream.position) + 165
    ensures extraBlockLength == DoubleAt(stream.content, old(stream.position))
    ensures brakeType == U8At(stream.content, old(stream.position) + 8)
    ensures gateDirection == U8At(stream.content, old(stream.position) + 9)
    ensures display == U8At(stream.content, old(stream.position) + 10)
    ensures entranceStairs == U8At(stream.content, old(stream.position) + 11)
    ensures exitStairs == U8At(stream.content, old(stream.position) + 12)
    ensures gatesColor == ColorAt(stream.content, old(stream.position) + 14)
    ensures railingsColor == ColorAt(stream.content, old(stream.position) + 17)
    ensures structureColor == ColorAt(stream.content, old(stream.position) + 20)
  {
    extraBlockLength := stream.ReadDouble();
    brakeType := stream.ReadUnsigned8();
    gateDirection := stream.ReadUnsigned8();
    display := stream.ReadUnsigned8();
    entranceStairs := stream.ReadUnsigned8();
    exitStairs := stream.ReadUnsigned8();
    stream.ReadNull(1);
    gatesColor := stream.ReadColor();
    railingsColor := stream.ReadColor();
    structureColor := stream.ReadColor();
    stream.ReadNull(142);
  }

  /** The loop of `readStationSection` over n ids. */
  method ReadIds(stream: Stream, n: nat) returns (ids: seq<int>)
    requires 0 <= stream.position && stream.position + 4 * n <= |stream.content|
    modifies stream
    ensures stream.content == old(stream.content) && stream.position == old(stream.position) + 4 * n
    ensures ids == IdsAt(stream.content, old(stream.position), n)
  {
    ids := [];
    for i := 0 to n
      invariant stream.content == old(stream.content) && stream.position == old(stream.position) + 4 * i
      invariant ids == IdsAt(stream.content, old(stream.position), i)
    {
      var id := stream.ReadUnsignedInteger();
      ids := ids + [id];
    }
  }

  /** Reading one more id appends it. */
  lemma IdsAtSnoc(s: seq<byte>, p: int, n: nat, m: nat)
    requires m == n + 1 && 0 <= p && p + 4 * m <= |s|
    ensures IdsAt(s, p, m) == IdsAt(s, p, n) + [Uint32At(s, p + 4 * n)]
  {
  }

  /** Masking ids one more id long appends its mask. */
  lemma MaskIdsSnoc(ids: seq<int>)
    requires |ids| > 0
    ensures MaskIds(ids) == MaskIds(ids[..|ids| - 1]) + [ids[|ids| - 1] % 0x1_0000_0000]
  {
  }

  /** Written ids read back, each modulo 2^32. */
  lemma {:induction false} IdsPiece(y: seq<byte>, ids: seq<int>, s: seq<byte>)
    requires y + IdsBytes(ids) <= s
    ensures |y| + 4 * |ids| <= |s|
    ensures IdsAt(s, |y|, |ids|) == MaskIds(ids)
    decreases |ids|
  {
    if |ids| > 0 {
      var init := ids[..|ids| - 1];
      var last := ids[|ids| - 1];
      Associate(y, IdsBytes(init), WordBytes(last));
      IdsPiece(y, init, s);
      WordPiece(y + IdsBytes(init), last, s);
      IdsAtSnoc(s, |y|, |init|, |ids|);
      MaskIdsSnoc(ids);
      assert Uint32At(s, |y| + 4 * |init|) == last % 0x1_0000_0000 by {
        assert |y + IdsBytes(init)| == |y| + 4 * |init|;
      }
    } else {
      assert IdsAt(s, |y|, |ids|) == [] == MaskIds(ids);
    }
  }

  /** The first 26 bytes: use flag, transport type, speed, acceleration and deceleration. */
  lemma {:induction false} StationDeviceRead(y: seq<byte>, station: StationSection, s: seq<byte>)
    requires y + BoolBytes(station.useTransportDevice) + U8Bytes(station.transportDevice.transportType)
      + DoubleBytes(station.transportDevice.speed) + DoubleBytes(station.transportDevice.acceleration)
      + DoubleBytes(station.transportDevice.deceleration) <= s
    ensures y <= s && |y| + 26 <= |s|
    ensures BoolAt(s, |y|) == station.useTransportDevice
    ensures U8At(s, |y| + 1) == Low8(station.transportDevice.transportType) as int
    ensures DoubleAt(s, |y| + 2) == station.transportDevice.speed
    ensures DoubleAt(s, |y| + 10) == station.transportDevice.acceleration
    ensures DoubleAt(s, |y| + 18) == station.transportDevice.deceleration
  {
    var device := station.transportDevice;
    var y1 := y + BoolBytes(station.useTransportDevice);
    var y2 := y1 + U8Bytes(device.transportType);
    var y3 := y2 + DoubleBytes(device.speed);
    var y4 := y3 + DoubleBytes(device.acceleration);
    DoublePiece(y4, device.deceleration, s);
    DoublePiece(y3, device.acceleration, s);
    DoublePiece(y2, device.speed, s);
    U8Piece(y1, device.transportType, s);
    BoolPiece(y, station.useTransportDevice, s);
  }

  /** The next 40 bytes: brake deceleration and the four wait times. */
  lemma {:induction false} StationWaitRead(y: seq<byte>, station: StationSection, s: seq<byte>)
    requires y + DoubleBytes(station.brakeDevice.deceleration)
      + DoubleBytes(station.waitTime.average) + DoubleBytes(station.waitTime.minimum)
      + DoubleBytes(station.waitTime.maximum) + DoubleBytes(station.waitTime.deviation) <= s
    ensures y <= s && |y| + 40 <= |s|
    ensures DoubleAt(s, |y|) == station.brakeDevice.deceleration
    ensures DoubleAt(s, |y| + 8) == station.waitTime.average && DoubleAt(s, |y| + 16) == station.waitTime.minimum
    ensures DoubleAt(s, |y| + 24) == station.waitTime.maximum && DoubleAt(s, |y| + 32) == station.waitTime.deviation
  {
    var wait := station.waitTime;
    var y1 := y + DoubleBytes(station.brakeDevice.deceleration);
    var y2 := y1 + DoubleBytes(wait.average);
    var y3 := y2 + DoubleBytes(wait.minimum);
    var y4 := y3 + DoubleBytes(wait.maximum);
    DoublePiece(y4, wait.deviation, s);
    DoublePiece(y3, wait.maximum, s);
    DoublePiece(y2, wait.minimum, s);
    DoublePiece(y1, wait.average, s);
    DoublePiece(y, station.brakeDevice.deceleration, s);
  }

  /** The next 21 bytes: launch flag, launch acceleration and top speed, unloading flag, 3 zero bytes. */
  lemma {:induction false} StationLaunchRead(y: seq<byte>, station: StationSection, s: seq<byte>)
    requires y + BoolBytes(station.transportDevice.launch) + DoubleBytes(station.transportDevice.launchAcceleration)
      + DoubleBytes(station.transportDevice.launchMaxSpeed) + BoolBytes(station.unloadingOnly) + Zeros(3) <= s
    ensures y <= s && |y| + 21 <= |s|
    ensures BoolAt(s, |y|) == station.transportDevice.launch
    ensures DoubleAt(s, |y| + 1) == station.transportDevice.launchAcceleration
    ensures DoubleAt(s, |y| + 9) == station.transportDevice.launchMaxSpeed
    ensures BoolAt(s, |y| + 17) == station.unloadingOnly
  {
    var device := station.transportDevice;
    var y1 := y + BoolBytes(device.launch);
    var y2 := y1 + DoubleBytes(device.launchAcceleration);
    var y3 := y2 + DoubleBytes(device.launchMaxSpeed);
    var y4 := y3 + BoolBytes(station.unloadingOnly);
    ZerosPiece(y4, 3, s);
    BoolPiece(y3, station.unloadingOnly, s);
    DoublePiece(y2, device.launchMaxSpeed, s);
    DoublePiece(y1, device.launchAcceleration, s);
    BoolPiece(y, device.launch, s);
  }

  /** The last 10 bytes before the ids: passes, shuttle flag, station number, 3 zero bytes and the id count. */
  lemma {:induction false} StationNumberRead(y: seq<byte>, station: StationSection, s: seq<byte>)
    requires y + U8Bytes(station.passes) + BoolBytes(station.shuttleBackwardsStart) + WordBytes(station.stationNumber)
      + Zeros(3) + U8Bytes(|station.waitTime.synchronizeDispatchWith|) <= s
    ensures y <= s && |y| + 10 <= |s|
    ensures U8At(s, |y|) == Low8(station.passes) as int && BoolAt(s, |y| + 1) == station.shuttleBackwardsStart
    ensures Uint32At(s, |y| + 2) == station.stationNumber % 0x1_0000_0000
    ensures U8At(s, |y| + 9) == Low8(|station.waitTime.synchronizeDispatchWith|) as int
  {
    var y1 := y + U8Bytes(station.passes);
    var y2 := y1 + BoolBytes(station.shuttleBackwardsStart);
    var y3 := y2 + WordBytes(station.stationNumber);
    var y4 := y3 + Zeros(3);
    U8Piece(y4, |station.waitTime.synchronizeDispatchWith|, s);
    ZerosPiece(y3, 3, s);
    WordPiece(y2, station.stationNumber, s);
    BoolPiece(y1, station.shuttleBackwardsStart, s);
    U8Piece(y, station.passes, s);
  }

  /** The bytes from p on hold the fields of `station` before its ids, byte fields masked, the id count last. */
  predicate StationHeadAt(s: seq<byte>, p: nat, station: StationSection)
    requires p + 97 <= |s|
  {
    var device := station.transportDevice;
    var wait := station.waitTime;
    BoolAt(s, p) == station.useTransportDevice && U8At(s, p + 1) == Low8(device.transportType) as int
    && DoubleAt(s, p + 2) == device.speed && DoubleAt(s, p + 10) == device.acceleration
    && DoubleAt(s, p + 18) == device.deceleration && DoubleAt(s, p + 26) == station.brakeDevice.deceleration
    && DoubleAt(s, p + 34) == wait.average && DoubleAt(s, p + 42) == wait.minimum
    && DoubleAt(s, p + 50) == wait.maximum && DoubleAt(s, p + 58) == wait.deviation
    && BoolAt(s, p + 66) == device.launch && DoubleAt(s, p + 67) == device.launchAcceleration
    && DoubleAt(s, p + 75) == device.launchMaxSpeed && BoolAt(s, p + 83) == station.unloadingOnly
    && U8At(s, p + 87) == Low8(station.passes) as int && BoolAt(s, p + 88) == station.shuttleBackwardsStart
    && Uint32At(s, p + 89) == station.stationNumber % 0x1_0000_0000
    && U8At(s, p + 96) == Low8(|wait.synchronizeDispatchWith|) as int
  }

  /** The bytes from q on hold the fields of `station` after its ids, byte fields and colours masked. */
  predicate StationTailAt(s: seq<byte>, q: nat, station: StationSection)
    requires q + 23 <= |s|
  {
    DoubleAt(s, q) == station.extraBlockLength && U8At(s, q + 8) == Low8(station.brakeDevice.brakeType) as int
    && U8At(s, q + 9) == Low8(station.gateDirection) as int && U8At(s, q + 10) == Low8(station.display) as int
    && U8At(s, q + 11) == Low8(station.entranceStairs) as int && U8At(s, q + 12) == Low8(station.exitStairs) as int
    && ColorAt(s, q + 14) == MaskColor(station.gatesColor) && ColorAt(s, q + 17) == MaskColor(station.railingsColor)
    && ColorAt(s, q + 20) == MaskColor(station.structureColor)
  }

  /** The 97 bytes before the ids read back field by field. */
  lemma {:induction false} StationHeadRead(c: seq<byte>, station: StationSection, s: seq<byte>)
    requires StationHeadBytes(c, station) <= s
    ensures |c| + 97 <= |s| && StationHeadAt(s, |c|, station)
  {
    var device := station.transportDevice;
    var wait := station.waitTime;
    var y1 := c + BoolBytes(station.useTransportDevice) + U8Bytes(device.transportType)
      + DoubleBytes(device.speed) + DoubleBytes(device.acceleration) + DoubleBytes(device.deceleration);
    var y2 := y1 + DoubleBytes(station.brakeDevice.deceleration)
      + DoubleBytes(wait.average) + DoubleBytes(wait.minimum) + DoubleBytes(wait.maximum) + DoubleBytes(wait.deviation);
    var y3 := y2 + BoolBytes(device.launch) + DoubleBytes(device.launchAcceleration)
      + DoubleBytes(device.launchMaxSpeed) + BoolBytes(station.unloadingOnly) + Zeros(3);
    StationNumberRead(y3, station, s);
    StationLaunchRead(y2, station, s);
    StationWaitRead(y1, station, s);
    StationDeviceRead(c, station, s);
  }

  /** The 165 bytes after the ids read back field by field. */
  lemma {:induction false} StationTailRead(y: seq<byte>, station: StationSection, s: seq<byte>)
    requires StationTailBytes(y, station) <= s
    ensures y <= s && |y| + 23 <= |s| && StationTailAt(s, |y|, station)
  {
    var y1 := y + DoubleBytes(station.extraBlockLength);
    var y2 := y1 + U8Bytes(station.brakeDevice.brakeType);
    var y3 := y2 + U8Bytes(station.gateDirection);
    var y4 := y3 + U8Bytes(station.display);
    var y5 := y4 + U8Bytes(station.entranceStairs);
    var y6 := y5 + U8Bytes(station.exitStairs) + Zeros(1);
    var y7 := y6 + ColorBytes(station.gatesColor);
    var y8 := y7 + ColorBytes(station.railingsColor);
    ColorPiece(y8, station.structureColor, s);
    ColorPiece(y7, station.railingsColor, s);
    ColorPiece(y6, station.gatesColor, s);
    U8Piece(y5, station.exitStairs, s);
    U8Piece(y4, station.entranceStairs, s);
    U8Piece(y3, station.display, s);
    U8Piece(y2, station.gateDirection, s);
    U8Piece(y1, station.brakeDevice.brakeType, s);
    DoublePiece(y, station.extraBlockLength, s);
  }

  /** A station whose fields sit at p, its ids at p + 97 and the rest at q, reads back masked, ending at `end`. */
  lemma StationAt(s: seq<byte>, p: nat, station: StationSection, q: nat, end: nat)
    requires p + 97 <= |s| && StationHeadAt(s, p, station) && |station.waitTime.synchronizeDispatchWith| < 256
    requires q == p + 97 + 4 * |station.waitTime.synchronizeDispatchWith| && q + 23 <= |s| && end == q + 165
    requires IdsAt(s, p + 97, |station.waitTime.synchronizeDispatchWith|) == MaskIds(station.waitTime.synchronizeDispatchWith)
    requires StationTailAt(s, q, station)
    ensures DecodeStation(s, p) == Some((MaskStation(station), end))
  {
  }

  /** A read that gives back the masked record gives back the record itself exactly when it is in range. */
  lemma MaskedRead(read: Option<(StationSection, nat)>, station: StationSection, end: nat)
    requires read == Some((MaskStation(station), end))
    ensures read == Some((station, end)) <==> StationInRange(station)
  {
  }

  /**
   * Reading a written station section, whatever follows it, gives back the
   * record with its byte fields and colours masked and its station number
   * and ids reduced modulo 2^32, and stops right after it, when it has fewer
   * than 256 ids; that is the record itself exactly when all its fields are
   * in range.
   */
  lemma {:induction false} StationRoundTrip(c: seq<byte>, station: StationSection, s: seq<byte>)
    requires |station.waitTime.synchronizeDispatchWith| < 256
    requires StationWritten(c, station) <= s
    ensures DecodeStation(s, |c|) == Some((MaskStation(station), |StationWritten(c, station)|))
    ensures DecodeStation(s, |c|) == Some((station, |StationWritten(c, station)|)) <==> StationInRange(station)
  {
    var ids := station.waitTime.synchronizeDispatchWith;
    var head := StationHeadBytes(c, station);
    var y := head + IdsBytes(ids);
    StationTailRead(y, station, s);
    IdsPiece(head, ids, s);
    StationHeadRead(c, station, s);
    assert |head| == |c| + 97;
    StationAt(s, |c|, station, |y|, |StationWritten(c, station)|);
    MaskedRead(DecodeStation(s, |c|), station, |StationWritten(c, station)|);
  }

  /** The ids a successful read returns are as many as its count byte says. */
  lemma StationCount(s: seq<byte>, p: nat)
    requires DecodeStation(s, p).Some?
    ensures p + 97 <= |s| && |DecodeStation(s, p).value.0.waitTime.synchronizeDispatchWith| == U8At(s, p + 96)
  {
  }

  /**
   * With 256 ids or more, the count byte `writeStationSection` writes is the
   * length modulo 256: a successful read of what it wrote returns fewer ids
   * than were written.
   */
  lemma StationCountWraps(c: seq<byte>, station: StationSection, s: seq<byte>)
    requires |station.waitTime.synchronizeDispatchWith| >= 256
    requires StationWritten(c, station) <= s
    ensures DecodeStation(s, |c|).Some? ==>
      |DecodeStation(s, |c|).value.0.waitTime.synchronizeDispatchWith|
        == |station.waitTime.synchronizeDispatchWith| % 256 < |station.waitTime.synchronizeDispatchWith|
  {
    StationHeadRead(c, station, s);
    if DecodeStation(s, |c|).Some? {
      StationCount(s, |c|);
    }
  }
}
