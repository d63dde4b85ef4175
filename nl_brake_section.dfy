/**
 * Brake section record (src/helper/nl2park/section/brake-section.ts): 193
 * bytes. The nested `transportDevice` is written and read flat, field by
 * field, between 23 and 75 bytes of zero padding.
 */
module NoLimitsBrakeSection {
  import opened NoLimitsBytes
  import opened NoLimitsStream

  /** The transport device carried by a brake or station section. */
  datatype TransportDevice = TransportDevice(
    transportType: int,
    speed: DoubleBits,
    acceleration: DoubleBits,
    deceleration: DoubleBits,
    launch: bool,
    launchAcceleration: DoubleBits,
    launchMaxSpeed: DoubleBits)

  datatype BrakeSection = BrakeSection(
    mode: int,
    brakeType: int,
    deceleration: DoubleBits,
    speedLimit: DoubleBits,
    hysteresis: DoubleBits,
    positionOnTrain: int,
    positionOnSection: DoubleBits,
    completeStop: bool,
    waitTime: DoubleBits,
    enableTransport: bool,
    transportDevice: TransportDevice,
    extraBlockLength: DoubleBits)

  /** The content after `writeBrakeSection` appended `brake` to content `c`. */
  function BrakeWritten(c: seq<byte>, brake: BrakeSection): (s: seq<byte>)
    ensures |s| == |c| + 193 && c <= s
  {
    c + U8Bytes(brake.mode) + U8Bytes(brake.brakeType) + DoubleBytes(brake.deceleration)
    + DoubleBytes(brake.speedLimit) + DoubleBytes(brake.hysteresis)
    + U8Bytes(brake.positionOnTrain) + DoubleBytes(brake.positionOnSection)
    + BoolBytes(brake.completeStop) + DoubleBytes(brake.waitTime) + Zeros(23)
    + BoolBytes(brake.enableTransport) + U8Bytes(brake.transportDevice.transportType)
    + DoubleBytes(brake.transportDevice.speed) + DoubleBytes(brake.transportDevice.acceleration)
    + DoubleBytes(brake.transportDevice.deceleration)
    + BoolBytes(brake.transportDevice.launch) + DoubleBytes(brake.transportDevice.launchAcceleration)
    + DoubleBytes(brake.transportDevice.launchMaxSpeed) + DoubleBytes(brake.extraBlockLength) + Zeros(75)
  }

  /** What `readBrakeSection` returns when it starts at position p. */
  function DecodeBrake(s: seq<byte>, p: int): BrakeSection
    requires 0 <= p && p + 118 <= |s|
  {
    BrakeSection(U8At(s, p), U8At(s, p + 1), DoubleAt(s, p + 2), DoubleAt(s, p + 10), DoubleAt(s, p + 18),
      U8At(s, p + 26), DoubleAt(s, p + 27), BoolAt(s, p + 35), DoubleAt(s, p + 36),
      BoolAt(s, p + 67),
      TransportDevice(U8At(s, p + 68), DoubleAt(s, p + 69), DoubleAt(s, p + 77), DoubleAt(s, p + 85),
        BoolAt(s, p + 93), DoubleAt(s, p + 94), DoubleAt(s, p + 102)),
      DoubleAt(s, p + 110))
  }

  /** The record as it reads back: its four byte fields masked with `& 0xff`. */
  function MaskBrake(brake: BrakeSection): (masked: BrakeSection)
    ensures masked == brake <==> BrakeBytesInRange(brake)
  {
    brake.(mode := Low8(brake.mode) as int, brakeType := Low8(brake.brakeType) as int,
           positionOnTrain := Low8(brake.positionOnTrain) as int,
           transportDevice := brake.transportDevice.(transportType := Low8(brake.transportDevice.transportType) as int))
  }

  /** The enumeration fields `mode`, `brakeType`, `positionOnTrain` and `transportType` are in 0..255. */
  predicate BrakeBytesInRange(brake: BrakeSection) {
    0 <= brake.mode < 256 && 0 <= brake.brakeType < 256 && 0 <= brake.positionOnTrain < 256
    && 0 <= brake.transportDevice.transportType < 256
  }

  /** `writeBrakeSection`. */
  method WriteBrakeSection(stream: Stream, brake: BrakeSection)
    modifies stream
    ensures stream.content == BrakeWritten(old(stream.content), brake)
    ensures stream.position == old(stream.position) + 193
  {
    stream.WriteUnsigned8(brake.mode);
    stream.WriteUnsigned8(brake.brakeType);
    stream.WriteDouble(brake.deceleration);
    stream.WriteDouble(brake.speedLimit);
    stream.WriteDouble(brake.hysteresis);
    stream.WriteUnsigned8(brake.positionOnTrain);
    stream.WriteDouble(brake.positionOnSection);
    stream.WriteBoolean(brake.completeStop);
    stream.WriteDouble(brake.waitTime);
    stream.WriteNull(23);
    stream.WriteBoolean(brake.enableTransport);
    stream.WriteUnsigned8(brake.transportDevice.transportType);
    stream.WriteDouble(brake.transportDevice.speed);
    stream.WriteDouble(brake.transportDevice.acceleration);
    stream.WriteDouble(brake.transportDevice.deceleration);
    stream.WriteBoolean(brake.transportDevice.launch);
    stream.WriteDouble(brake.transportDevice.launchAcceleration);
    stream.WriteDouble(brake.transportDevice.launchMaxSpeed);
    stream.WriteDouble(brake.extraBlockLength);
    stream.WriteNull(75);
  }

  /** `readBrakeSection`: the last double ends 118 bytes after the start; the padding needs no bytes. */
  method ReadBrakeSection(stream: Stream) returns (brake: BrakeSection)
    requires 0 <= stream.position && stream.position + 118 <= |stream.content|
    modifies stream
    ensures stream.content == old(stream.content) && stream.position == old(stream.position) + 193
    ensures brake == DecodeBrake(stream.content, old(stream.position))
  {
    ghost var content, p := stream.content, stream.position;
    var mode := stream.ReadUnsigned8();
    var brakeType := stream.ReadUnsigned8();
    var deceleration := stream.ReadDouble();
    var speedLimit := stream.ReadDouble();
    var hysteresis := stream.ReadDouble();
    assert stream.content == content && stream.position == p + 26;
    var positionOnTrain := stream.ReadUnsigned8();
    var positionOnSection := stream.ReadDouble();
    var completeStop := stream.ReadBoolean();
    var waitTime := stream.ReadDouble();
    stream.ReadNull(23);
    assert stream.content == content && stream.position == p + 67;
    var enableTransport := stream.ReadBoolean();
    var transportType := stream.ReadUnsigned8();
    var transportSpeed := stream.ReadDouble();
    var transportAcceleration := stream.ReadDouble();
    var transportDeceleration := stream.ReadDouble();
    assert stream.content == content && stream.position == p + 93;
    var transportLaunch := stream.ReadBoolean();
    var transportLaunchAcceleration := stream.ReadDouble();
    var transportLaunchMaxSpeed := stream.ReadDouble();
    var extraBlockLength := stream.ReadDouble();
    stream.ReadNull(75);
    var transportDevice := TransportDevice(transportType, transportSpeed, transportAcceleration,
      transportDeceleration, transportLaunch, transportLaunchAcceleration, transportLaunchMaxSpeed);
    brake := BrakeSection(mode, brakeType, deceleration, speedLimit, hysteresis, positionOnTrain,
      positionOnSection, completeStop, waitTime, enableTransport, transportDevice, extraBlockLength);
  }

  lemma {:induction false} BrakeHeadRead(y: seq<byte>, brake: BrakeSection, s: seq<byte>)
    requires y + U8Bytes(brake.mode) + U8Bytes(brake.brakeType) + DoubleBytes(brake.deceleration)
      + DoubleBytes(brake.speedLimit) + DoubleBytes(brake.hysteresis) <= s
    ensures y <= s && |y| + 26 <= |s|
    ensures U8At(s, |y|) == Low8(brake.mode) as int && U8At(s, |y| + 1) == Low8(brake.brakeType) as int
    ensures DoubleAt(s, |y| + 2) == brake.deceleration && DoubleAt(s, |y| + 10) == brake.speedLimit
    ensures DoubleAt(s, |y| + 18) == brake.hysteresis
  {
    var y1 := y + U8Bytes(brake.mode);
    var y2 := y1 + U8Bytes(brake.brakeType);
    var y3 := y2 + DoubleBytes(brake.deceleration);
    var y4 := y3 + DoubleBytes(brake.speedLimit);
    DoublePiece(y4, brake.hysteresis, s);
    DoublePiece(y3, brake.speedLimit, s);
    DoublePiece(y2, brake.deceleration, s);
    U8Piece(y1, brake.brakeType, s);
    U8Piece(y, brake.mode, s);
  }

  lemma {:induction false} BrakeStopRead(y: seq<byte>, brake: BrakeSection, s: seq<byte>)
    requires y + U8Bytes(brake.positionOnTrain) + DoubleBytes(brake.positionOnSection)
      + BoolBytes(brake.completeStop) + DoubleBytes(brake.waitTime) + Zeros(23) <= s
    ensures y <= s && |y| + 41 <= |s|
    ensures U8At(s, |y|) == Low8(brake.positionOnTrain) as int && DoubleAt(s, |y| + 1) == brake.positionOnSection
    ensures BoolAt(s, |y| + 9) == brake.completeStop && DoubleAt(s, |y| + 10) == brake.waitTime
  {
    var y1 := y + U8Bytes(brake.positionOnTrain);
    var y2 := y1 + DoubleBytes(brake.positionOnSection);
    var y3 := y2 + BoolBytes(brake.completeStop);
    var y4 := y3 + DoubleBytes(brake.waitTime);
    ZerosPiece(y4, 23, s);
    DoublePiece(y3, brake.waitTime, s);
    BoolPiece(y2, brake.completeStop, s);
    DoublePiece(y1, brake.positionOnSection, s);
    U8Piece(y, brake.positionOnTrain, s);
  }

  lemma {:induction false} BrakeTransportRead(y: seq<byte>, brake: BrakeSection, s: seq<byte>)
    requires y + BoolBytes(brake.enableTransport) + U8Bytes(brake.transportDevice.transportType)
      + DoubleBytes(brake.transportDevice.speed) + DoubleBytes(brake.transportDevice.acceleration)
      + DoubleBytes(brake.transportDevice.deceleration) <= s
    ensures y <= s && |y| + 26 <= |s|
    ensures BoolAt(s, |y|) == brake.enableTransport
    ensures U8At(s, |y| + 1) == Low8(brake.transportDevice.transportType) as int
    ensures DoubleAt(s, |y| + 2) == brake.transportDevice.speed && DoubleAt(s, |y| + 10) == brake.transportDevice.acceleration
    ensures DoubleAt(s, |y| + 18) == brake.transportDevice.deceleration
  {
    var device := brake.transportDevice;
    var y1 := y + BoolBytes(brake.enableTransport);
    var y2 := y1 + U8Bytes(device.transportType);
    var y3 := y2 + DoubleBytes(device.speed);
    var y4 := y3 + DoubleBytes(device.acceleration);
    DoublePiece(y4, device.deceleration, s);
    DoublePiece(y3, device.acceleration, s);
    DoublePiece(y2, device.speed, s);
    U8Piece(y1, device.transportType, s);
    BoolPiece(y, brake.enableTransport, s);
  }

  lemma {:induction false} BrakeLaunchRead(y: seq<byte>, brake: BrakeSection, s: seq<byte>)
    requires y + BoolBytes(brake.transportDevice.launch) + DoubleBytes(brake.transportDevice.launchAcceleration)
      + DoubleBytes(brake.transportDevice.launchMaxSpeed) + DoubleBytes(brake.extraBlockLength) + Zeros(75) <= s
    ensures y <= s && |y| + 100 <= |s|
    ensures BoolAt(s, |y|) == brake.transportDevice.launch
    ensures DoubleAt(s, |y| + 1) == brake.transportDevice.launchAcceleration
    ensures DoubleAt(s, |y| + 9) == brake.transportDevice.launchMaxSpeed && DoubleAt(s, |y| + 17) == brake.extraBlockLength
  {
    var device := brake.transportDevice;
    var y1 := y + BoolBytes(device.launch);
    var y2 := y1 + DoubleBytes(device.launchAcceleration);
    var y3 := y2 + DoubleBytes(device.launchMaxSpeed);
    var y4 := y3 + DoubleBytes(brake.extraBlockLength);
    ZerosPiece(y4, 75, s);
    DoublePiece(y3, brake.extraBlockLength, s);
    DoublePiece(y2, device.launchMaxSpeed, s);
    DoublePiece(y1, device.launchAcceleration, s);
    BoolPiece(y, device.launch, s);
  }

  /**
   * Reading a written brake section, nested transport device included,
   * gives back the record with its byte fields masked; that is the record
   * itself exactly when its enumeration fields are in 0..255.
   */
  lemma {:induction false} BrakeRoundTrip(c: seq<byte>, brake: BrakeSection, suffix: seq<byte>)
    ensures |c| + 118 <= |BrakeWritten(c, brake) + suffix|
    ensures DecodeBrake(BrakeWritten(c, brake) + suffix, |c|) == MaskBrake(brake)
    ensures DecodeBrake(BrakeWritten(c, brake) + suffix, |c|) == brake <==> BrakeBytesInRange(brake)
  {
    var s := BrakeWritten(c, brake) + suffix;
    var device := brake.transportDevice;
    var head := c + U8Bytes(brake.mode) + U8Bytes(brake.brakeType) + DoubleBytes(brake.deceleration)
      + DoubleBytes(brake.speedLimit) + DoubleBytes(brake.hysteresis);
    var stop := head + U8Bytes(brake.positionOnTrain) + DoubleBytes(brake.positionOnSection)
      + BoolBytes(brake.completeStop) + DoubleBytes(brake.waitTime) + Zeros(23);
    var transport := stop + BoolBytes(brake.enableTransport) + U8Bytes(device.transportType)
      + DoubleBytes(device.speed) + DoubleBytes(device.acceleration) + DoubleBytes(device.deceleration);
    BrakeLaunchRead(transport, brake, s);
    BrakeTransportRead(stop, brake, s);
    BrakeStopRead(head, brake, s);
    BrakeHeadRead(c, brake, s);
  }
}
