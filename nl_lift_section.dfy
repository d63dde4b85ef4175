/**
 * Lift section record (src/helper/nl2park/section/lift-section.ts): 72
 * bytes, written and read field by field in the same order, with 3, 3 and
 * 29 bytes of zero padding.
 */
module NoLimitsLiftSection {
  import opened NoLimitsBytes
  import opened NoLimitsStream

  datatype LiftSection = LiftSection(
    liftType: int,
    motorLocation: int,
    speed: DoubleBits,
    acceleration: DoubleBits,
    deceleration: DoubleBits,
    hasAntiRollbackDevice: bool,
    shuttleModeGentle2ndPassRelease: bool,
    extraBlockLength: DoubleBits,
    diveCoasterDropReleaseMode: bool)

  /** The content after `writeLiftSection` appended `lift` to content `c`. */
  function LiftWritten(c: seq<byte>, lift: LiftSection): (s: seq<byte>)
    ensures |s| == |c| + 72 && c <= s
  {
    c + Zeros(3) + U8Bytes(lift.liftType) + Zeros(3) + U8Bytes(lift.motorLocation)
    + DoubleBytes(lift.speed) + DoubleBytes(lift.acceleration) + DoubleBytes(lift.deceleration)
    + BoolBytes(lift.hasAntiRollbackDevice) + BoolBytes(lift.shuttleModeGentle2ndPassRelease)
    + DoubleBytes(lift.extraBlockLength) + BoolBytes(lift.diveCoasterDropReleaseMode) + Zeros(29)
  }

  /** What `readLiftSection` returns when it starts at position p. */
  function DecodeLift(s: seq<byte>, p: int): LiftSection
    requires 0 <= p && p + 42 <= |s|
  {
    LiftSection(U8At(s, p + 3), U8At(s, p + 7), DoubleAt(s, p + 8), DoubleAt(s, p + 16), DoubleAt(s, p + 24),
      BoolAt(s, p + 32), BoolAt(s, p + 33), DoubleAt(s, p + 34), BoolAt(s, p + 42))
  }

  /** The record as it reads back: the byte fields masked by `writeUnsigned8`. */
  function MaskLift(lift: LiftSection): (masked: LiftSection)
    ensures masked == lift <==> 0 <= lift.liftType < 256 && 0 <= lift.motorLocation < 256
  {
    lift.(liftType := Low8(lift.liftType) as int, motorLocation := Low8(lift.motorLocation) as int)
  }

  /** `writeLiftSection`. */
  method WriteLiftSection(stream: Stream, lift: LiftSection)
    modifies stream
    ensures stream.content == LiftWritten(old(stream.content), lift)
    ensures stream.position == old(stream.position) + 72
  {
    stream.WriteNull(3);
    stream.WriteUnsigned8(lift.liftType);
    stream.WriteNull(3);
    stream.WriteUnsigned8(lift.motorLocation);
    stream.WriteDouble(lift.speed);
    stream.WriteDouble(lift.acceleration);
    stream.WriteDouble(lift.deceleration);
    stream.WriteBoolean(lift.hasAntiRollbackDevice);
    stream.WriteBoolean(lift.shuttleModeGentle2ndPassRelease);
    stream.WriteDouble(lift.extraBlockLength);
    stream.WriteBoolean(lift.diveCoasterDropReleaseMode);
    stream.WriteNull(29);
  }

  /** `readLiftSection`: the last double ends 42 bytes after the start; the final flag and padding need no bytes. */
  method ReadLiftSection(stream: Stream) returns (lift: LiftSection)
    requires 0 <= stream.position && stream.position + 42 <= |stream.content|
    modifies stream
    ensures stream.content == old(stream.content) && stream.position == old(stream.position) + 72
    ensures lift == DecodeLift(stream.content, old(stream.position))
  {
    stream.ReadNull(3);
    var liftType := stream.ReadUnsigned8();
    stream.ReadNull(3);
    var motorLocation := stream.ReadUnsigned8();
    var speed := stream.ReadDouble();
    var acceleration := stream.ReadDouble();
    var deceleration := stream.ReadDouble();
    var hasAntiRollbackDevice := stream.ReadBoolean();
    var shuttleModeGentle2ndPassRelease := stream.ReadBoolean();
    var extraBlockLength := stream.ReadDouble();
    var diveCoasterDropReleaseMode := stream.ReadBoolean();
    stream.ReadNull(29);
    lift := LiftSection(liftType, motorLocation, speed, acceleration, deceleration,
      hasAntiRollbackDevice, shuttleModeGentle2ndPassRelease, extraBlockLength, diveCoasterDropReleaseMode);
  }

  lemma {:induction false} LiftHeadRead(y: seq<byte>, lift: LiftSection, s: seq<byte>)
    requires y + Zeros(3) + U8Bytes(lift.liftType) + Zeros(3) + U8Bytes(lift.motorLocation) <= s
    ensures y <= s && |y| + 8 <= |s|
    ensures U8At(s, |y| + 3) == Low8(lift.liftType) as int && U8At(s, |y| + 7) == Low8(lift.motorLocation) as int
  {
    var y1 := y + Zeros(3);
    var y2 := y1 + U8Bytes(lift.liftType);
    var y3 := y2 + Zeros(3);
    U8Piece(y3, lift.motorLocation, s);
    ZerosPiece(y2, 3, s);
    U8Piece(y1, lift.liftType, s);
    ZerosPiece(y, 3, s);
  }

  lemma {:induction false} LiftMotionRead(y: seq<byte>, lift: LiftSection, s: seq<byte>)
    requires y + DoubleBytes(lift.speed) + DoubleBytes(lift.acceleration) + DoubleBytes(lift.deceleration) <= s
    ensures y <= s && |y| + 24 <= |s|
    ensures DoubleAt(s, |y|) == lift.speed && DoubleAt(s, |y| + 8) == lift.acceleration
    ensures DoubleAt(s, |y| + 16) == lift.deceleration
  {
    var y1 := y + DoubleBytes(lift.speed);
    var y2 := y1 + DoubleBytes(lift.acceleration);
    DoublePiece(y2, lift.deceleration, s);
    DoublePiece(y1, lift.acceleration, s);
    DoublePiece(y, lift.speed, s);
  }

  lemma {:induction false} LiftTailRead(y: seq<byte>, lift: LiftSection, s: seq<byte>)
    requires y + BoolBytes(lift.hasAntiRollbackDevice) + BoolBytes(lift.shuttleModeGentle2ndPassRelease)
      + DoubleBytes(lift.extraBlockLength) + BoolBytes(lift.diveCoasterDropReleaseMode) + Zeros(29) <= s
    ensures y <= s && |y| + 40 <= |s|
    ensures BoolAt(s, |y|) == lift.hasAntiRollbackDevice && BoolAt(s, |y| + 1) == lift.shuttleModeGentle2ndPassRelease
    ensures DoubleAt(s, |y| + 2) == lift.extraBlockLength && BoolAt(s, |y| + 10) == lift.diveCoasterDropReleaseMode
  {
    var y1 := y + BoolBytes(lift.hasAntiRollbackDevice);
    var y2 := y1 + BoolBytes(lift.shuttleModeGentle2ndPassRelease);
    var y3 := y2 + DoubleBytes(lift.extraBlockLength);
    var y4 := y3 + BoolBytes(lift.diveCoasterDropReleaseMode);
    ZerosPiece(y4, 29, s);
    BoolPiece(y3, lift.diveCoasterDropReleaseMode, s);
    DoublePiece(y2, lift.extraBlockLength, s);
    BoolPiece(y1, lift.shuttleModeGentle2ndPassRelease, s);
    BoolPiece(y, lift.hasAntiRollbackDevice, s);
  }

  /**
   * Reading a written lift section, whatever precedes and follows it,
   * gives back the record with its byte fields masked; that is the record
   * itself exactly when `liftType` and `motorLocation` are in 0..255.
   */
  lemma {:induction false} LiftRoundTrip(c: seq<byte>, lift: LiftSection, suffix: seq<byte>)
    ensures |c| + 42 <= |LiftWritten(c, lift) + suffix|
    ensures DecodeLift(LiftWritten(c, lift) + suffix, |c|) == MaskLift(lift)
    ensures DecodeLift(LiftWritten(c, lift) + suffix, |c|) == lift
      <==> 0 <= lift.liftType < 256 && 0 <= lift.motorLocation < 256
  {
    var s := LiftWritten(c, lift) + suffix;
    var head := c + Zeros(3) + U8Bytes(lift.liftType) + Zeros(3) + U8Bytes(lift.motorLocation);
    var motion := head + DoubleBytes(lift.speed) + DoubleBytes(lift.acceleration) + DoubleBytes(lift.deceleration);
    LiftTailRead(motion, lift, s);
    LiftMotionRead(head, lift, s);
    LiftHeadRead(c, lift, s);
  }
}
