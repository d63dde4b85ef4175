/**
 * Roll point record (src/helper/nl2park/track/roll-point.ts): two doubles
 * and two flags, 18 bytes with no padding. The `pointType` tag is not
 * written; reading always tags the point as a roll point.
 */
module NoLimitsRollPoint {
  import opened NoLimitsBytes
  import opened NoLimitsStream
  import opened NoLimitsTrackPoint

  datatype RollPoint = RollPoint(pointType: PointType, position: DoubleBits, roll: DoubleBits, vertical: bool, strict: bool)

  /** `isRollPoint`: the point's tag is `'roll'`. */
  predicate IsRollPoint(pointType: PointType) {
    pointType == Roll
  }

  /** The content after `writeRollPoint` appended `point` to content `c`; the tag is not among the bytes. */
  function RollPointWritten(c: seq<byte>, point: RollPoint): (s: seq<byte>)
    ensures |s| == |c| + 18 && c <= s
  {
    c + DoubleBytes(point.position) + DoubleBytes(point.roll) + BoolBytes(point.vertical) + BoolBytes(point.strict)
  }

  /** What `readRollPoint` returns when it starts at position p. */
  function DecodeRollPoint(s: seq<byte>, p: int): (point: RollPoint)
    requires 0 <= p && p + 16 <= |s|
    ensures IsRollPoint(point.pointType)
  {
    RollPoint(Roll, DoubleAt(s, p), DoubleAt(s, p + 8), BoolAt(s, p + 16), BoolAt(s, p + 17))
  }

  /** `writeRollPoint`. */
  method WriteRollPoint(stream: Stream, point: RollPoint)
    modifies stream
    ensures stream.content == RollPointWritten(old(stream.content), point)
    ensures stream.position == old(stream.position) + 18
  {
    stream.WriteDouble(point.position);
    stream.WriteDouble(point.roll);
    stream.WriteBoolean(point.vertical);
    stream.WriteBoolean(point.strict);
  }

  /** `readRollPoint`: the two doubles must be there; the flags read false past the end. */
  method ReadRollPoint(stream: Stream) returns (point: RollPoint)
    requires 0 <= stream.position && stream.position + 16 <= |stream.content|
    modifies stream
    ensures stream.content == old(stream.content) && stream.position == old(stream.position) + 18
    ensures point == DecodeRollPoint(stream.content, old(stream.position))
  {
    var position := stream.ReadDouble();
    var roll := stream.ReadDouble();
    var vertical := stream.ReadBoolean();
    var strict := stream.ReadBoolean();
    point := RollPoint(Roll, position, roll, vertical, strict);
  }

  /**
   * Reading a written roll point gives back its position, roll and flags
   * with the tag `'roll'`; so it gives back the point itself exactly when
   * `isRollPoint` holds for it.
   */
  lemma {:induction false} RollPointRoundTrip(c: seq<byte>, point: RollPoint, suffix: seq<byte>)
    ensures |c| + 16 <= |RollPointWritten(c, point) + suffix|
    ensures DecodeRollPoint(RollPointWritten(c, point) + suffix, |c|) == point.(pointType := Roll)
    ensures DecodeRollPoint(RollPointWritten(c, point) + suffix, |c|) == point <==> IsRollPoint(point.pointType)
  {
    var s := RollPointWritten(c, point) + suffix;
    var y1 := c + DoubleBytes(point.position);
    var y2 := y1 + DoubleBytes(point.roll);
    var y3 := y2 + BoolBytes(point.vertical);
    BoolPiece(y3, point.strict, s);
    BoolPiece(y2, point.vertical, s);
    DoublePiece(y1, point.roll, s);
    DoublePiece(c, point.position, s);
  }
}
