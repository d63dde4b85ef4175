/**
 * 4D parameter point record (src/helper/nl2park/track/parameter-4d-point.ts):
 * the position and the angle as doubles, then 20 bytes of zero padding; 36
 * bytes in all. The tag is not written; reading always tags the point
 * `'parameter4D'`.
 */
module NoLimitsParameter4DPoint {
  import opened NoLimitsBytes
  import opened NoLimitsStream
  import opened NoLimitsTrackPoint

  datatype Parameter4DPoint = Parameter4DPoint(pointType: PointType, position: DoubleBits, angle: DoubleBits)

  /** The content after `writeParameter4DPoint` appended `point` to content `c`. */
  function Parameter4DWritten(c: seq<byte>, point: Parameter4DPoint): (s: seq<byte>)
    ensures |s| == |c| + 36 && c <= s
  {
    c + DoubleBytes(point.position) + DoubleBytes(point.angle) + Zeros(20)
  }

  /** What `readParameter4DPoint` returns when it starts at position p. */
  function DecodeParameter4D(s: seq<byte>, p: int): (point: Parameter4DPoint)
    requires 0 <= p && p + 16 <= |s|
    ensures point.pointType == Parameter4D
  {
    Parameter4DPoint(Parameter4D, DoubleAt(s, p), DoubleAt(s, p + 8))
  }

  /** `writeParameter4DPoint`. */
  method WriteParameter4DPoint(stream: Stream, point: Parameter4DPoint)
    modifies stream
    ensures stream.content == Parameter4DWritten(old(stream.content), point)
    ensures stream.position == old(stream.position) + 36
  {
    stream.WriteDouble(point.position);
    stream.WriteDouble(point.angle);
    stream.WriteNull(20);
  }

  /** `readParameter4DPoint`: the two doubles must be there; the padding needs no bytes. */
  method ReadParameter4DPoint(stream: Stream) returns (point: Parameter4DPoint)
    requires 0 <= stream.position && stream.position + 16 <= |stream.content|
    modifies stream
    ensures stream.content == old(stream.content) && stream.position == old(stream.position) + 36
    ensures point == DecodeParameter4D(stream.content, old(stream.position))
  {
    var position := stream.ReadDouble();
    var angle := stream.ReadDouble();
    stream.ReadNull(20);
    point := Parameter4DPoint(Parameter4D, position, angle);
  }

  /**
   * Position and angle read back exactly with the tag `'parameter4D'`; so
   * the point itself comes back exactly when it carries that tag.
   */
  lemma {:induction false} Parameter4DRoundTrip(c: seq<byte>, point: Parameter4DPoint, suffix: seq<byte>)
    ensures |c| + 16 <= |Parameter4DWritten(c, point) + suffix|
    ensures DecodeParameter4D(Parameter4DWritten(c, point) + suffix, |c|) == point.(pointType := Parameter4D)
    ensures DecodeParameter4D(Parameter4DWritten(c, point) + suffix, |c|) == point <==> point.pointType == Parameter4D
  {
    var s := Parameter4DWritten(c, point) + suffix;
    var y1 := c + DoubleBytes(point.position);
    var y2 := y1 + DoubleBytes(point.angle);
    ZerosPiece(y2, 20, s);
    DoublePiece(y1, point.angle, s);
    DoublePiece(c, point.position, s);
  }
}
