/**
 * Custom friction record (src/helper/nl2park/coaster/custom-friction.ts): two
 * doubles, constant friction first and air resistance second, then 32 bytes
 * of zero padding; 48 bytes in all.
 */
module NoLimitsCustomFriction {
  import opened NoLimitsBytes
  import opened NoLimitsStream

  datatype CustomFriction = CustomFriction(constFrictionParameter: DoubleBits, airResistanceParameter: DoubleBits)

  /** The content after `writeCustomFriction` appended `friction` to content `c`. */
  function FrictionWritten(c: seq<byte>, friction: CustomFriction): (s: seq<byte>)
    ensures |s| == |c| + 48 && c <= s
  {
    c + DoubleBytes(friction.constFrictionParameter) + DoubleBytes(friction.airResistanceParameter) + Zeros(32)
  }

  /** What `readCustomFriction` returns when it starts at position p. */
  function DecodeFriction(s: seq<byte>, p: int): CustomFriction
    requires 0 <= p && p + 16 <= |s|
  {
    CustomFriction(DoubleAt(s, p), DoubleAt(s, p + 8))
  }

  /** `writeCustomFriction`. */
  method WriteCustomFriction(stream: Stream, friction: CustomFriction)
    modifies stream
    ensures stream.content == FrictionWritten(old(stream.content), friction)
    ensures stream.position == old(stream.position) + 48
  {
    stream.WriteDouble(friction.constFrictionParameter);
    stream.WriteDouble(friction.airResistanceParameter);
    stream.WriteNull(32);
  }

  /** `readCustomFriction`: the two doubles must be there; the padding needs no bytes. */
  method ReadCustomFriction(stream: Stream) returns (friction: CustomFriction)
    requires 0 <= stream.position && stream.position + 16 <= |stream.content|
    modifies stream
    ensures stream.content == old(stream.content) && stream.position == old(stream.position) + 48
    ensures friction == DecodeFriction(stream.content, old(stream.position))
  {
    var constFrictionParameter := stream.ReadDouble();
    var airResistanceParameter := stream.ReadDouble();
    stream.ReadNull(32);
    friction := CustomFriction(constFrictionParameter, airResistanceParameter);
  }

  /** Both parameters read back exactly, in the order they were written, whatever surrounds the record. */
  lemma {:induction false} FrictionRoundTrip(c: seq<byte>, friction: CustomFriction, suffix: seq<byte>)
    ensures |c| + 16 <= |FrictionWritten(c, friction) + suffix|
    ensures DecodeFriction(FrictionWritten(c, friction) + suffix, |c|) == friction
  {
    var s := FrictionWritten(c, friction) + suffix;
    var y1 := c + DoubleBytes(friction.constFrictionParameter);
    var y2 := y1 + DoubleBytes(friction.airResistanceParameter);
    ZerosPiece(y2, 32, s);
    DoublePiece(y1, friction.airResistanceParameter, s);
    DoublePiece(c, friction.constFrictionParameter, s);
  }
}
