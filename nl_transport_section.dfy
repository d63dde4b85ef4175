/**
 * Transport section record (src/helper/nl2park/section/transport-section.ts):
 * 64 bytes, ending in 26 bytes of zero padding.
 */
module NoLimitsTransportSection {
  import opened NoLimitsBytes
  import opened NoLimitsStream

  datatype TransportSection = TransportSection(
    transportType: int,
    speed: DoubleBits,
    acceleration: DoubleBits,
    deceleration: DoubleBits,
    speedingUpPasses: int,
    speedingDown: bool,
    minSpeed: DoubleBits)

  /** The content after `writeTransportSection` appended `transport` to content `c`. */
  function TransportWritten(c: seq<byte>, transport: TransportSection): (s: seq<byte>)
    ensures |s| == |c| + 64 && c <= s
  {
    c + U8Bytes(transport.transportType) + DoubleBytes(transport.speed) + DoubleBytes(transport.acceleration)
    + DoubleBytes(transport.deceleration) + WordBytes(transport.speedingUpPasses)
    + BoolBytes(transport.speedingDown) + DoubleBytes(transport.minSpeed) + Zeros(26)
  }

  /** What `readTransportSection` returns when it starts at position p. */
  function DecodeTransport(s: seq<byte>, p: int): TransportSection
    requires 0 <= p && p + 38 <= |s|
  {
    TransportSection(U8At(s, p), DoubleAt(s, p + 1), DoubleAt(s, p + 9), DoubleAt(s, p + 17),
      Uint32At(s, p + 25), BoolAt(s, p + 29), DoubleAt(s, p + 30))
  }

  /** The record as it reads back: `transportType` masked to a byte, `speedingUpPasses` taken modulo 2^32. */
  function MaskTransport(transport: TransportSection): (masked: TransportSection)
    ensures masked == transport <==> 0 <= transport.transportType < 256 && 0 <= transport.speedingUpPasses < 0x1_0000_0000
  {
    WordWidth(transport.speedingUpPasses);
    transport.(transportType := Low8(transport.transportType) as int,
               speedingUpPasses := transport.speedingUpPasses % 0x1_0000_0000)
  }

  /** `writeTransportSection`. */
  method WriteTransportSection(stream: Stream, transport: TransportSection)
    modifies stream
    ensures stream.content == TransportWritten(old(stream.content), transport)
    ensures stream.position == old(stream.position) + 64
  {
    stream.WriteUnsigned8(transport.transportType);
    stream.WriteDouble(transport.speed);
    stream.WriteDouble(transport.acceleration);
    stream.WriteDouble(transport.deceleration);
    stream.WriteUnsignedInteger(transport.speedingUpPasses);
    stream.WriteBoolean(transport.speedingDown);
    stream.WriteDouble(transport.minSpeed);
    stream.WriteNull(26);
  }

  /** `readTransportSection`: the last double ends 38 bytes after the start; the padding needs no bytes. */
  method ReadTransportSection(stream: Stream) returns (transport: TransportSection)
    requires 0 <= stream.position && stream.position + 38 <= |stream.content|
    modifies stream
    ensures stream.content == old(stream.content) && stream.position == old(stream.position) + 64
    ensures transport == DecodeTransport(stream.content, old(stream.position))
  {
    var transportType := stream.ReadUnsigned8();
    var speed := stream.ReadDouble();
    var acceleration := stream.ReadDouble();
    var deceleration := stream.ReadDouble();
    var speedingUpPasses := stream.ReadUnsignedInteger();
    var speedingDown := stream.ReadBoolean();
    var minSpeed := stream.ReadDouble();
    stream.ReadNull(26);
    transport := TransportSection(transportType, speed, acceleration, deceleration, speedingUpPasses, speedingDown, minSpeed);
  }

  lemma {:induction false} TransportHeadRead(y: seq<byte>, transport: TransportSection, s: seq<byte>)
    requires y + U8Bytes(transport.transportType) + DoubleBytes(transport.speed) + DoubleBytes(transport.acceleration)
      + DoubleBytes(transport.deceleration) <= s
    ensures y <= s && |y| + 25 <= |s|
    ensures U8At(s, |y|) == Low8(transport.transportType) as int && DoubleAt(s, |y| + 1) == transport.speed
    ensures DoubleAt(s, |y| + 9) == transport.acceleration && DoubleAt(s, |y| + 17) == transport.deceleration
  {
    var y1 := y + U8Bytes(transport.transportType);
    var y2 := y1 + DoubleBytes(transport.speed);
    var y3 := y2 + DoubleBytes(transport.acceleration);
    DoublePiece(y3, transport.deceleration, s);
    DoublePiece(y2, transport.acceleration, s);
    DoublePiece(y1, transport.speed, s);
    U8Piece(y, transport.transportType, s);
  }

  lemma {:induction false} TransportTailRead(y: seq<byte>, transport: TransportSection, s: seq<byte>)
    requires y + WordBytes(transport.speedingUpPasses) + BoolBytes(transport.speedingDown)
      + DoubleBytes(transport.minSpeed) + Zeros(26) <= s
    ensures y <= s && |y| + 39 <= |s|
    ensures Uint32At(s, |y|) == transport.speedingUpPasses % 0x1_0000_0000
    ensures BoolAt(s, |y| + 4) == transport.speedingDown && DoubleAt(s, |y| + 5) == transport.minSpeed
  {
    var y1 := y + WordBytes(transport.speedingUpPasses);
    var y2 := y1 + BoolBytes(transport.speedingDown);
    var y3 := y2 + DoubleBytes(transport.minSpeed);
    ZerosPiece(y3, 26, s);
    DoublePiece(y2, transport.minSpeed, s);
    BoolPiece(y1, transport.speedingDown, s);
    WordPiece(y, transport.speedingUpPasses, s);
  }

  /**
   * Reading a written transport section gives back the record with its
   * integer fields reduced to their widths; that is the record itself
   * exactly when `transportType` is in 0..255 and `speedingUpPasses` is a
   * uint32.
   */
  lemma {:induction false} TransportRoundTrip(c: seq<byte>, transport: TransportSection, suffix: seq<byte>)
    ensures |c| + 38 <= |TransportWritten(c, transport) + suffix|
    ensures DecodeTransport(TransportWritten(c, transport) + suffix, |c|) == MaskTransport(transport)
    ensures DecodeTransport(TransportWritten(c, transport) + suffix, |c|) == transport
      <==> 0 <= transport.transportType < 256 && 0 <= transport.speedingUpPasses < 0x1_0000_0000
  {
    var s := TransportWritten(c, transport) + suffix;
    var head := c + U8Bytes(transport.transportType) + DoubleBytes(transport.speed) + DoubleBytes(transport.acceleration)
      + DoubleBytes(transport.deceleration);
    TransportTailRead(head, transport, s);
    TransportHeadRead(c, transport, s);
  }
}
