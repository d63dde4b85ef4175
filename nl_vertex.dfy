/**
 * Track vertex record (src/helper/nl2park/track/vertex.ts): a position of
 * four doubles, the `locked` and `strict` flags, and 22 bytes of zero
 * padding; 56 bytes in all.
 */
module NoLimitsVertex {
  import opened NoLimitsBytes
  import opened NoLimitsStream

  datatype Vertex = Vertex(position: DoubleQuad, locked: bool, strict: bool)

  /** The content after `writeVertex` appended `vertex` to content `c`. */
  function VertexWritten(c: seq<byte>, vertex: Vertex): (s: seq<byte>)
    ensures |s| == |c| + 56 && c <= s
  {
    var x, y, z, w := vertex.position[0], vertex.position[1], vertex.position[2], vertex.position[3];
    c + DoubleBytes(x) + DoubleBytes(y) + DoubleBytes(z) + DoubleBytes(w)
    + BoolBytes(vertex.locked) + BoolBytes(vertex.strict) + Zeros(22)
  }

  /** What `readVertex` returns when it starts at position p. */
  function DecodeVertex(s: seq<byte>, p: int): Vertex
    requires 0 <= p && p + 32 <= |s|
  {
    Vertex([DoubleAt(s, p), DoubleAt(s, p + 8), DoubleAt(s, p + 16), DoubleAt(s, p + 24)],
      BoolAt(s, p + 32), BoolAt(s, p + 33))
  }

  /** `writeVertex`. */
  method WriteVertex(stream: Stream, vertex: Vertex)
    modifies stream
    ensures stream.content == VertexWritten(old(stream.content), vertex)
    ensures stream.position == old(stream.position) + 56
  {
    stream.WriteDoubleVector4(vertex.position);
    stream.WriteBoolean(vertex.locked);
    stream.WriteBoolean(vertex.strict);
    stream.WriteNull(22);
  }

  /** `readVertex`: the four doubles must be there; the flags and padding need no bytes. */
  method ReadVertex(stream: Stream) returns (vertex: Vertex)
    requires 0 <= stream.position && stream.position + 32 <= |stream.content|
    modifies stream
    ensures stream.content == old(stream.content) && stream.position == old(stream.position) + 56
    ensures vertex == DecodeVertex(stream.content, old(stream.position))
  {
    var position := stream.ReadDoubleVector4();
    var locked := stream.ReadBoolean();
    var strict := stream.ReadBoolean();
    vertex := Vertex(position, locked, strict);
    stream.ReadNull(22);
  }

  lemma {:induction false} PositionRead(y: seq<byte>, position: DoubleQuad, s: seq<byte>)
    requires y + DoubleBytes(position[0]) + DoubleBytes(position[1]) + DoubleBytes(position[2])
      + DoubleBytes(position[3]) <= s
    ensures y <= s && |y| + 32 <= |s|
    ensures [DoubleAt(s, |y|), DoubleAt(s, |y| + 8), DoubleAt(s, |y| + 16), DoubleAt(s, |y| + 24)] == position
  {
    var y1 := y + DoubleBytes(position[0]);
    var y2 := y1 + DoubleBytes(position[1]);
    var y3 := y2 + DoubleBytes(position[2]);
    DoublePiece(y3, position[3], s);
    DoublePiece(y2, position[2], s);
    DoublePiece(y1, position[1], s);
    DoublePiece(y, position[0], s);
  }

  /** The four position doubles and both flags read back exactly, whatever surrounds the record. */
  lemma {:induction false} VertexRoundTrip(c: seq<byte>, vertex: Vertex, suffix: seq<byte>)
    ensures |c| + 32 <= |VertexWritten(c, vertex) + suffix|
    ensures DecodeVertex(VertexWritten(c, vertex) + suffix, |c|) == vertex
  {
    var s := VertexWritten(c, vertex) + suffix;
    var y := c + DoubleBytes(vertex.position[0]) + DoubleBytes(vertex.position[1]) + DoubleBytes(vertex.position[2])
      + DoubleBytes(vertex.position[3]);
    var y1 := y + BoolBytes(vertex.locked);
    var y2 := y1 + BoolBytes(vertex.strict);
    ZerosPiece(y2, 22, s);
    BoolPiece(y1, vertex.strict, s);
    BoolPiece(y, vertex.locked, s);
    PositionRead(c, vertex.position, s);
  }
}
