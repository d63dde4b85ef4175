/**
 * `NoLimitsStream` (src/helper/nl2park/nolimits-stream.ts): a byte array and
 * a cursor. Every write replaces the content by the old content followed by
 * the new bytes and moves the cursor by their count; every read decodes the
 * bytes at the cursor and moves it past them. `DataView` reads throw a
 * RangeError outside the content, so those reads require their bytes to be
 * there; a single-byte read outside the content yields `undefined`, which
 * the model does not represent, so it requires its byte as well.
 */
module NoLimitsStream {
  import opened Wrappers
  import opened NoLimitsBytes

  /** `[number, number, number, number]` as `writeDoubleVector4` takes it. */
  type DoubleQuad = v: seq<DoubleBits> | |v| == 4 witness [0, 0, 0, 0]

  class Stream {
    var content: seq<byte>
    var position: int

    /** `fromUint8Array(content, position)`; `fromArrayBuffer` is the same over a buffer's bytes. */
    constructor (content: seq<byte>, position: int)
      ensures this.content == content && this.position == position
    {
      this.content := content;
      this.position := position;
    }

    /** `write`: the content becomes the old content followed by `bytes`; the cursor moves by their count. */
    method Write(bytes: seq<byte>)
      modifies this
      ensures content == old(content) + bytes
      ensures position == old(position) + |bytes|
    {
      content := content + bytes;
      position := position + |bytes|;
    }

    /** `writeDouble`. */
    method WriteDouble(value: DoubleBits)
      modifies this
      ensures content == old(content) + DoubleBytes(value)
      ensures position == old(position) + 8
    {
      Write(DoubleBytes(value));
    }

    /** `writeFloat` as written: an 8-byte buffer whose first 4 bytes hold the float. */
    method WriteFloat(value: FloatBits)
      modifies this
      ensures content == old(content) + WordBytes(value) + Zeros(4)
      ensures position == old(position) + 8
    {
      var buffer := WordBytes(value) + Zeros(4);
      Write(buffer);
    }

    /** `writeFloat` with the 4-byte buffer that `readFloat` consumes. */
    method WriteFloat32(value: FloatBits)
      modifies this
      ensures content == old(content) + WordBytes(value)
      ensures position == old(position) + 4
    {
      Write(WordBytes(value));
    }

    /** `writeUnsignedInteger`: `setUint32` stores the value modulo 2^32. */
    method WriteUnsignedInteger(value: int)
      modifies this
      ensures content == old(content) + WordBytes(value)
      ensures position == old(position) + 4
    {
      Write(WordBytes(value));
    }

    /** `writeInteger`: `setInt32` stores the same four bytes as `setUint32`. */
    method WriteInteger(value: int)
      modifies this
      ensures content == old(content) + WordBytes(value)
      ensures position == old(position) + 4
    {
      Write(WordBytes(value));
    }

    /** `writeBoolean`. */
    method WriteBoolean(value: bool)
      modifies this
      ensures content == old(content) + BoolBytes(value)
      ensures position == old(position) + 1
    {
      Write(BoolBytes(value));
    }

    /** `writeNull`: `byteCount` zero bytes (a negative count makes `ArrayBuffer` throw). */
    method WriteNull(byteCount: nat)
      modifies this
      ensures content == old(content) + Zeros(byteCount)
      ensures position == old(position) + byteCount
    {
      Write(Zeros(byteCount));
    }

    /** `writeUnsigned8`: the value masked with `& 0xff`. */
    method WriteUnsigned8(value: int)
      modifies this
      ensures content == old(content) + U8Bytes(value)
      ensures position == old(position) + 1
    {
      Write(U8Bytes(value));
    }

    /** `writeString`: per character a zero byte and the masked code unit, then two zero bytes. */
    method WriteString(value: JsString)
      modifies this
      ensures content == old(content) + StringBytes(value)
      ensures position == old(position) + |StringBytes(value)|
    {
      for i := 0 to |value|
        invariant content == old(content) + CharBytes(value[..i])
        invariant position == old(position) + 2 * i
      {
        WriteNull(1);
        WriteUnsigned8(value[i]);
        assert value[..i + 1][..i] == value[..i];
        assert Zeros(1) + U8Bytes(value[i]) == [0, Low8(value[i])];
      }
      WriteNull(2);
      assert value[..|value|] == value;
      assert Zeros(2) == [0, 0];
    }

    /** `writeColor` (`writeUnsigned8Vector3`): the three components, each masked. */
    method WriteColor(color: Color)
      modifies this
      ensures content == old(content) + ColorBytes(color)
      ensures position == old(position) + 3
    {
      WriteUnsigned8(color.red);
      WriteUnsigned8(color.green);
      WriteUnsigned8(color.blue);
    }

    /** `writeDoubleVector4`. */
    method WriteDoubleVector4(value: DoubleQuad)
      modifies this
      ensures content == old(content) + DoubleBytes(value[0]) + DoubleBytes(value[1])
        + DoubleBytes(value[2]) + DoubleBytes(value[3])
      ensures position == old(position) + 32
    {
      WriteDouble(value[0]);
      WriteDouble(value[1]);
      WriteDouble(value[2]);
      WriteDouble(value[3]);
    }

    /** `writeDoubleVector3`. */
    method WriteDoubleVector3(x: DoubleBits, y: DoubleBits, z: DoubleBits)
      modifies this
      ensures content == old(content) + DoubleBytes(x) + DoubleBytes(y) + DoubleBytes(z)
      ensures position == old(position) + 24
    {
      WriteDouble(x);
      WriteDouble(y);
      WriteDouble(z);
    }

    /** `writeDoubleVector2`. */
    method WriteDoubleVector2(x: DoubleBits, y: DoubleBits)
      modifies this
      ensures content == old(content) + DoubleBytes(x) + DoubleBytes(y)
      ensures position == old(position) + 16
    {
      WriteDouble(x);
      WriteDouble(y);
    }

    /** `writeIntegerVector2`. */
    method WriteIntegerVector2(x: int, y: int)
      modifies this
      ensures content == old(content) + WordBytes(x) + WordBytes(y)
      ensures position == old(position) + 8
    {
      WriteInteger(x);
      WriteInteger(y);
    }

    /** `writeFloatVector2`: two 8-byte `writeFloat`s. */
    method WriteFloatVector2(x: FloatBits, y: FloatBits)
      modifies this
      ensures content == old(content) + WordBytes(x) + Zeros(4) + WordBytes(y) + Zeros(4)
      ensures position == old(position) + 16
    {
      WriteFloat(x);
      WriteFloat(y);
    }

    /** `writeFloatVector3`: three 8-byte `writeFloat`s. */
    method WriteFloatVector3(x: FloatBits, y: FloatBits, z: FloatBits)
      modifies this
      ensures content == old(content) + WordBytes(x) + Zeros(4) + WordBytes(y) + Zeros(4)
        + WordBytes(z) + Zeros(4)
      ensures position == old(position) + 24
    {
      WriteFloat(x);
      WriteFloat(y);
      WriteFloat(z);
    }

    /** `readInteger`. */
    method ReadInteger() returns (value: int)
      requires 0 <= position && position + 4 <= |content|
      modifies this
      ensures content == old(content) && position == old(position) + 4
      ensures value == Int32At(content, old(position))
    {
      value := Int32At(content, position);
      position := position + 4;
    }

    /** `readUnsignedInteger`. */
    method ReadUnsignedInteger() returns (value: int)
      requires 0 <= position && position + 4 <= |content|
      modifies this
      ensures content == old(content) && position == old(position) + 4
      ensures value == Uint32At(content, old(position))
    {
      value := Uint32At(content, position);
      position := position + 4;
    }

    /** `readFloat`: four bytes. */
    method ReadFloat() returns (value: FloatBits)
      requires 0 <= position && position + 4 <= |content|
      modifies this
      ensures content == old(content) && position == old(position) + 4
      ensures value == FloatAt(content, old(position))
    {
      value := FloatAt(content, position);
      position := position + 4;
    }

    /** `readDouble`. */
    method ReadDouble() returns (value: DoubleBits)
      requires 0 <= position && position + 8 <= |content|
      modifies this
      ensures content == old(content) && position == old(position) + 8
      ensures value == DoubleAt(content, old(position))
    {
      value := DoubleAt(content, position);
      position := position + 8;
    }

    /** `readUnsigned8`. */
    method ReadUnsigned8() returns (value: int)
      requires 0 <= position < |content|
      modifies this
      ensures content == old(content) && position == old(position) + 1
      ensures value == U8At(content, old(position))
    {
      value := U8At(content, position);
      position := position + 1;
    }

    /** `readBoolean`: `!!content[position]`, false past the end. */
    method ReadBoolean() returns (value: bool)
      modifies this
      ensures content == old(content) && position == old(position) + 1
      ensures value == BoolAt(content, old(position))
    {
      value := BoolAt(content, position);
      position := position + 1;
    }

    /** `readColor` (`readUnsigned8Vector3`). */
    method ReadColor() returns (color: Color)
      requires 0 <= position && position + 3 <= |content|
      modifies this
      ensures content == old(content) && position == old(position) + 3
      ensures color == ColorAt(content, old(position))
    {
      var red := ReadUnsigned8();
      var green := ReadUnsigned8();
      var blue := ReadUnsigned8();
      color := Color(red, green, blue);
    }

    /** `readDoubleVector4`. */
    method ReadDoubleVector4() returns (value: DoubleQuad)
      requires 0 <= position && position + 32 <= |content|
      modifies this
      ensures content == old(content) && position == old(position) + 32
      ensures value == [DoubleAt(content, old(position)), DoubleAt(content, old(position) + 8),
                        DoubleAt(content, old(position) + 16), DoubleAt(content, old(position) + 24)]
    {
      var a := ReadDouble();
      var b := ReadDouble();
      var c := ReadDouble();
      var d := ReadDouble();
      value := [a, b, c, d];
    }

    /** `readDoubleVector3`. */
    method ReadDoubleVector3() returns (x: DoubleBits, y: DoubleBits, z: DoubleBits)
      requires 0 <= position && position + 24 <= |content|
      modifies this
      ensures content == old(content) && position == old(position) + 24
      ensures x == DoubleAt(content, old(position)) && y == DoubleAt(content, old(position) + 8)
      ensures z == DoubleAt(content, old(position) + 16)
    {
      x := ReadDouble();
      y := ReadDouble();
      z := ReadDouble();
    }

    /** `readDoubleVector2`. */
    method ReadDoubleVector2() returns (x: DoubleBits, y: DoubleBits)
      requires 0 <= position && position + 16 <= |content|
      modifies this
      ensures content == old(content) && position == old(position) + 16
      ensures x == DoubleAt(content, old(position)) && y == DoubleAt(content, old(position) + 8)
    {
      x := ReadDouble();
      y := ReadDouble();
    }

    /** `readIntegerVector2`. */
    method ReadIntegerVector2() returns (x: int, y: int)
      requires 0 <= position && position + 8 <= |content|
      modifies this
      ensures content == old(content) && position == old(position) + 8
      ensures x == Int32At(content, old(position)) && y == Int32At(content, old(position) + 4)
    {
      x := ReadInteger();
      y := ReadInteger();
    }

    /** `readUnsigned8Vector2`. */
    method ReadUnsigned8Vector2() returns (x: int, y: int)
      requires 0 <= position && position + 2 <= |content|
      modifies this
      ensures content == old(content) && position == old(position) + 2
      ensures x == U8At(content, old(position)) && y == U8At(content, old(position) + 1)
    {
      x := ReadUnsigned8();
      y := ReadUnsigned8();
    }

    /** `readFloatVector2`: two 4-byte `readFloat`s. */
    method ReadFloatVector2() returns (x: FloatBits, y: FloatBits)
      requires 0 <= position && position + 8 <= |content|
      modifies this
      ensures content == old(content) && position == old(position) + 8
      ensures x == FloatAt(content, old(position)) && y == FloatAt(content, old(position) + 4)
    {
      x := ReadFloat();
      y := ReadFloat();
    }

    /** `readFloatVector3`: three 4-byte `readFloat`s. */
    method ReadFloatVector3() returns (x: FloatBits, y: FloatBits, z: FloatBits)
      requires 0 <= position && position + 12 <= |content|
      modifies this
      ensures content == old(content) && position == old(position) + 12
      ensures x == FloatAt(content, old(position)) && y == FloatAt(content, old(position) + 4)
      ensures z == FloatAt(content, old(position) + 8)
    {
      x := ReadFloat();
      y := ReadFloat();
      z := ReadFloat();
    }

    /** `readNull`: the cursor skips `byteCount` bytes. */
    method ReadNull(byteCount: int)
      modifies this
      ensures content == old(content) && position == old(position) + byteCount
    {
      position := position + byteCount;
    }

    /**
     * `readString`: pairs of bytes up to the first pair whose second byte is
     * 0. The source loops forever when no such pair follows the cursor, so
     * the model requires one.
     */
    method ReadString() returns (result: JsString)
      requires 0 <= position && StringAt(content, position).Some?
      modifies this
      ensures content == old(content)
      ensures result == StringAt(content, old(position)).value.0
      ensures position == StringAt(content, old(position)).value.1
    {
      result := [];
      while true
        invariant content == old(content)
        invariant 0 <= position && StringAt(content, position).Some?
        invariant StringAt(content, old(position)).value.0 == result + StringAt(content, position).value.0
        invariant StringAt(content, old(position)).value.1 == StringAt(content, position).value.1
        decreases |content| - position
      {
        var charCode := content[position + 1];
        position := position + 2;
        if charCode == 0 {
          break;
        }
        result := result + [charCode as CodeUnit];
        assert StringAt(content, old(position)).value.0 == result + StringAt(content, position).value.0;
      }
    }
  }

  /**
   * Two floats written with `writeFloat` as written do not read back with
   * two `readFloat`s: the second read meets the 4 padding zeros of the first
   * write instead of the second value.
   */
  lemma FloatPairMisread(c: seq<byte>, a: FloatBits, b: FloatBits)
    requires b != 0
    ensures var s := c + WordBytes(a) + Zeros(4) + WordBytes(b) + Zeros(4);
      FloatAt(s, |c|) == a && FloatAt(s, |c| + 4) != b
  {
    var s := c + WordBytes(a) + Zeros(4) + WordBytes(b) + Zeros(4);
    FloatPiece(c, a, s);
    var y := c + WordBytes(a);
    Piece(y, Zeros(4), s);
    assert Zeros(4) == BigEndian(0, 4);
    BigEndianRoundTrip(0, 4);
  }

  /** With the 4-byte `writeFloat`, consecutive floats read back in order. */
  lemma FloatPairRoundTrip(c: seq<byte>, a: FloatBits, b: FloatBits)
    ensures var s := c + WordBytes(a) + WordBytes(b);
      |c| + 8 <= |s| && FloatAt(s, |c|) == a && FloatAt(s, |c| + 4) == b
  {
    var s := c + WordBytes(a) + WordBytes(b);
    FloatPiece(c + WordBytes(a), b, s);
    FloatPiece(c, a, s);
  }
}
