/**
 * The byte layouts behind src/helper/nl2park/nolimits-stream.ts: big-endian
 * 32-bit words and IEEE 754 codes as `DataView` stores them, single bytes,
 * booleans, colours, zero padding and the two-bytes-per-character string
 * format. Each encoder has a decoder that reads it back from a position in a
 * larger byte sequence, and a "piece" lemma says what the decoder sees when
 * the encoded bytes sit at that position.
 *
 * Doubles and floats are kept as the bit patterns `setFloat64`/`setFloat32`
 * store, so a stored number is an integer below 2^64 (resp. 2^32).
 */
module NoLimitsBytes {
  import opened Wrappers

  newtype byte = x: int | 0 <= x < 256

  /** The 64-bit pattern of an IEEE 754 binary64 number. */
  type DoubleBits = x: int | 0 <= x < 0x1_0000_0000_0000_0000

  /** The 32-bit pattern of an IEEE 754 binary32 number. */
  type FloatBits = x: int | 0 <= x < 0x1_0000_0000

  /** A UTF-16 code unit, what `charCodeAt` returns. */
  type CodeUnit = x: int | 0 <= x < 0x1_0000

  /** A JavaScript string: its code units. */
  type JsString = seq<CodeUnit>

  /** `[number, number, number]`, a colour's red, green and blue components. */
  datatype Color = Color(red: int, green: int, blue: int)

  function Pow256(w: nat): (p: nat)
    ensures p > 0
  {
    if w == 0 then 1 else 256 * Pow256(w - 1)
  }

  /** The low w bytes of v, most significant first (v taken modulo 256^w). */
  function BigEndian(v: int, w: nat): (bytes: seq<byte>)
    ensures |bytes| == w
    decreases w
  {
    if w == 0 then [] else BigEndian(v / 256, w - 1) + [(v % 256) as byte]
  }

  /** The unsigned number whose big-endian bytes are `bytes`. */
  function FromBigEndian(bytes: seq<byte>): (v: nat)
    ensures v < Pow256(|bytes|)
  {
    if |bytes| == 0 then 0
    else
      var high := FromBigEndian(bytes[..|bytes| - 1]);
      assert high * 256 + 255 <= Pow256(|bytes| - 1) * 256;
      high * 256 + bytes[|bytes| - 1] as int
  }

  /** Euclidean remainders are unique. */
  lemma ModUnique(v: int, d: int, a: int, b: int)
    requires d > 0 && v == d * a + b && 0 <= b < d
    ensures v % d == b
  {
    var a', b' := v / d, v % d;
    assert v == d * a' + b';
    assert d * (a - a') == b' - b;
    if a - a' >= 1 {
      assert false;
    } else if a - a' <= -1 {
      assert false;
    }
  }

  /** Taking v modulo 256 * m one byte at a time. */
  lemma ModStep(v: int, m: nat)
    requires m > 0
    ensures ((v / 256) % m) * 256 + v % 256 == v % (256 * m)
  {
    var q, r := v / 256, v % 256;
    var a, b := q / m, q % m;
    assert v == 256 * q + r;
    assert q == m * a + b;
    assert v == (256 * m) * a + (256 * b + r);
    assert 0 <= 256 * b + r < 256 * m;
    ModUnique(v, 256 * m, a, 256 * b + r);
  }

  /** Reading back w big-endian bytes gives the value modulo 256^w. */
  lemma {:induction false} BigEndianRoundTrip(v: int, w: nat)
    ensures FromBigEndian(BigEndian(v, w)) == v % Pow256(w)
    decreases w
  {
    if w > 0 {
      var bytes := BigEndian(v, w);
      assert bytes[..w - 1] == BigEndian(v / 256, w - 1);
      BigEndianRoundTrip(v / 256, w - 1);
      ModStep(v, Pow256(w - 1));
    }
  }

  lemma WordLimit()
    ensures Pow256(4) == 0x1_0000_0000
  {
  }

  lemma DoubleLimit()
    ensures Pow256(8) == 0x1_0000_0000_0000_0000
  {
    WordLimit();
  }

  // ---------------------------------------------------------------- encoders

  /** `value & 0xff`, the byte `writeUnsigned8` stores. */
  function Low8(v: int): (b: byte)
    ensures 0 <= v < 256 ==> b as int == v
  {
    (v % 256) as byte
  }

  /** A value survives reduction modulo 2^32 exactly when it is a uint32. */
  lemma WordWidth(v: int)
    ensures v % 0x1_0000_0000 == v <==> 0 <= v < 0x1_0000_0000
  {
  }

  /** `writeNull(n)`: a fresh `ArrayBuffer(n)`, all zeros. */
  function Zeros(n: nat): (bytes: seq<byte>)
    ensures |bytes| == n
  {
    seq(n, _ => 0 as byte)
  }

  /** `writeUnsigned8`. */
  function U8Bytes(v: int): (bytes: seq<byte>)
    ensures |bytes| == 1
  {
    [Low8(v)]
  }

  /** `writeBoolean`: 1 for true, 0 for false. */
  function BoolBytes(b: bool): (bytes: seq<byte>)
    ensures |bytes| == 1
  {
    [if b then 1 else 0]
  }

  /**
   * `setUint32`/`setInt32` in big-endian order: both store v modulo 2^32
   * (two's complement for negative v). `setFloat32` stores the 32-bit
   * pattern of a float the same way.
   */
  function WordBytes(v: int): (bytes: seq<byte>)
    ensures |bytes| == 4
  {
    BigEndian(v, 4)
  }

  /** `setFloat64` in big-endian order. */
  function DoubleBytes(d: DoubleBits): (bytes: seq<byte>)
    ensures |bytes| == 8
  {
    BigEndian(d, 8)
  }

  /** `writeColor`: the three components as masked bytes. */
  function ColorBytes(c: Color): (bytes: seq<byte>)
    ensures |bytes| == 3
  {
    U8Bytes(c.red) + U8Bytes(c.green) + U8Bytes(c.blue)
  }

  /** The loop of `writeString`: a zero byte then the masked code unit, per character. */
  function CharBytes(s: JsString): (bytes: seq<byte>)
    ensures |bytes| == 2 * |s|
  {
    if |s| == 0 then [] else CharBytes(s[..|s| - 1]) + [0, Low8(s[|s| - 1])]
  }

  /** `writeString`: the characters, then two zero bytes. */
  function StringBytes(s: JsString): (bytes: seq<byte>)
    ensures |bytes| == 2 * |s| + 2
  {
    CharBytes(s) + [0, 0]
  }

  // ---------------------------------------------------------------- decoders

  /** `content[p]` for a position inside the content. */
  function U8At(s: seq<byte>, p: int): (v: int)
    requires 0 <= p < |s|
    ensures 0 <= v < 256
  {
    s[p] as int
  }

  /** `!!content[p]`: `undefined` outside the content reads as false. */
  function BoolAt(s: seq<byte>, p: int): (b: bool)
    ensures b ==> 0 <= p < |s|
  {
    0 <= p < |s| && s[p] != 0
  }

  /** `getUint32`. */
  function Uint32At(s: seq<byte>, p: int): (v: int)
    requires 0 <= p && p + 4 <= |s|
    ensures 0 <= v < 0x1_0000_0000
  {
    WordLimit();
    FromBigEndian(s[p..p + 4])
  }

  /** `getInt32`: the word read as two's complement. */
  function Int32At(s: seq<byte>, p: int): (v: int)
    requires 0 <= p && p + 4 <= |s|
    ensures -0x8000_0000 <= v < 0x8000_0000
  {
    var u := Uint32At(s, p);
    if u >= 0x8000_0000 then u - 0x1_0000_0000 else u
  }

  /** `getFloat64`. */
  function DoubleAt(s: seq<byte>, p: int): DoubleBits
    requires 0 <= p && p + 8 <= |s|
  {
    DoubleLimit();
    FromBigEndian(s[p..p + 8])
  }

  /** `getFloat32`. */
  function FloatAt(s: seq<byte>, p: int): FloatBits
    requires 0 <= p && p + 4 <= |s|
  {
    WordLimit();
    FromBigEndian(s[p..p + 4])
  }

  /** `readColor`: three single bytes. */
  function ColorAt(s: seq<byte>, p: int): (c: Color)
    requires 0 <= p && p + 3 <= |s|
    ensures 0 <= c.red < 256 && 0 <= c.green < 256 && 0 <= c.blue < 256
  {
    Color(U8At(s, p), U8At(s, p + 1), U8At(s, p + 2))
  }

  /**
   * `readString` from position p: the code units taken from the second byte
   * of each pair, up to the first pair whose second byte is 0, and the
   * position after that pair. None when the scan runs off the end of the
   * content without meeting a 0: `content[p + 1]` is then `undefined`,
   * which never equals 0, and the source loop does not stop.
   */
  function StringAt(s: seq<byte>, p: nat): (r: Option<(JsString, nat)>)
    ensures r.Some? ==> r.value.1 == p + 2 * |r.value.0| + 2 <= |s|
    decreases |s| - p
  {
    if p + 1 >= |s| then None
    else if s[p + 1] == 0 then Some(([], p + 2))
    else
      match StringAt(s, p + 2)
      case None => None
      case Some((rest, end)) => Some(([s[p + 1] as CodeUnit] + rest, end))
  }

  // ------------------------------------------------------------- round trips

  /** `getUint32` reads back what `setUint32` stored: the value modulo 2^32. */
  lemma WordRoundTrip(v: int)
    ensures Uint32At(WordBytes(v), 0) == v % 0x1_0000_0000
  {
    BigEndianRoundTrip(v, 4);
    WordLimit();
    assert WordBytes(v)[0..4] == WordBytes(v);
  }

  /** `getInt32` reads back what `setInt32` stored, for every value in the signed 32-bit range. */
  lemma IntegerRoundTrip(v: int)
    requires -0x8000_0000 <= v < 0x8000_0000
    ensures Int32At(WordBytes(v), 0) == v
  {
    WordRoundTrip(v);
    if v < 0 {
      ModUnique(v, 0x1_0000_0000, -1, v + 0x1_0000_0000);
    }
  }

  /** `getFloat64` reads back the pattern `setFloat64` stored. */
  lemma DoubleRoundTrip(d: DoubleBits)
    ensures DoubleAt(DoubleBytes(d), 0) == d
  {
    BigEndianRoundTrip(d, 8);
    DoubleLimit();
    assert DoubleBytes(d)[0..8] == DoubleBytes(d);
  }

  /** `getFloat32` reads back the pattern `setFloat32` stored. */
  lemma FloatRoundTrip(f: FloatBits)
    ensures FloatAt(WordBytes(f), 0) == f
  {
    BigEndianRoundTrip(f, 4);
    WordLimit();
    assert WordBytes(f)[0..4] == WordBytes(f);
  }

  /** The characters of a string can also be taken from the front. */
  lemma {:induction false} CharBytesFront(s: JsString)
    requires |s| > 0
    ensures CharBytes(s) == [0, Low8(s[0])] + CharBytes(s[1..])
    decreases |s|
  {
    if |s| > 1 {
      var init := s[..|s| - 1];
      CharBytesFront(init);
      assert init[1..] == s[1..][..|s| - 2];
    }
  }

  // ------------------------------------------------------------ piece lemmas

  /** Two pieces appended one after another to a sequence are appended as one. */
  lemma Associate(s: seq<byte>, a: seq<byte>, b: seq<byte>)
    ensures s + a + b == s + (a + b)
  {
  }

  /** Three pieces appended one after another to a sequence are appended as one. */
  lemma Regroup(s: seq<byte>, a: seq<byte>, b: seq<byte>, c: seq<byte>)
    ensures s + a + b + c == s + (a + b + c)
  {
  }

  /** A sequence is a prefix of itself followed by anything. */
  lemma Prefix(y: seq<byte>, rest: seq<byte>)
    ensures y <= y + rest
  {
  }

  /** Bytes at a known place: when `y + piece` starts `s`, so does y, and `piece` follows it. */
  lemma Piece(y: seq<byte>, piece: seq<byte>, s: seq<byte>)
    requires y + piece <= s
    ensures y <= s
    ensures s[|y|..|y| + |piece|] == piece
  {
    assert s[..|y| + |piece|] == y + piece;
    assert s[..|y|] == (y + piece)[..|y|];
  }

  lemma ZerosPiece(y: seq<byte>, n: nat, s: seq<byte>)
    requires y + Zeros(n) <= s
    ensures y <= s && |y| + n <= |s|
  {
    Piece(y, Zeros(n), s);
  }

  lemma U8Piece(y: seq<byte>, v: int, s: seq<byte>)
    requires y + U8Bytes(v) <= s
    ensures y <= s && |y| < |s| && U8At(s, |y|) == Low8(v) as int
  {
    Piece(y, U8Bytes(v), s);
    assert s[|y|] == s[|y|..|y| + 1][0];
  }

  lemma BoolPiece(y: seq<byte>, b: bool, s: seq<byte>)
    requires y + BoolBytes(b) <= s
    ensures y <= s && |y| < |s| && BoolAt(s, |y|) == b
  {
    Piece(y, BoolBytes(b), s);
    assert s[|y|] == s[|y|..|y| + 1][0];
  }

  lemma WordPiece(y: seq<byte>, v: int, s: seq<byte>)
    requires y + WordBytes(v) <= s
    ensures y <= s && |y| + 4 <= |s| && Uint32At(s, |y|) == v % 0x1_0000_0000
    ensures 0 <= v < 0x1_0000_0000 ==> Uint32At(s, |y|) == v
  {
    Piece(y, WordBytes(v), s);
    WordRoundTrip(v);
    assert WordBytes(v)[0..4] == WordBytes(v);
  }

  lemma DoublePiece(y: seq<byte>, d: DoubleBits, s: seq<byte>)
    requires y + DoubleBytes(d) <= s
    ensures y <= s && |y| + 8 <= |s| && DoubleAt(s, |y|) == d
  {
    Piece(y, DoubleBytes(d), s);
    DoubleRoundTrip(d);
    assert DoubleBytes(d)[0..8] == DoubleBytes(d);
  }

  lemma FloatPiece(y: seq<byte>, f: FloatBits, s: seq<byte>)
    requires y + WordBytes(f) <= s
    ensures y <= s && |y| + 4 <= |s| && FloatAt(s, |y|) == f
  {
    Piece(y, WordBytes(f), s);
    FloatRoundTrip(f);
    assert WordBytes(f)[0..4] == WordBytes(f);
  }

  /** A colour as it reads back after `writeColor`: each component masked to a byte. */
  function MaskColor(c: Color): (m: Color)
    ensures m == c <==> 0 <= c.red < 256 && 0 <= c.green < 256 && 0 <= c.blue < 256
  {
    Color(Low8(c.red) as int, Low8(c.green) as int, Low8(c.blue) as int)
  }

  /** A colour's components read back masked to a byte each. */
  lemma ColorPiece(y: seq<byte>, c: Color, s: seq<byte>)
    requires y + ColorBytes(c) <= s
    ensures y <= s && |y| + 3 <= |s|
    ensures ColorAt(s, |y|) == MaskColor(c)
  {
    Piece(y, ColorBytes(c), s);
    assert s[|y|] == ColorBytes(c)[0];
    assert s[|y| + 1] == ColorBytes(c)[1];
    assert s[|y| + 2] == ColorBytes(c)[2];
  }

  /** Every code unit is in 1..255: what `writeString`/`readString` carry unchanged. */
  predicate ByteString(s: JsString) {
    forall i :: 0 <= i < |s| ==> 1 <= s[i] < 256
  }

  /**
   * `readString` reads back what `writeString` wrote when every code unit is
   * in 1..255, and stops right after the two closing zero bytes.
   */
  lemma {:induction false} StringPiece(y: seq<byte>, str: JsString, s: seq<byte>)
    requires y + StringBytes(str) <= s
    requires ByteString(str)
    ensures y <= s
    ensures StringAt(s, |y|) == Some((str, |y| + |StringBytes(str)|))
    decreases |str|
  {
    Piece(y, StringBytes(str), s);
    if |str| == 0 {
      assert s[|y| + 1] == StringBytes(str)[1];
    } else {
      CharBytesFront(str);
      var y' := y + [0, Low8(str[0])];
      assert y' + StringBytes(str[1..]) == y + StringBytes(str);
      StringPiece(y', str[1..], s);
      assert s[|y| + 1] == StringBytes(str)[1];
      assert [str[0]] + str[1..] == str;
    }
  }

  /** `StringPiece` for a string whose bytes are known to sit at position p. */
  lemma {:induction false} StringSlice(s: seq<byte>, p: nat, str: JsString)
    requires p + |StringBytes(str)| <= |s| && s[p..p + |StringBytes(str)|] == StringBytes(str)
    requires ByteString(str)
    ensures StringAt(s, p) == Some((str, p + |StringBytes(str)|))
  {
    var y := s[..p];
    assert y + StringBytes(str) == s[..p + |StringBytes(str)|];
    StringPiece(y, str, s);
  }

  /** Every string of a list survives `writeString`/`readString`. */
  predicate ByteStrings(strs: seq<JsString>) {
    forall i :: 0 <= i < |strs| ==> ByteString(strs[i])
  }

  /** The strings after the first survive when all of them do. */
  lemma ByteStringsTail(strs: seq<JsString>)
    requires |strs| > 0 && ByteStrings(strs)
    ensures ByteStrings(strs[1..])
  {
    var rest := strs[1..];
    forall i | 0 <= i < |rest| ensures ByteString(rest[i]) {
      assert rest[i] == strs[i + 1];
    }
  }
}
