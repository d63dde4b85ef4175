/**
 * Individual colour record (src/helper/nl2park/coaster/individual-color.ts):
 * a flag, five colours, 16 zero bytes, a uint32 count of car textures, and
 * each texture as 4 zero bytes, a string and 8 zero bytes.
 */
module NoLimitsIndividualColor {
  import opened Wrappers
  import opened NoLimitsBytes
  import opened NoLimitsStream

  datatype IndividualColor = IndividualColor(
    hasIndividualColor: bool,
    carColor: Color,
    seatColor: Color,
    harnessColor: Color,
    bogieColor: Color,
    chassisColor: Color,
    carTextures: seq<JsString>)

  /** One turn of the `writeIndividualColor` loop. */
  function TextureBytes(texture: JsString): seq<byte> {
    Zeros(4) + StringBytes(texture) + Zeros(8)
  }

  /** The loop of `writeIndividualColor` over the car textures. */
  function TexturesBytes(textures: seq<JsString>): seq<byte> {
    if |textures| == 0 then []
    else TexturesBytes(textures[..|textures| - 1]) + TextureBytes(textures[|textures| - 1])
  }

  /** The content after `writeIndividualColor` appended `color` to content `c`; 36 bytes before the textures. */
  function IndividualColorWritten(c: seq<byte>, color: IndividualColor): (s: seq<byte>)
    ensures c <= s && |s| == |c| + 36 + |TexturesBytes(color.carTextures)|
  {
    c + BoolBytes(color.hasIndividualColor)
    + ColorBytes(color.carColor) + ColorBytes(color.seatColor) + ColorBytes(color.harnessColor)
    + ColorBytes(color.bogieColor) + ColorBytes(color.chassisColor)
    + Zeros(16) + WordBytes(|color.carTextures|) + TexturesBytes(color.carTextures)
  }

  /** The loop of `readIndividualColor` from position p for n textures; None when a string never ends. */
  function DecodeTextures(s: seq<byte>, p: nat, n: nat): Option<(seq<JsString>, nat)>
    decreases n
  {
    if n == 0 then Some(([], p))
    else match StringAt(s, p + 4)
      case None => None
      case Some((texture, q)) =>
        match DecodeTextures(s, q + 8, n - 1)
        case None => None
        case Some((rest, end)) => Some(([texture] + rest, end))
  }

  /**
   * What `readIndividualColor` returns from position p, with the position
   * after it: None where the count word lies past the end or a string never
   * ends. The flag and the colours are single bytes, which never throw.
   */
  function DecodeIndividualColor(s: seq<byte>, p: nat): Option<(IndividualColor, nat)> {
    if p + 36 > |s| then None
    else match DecodeTextures(s, p + 36, Uint32At(s, p + 32))
      case None => None
      case Some((textures, q)) =>
        Some((IndividualColor(BoolAt(s, p), ColorAt(s, p + 1), ColorAt(s, p + 4), ColorAt(s, p + 7),
          ColorAt(s, p + 10), ColorAt(s, p + 13), textures), q))
  }

  /** The five colours are byte triples. */
  predicate ColorsInRange(color: IndividualColor) {
    MaskColor(color.carColor) == color.carColor && MaskColor(color.seatColor) == color.seatColor
    && MaskColor(color.harnessColor) == color.harnessColor && MaskColor(color.bogieColor) == color.bogieColor
    && MaskColor(color.chassisColor) == color.chassisColor
  }

  /** The record as it reads back: each colour component masked by `writeUnsigned8`. */
  function MaskIndividualColor(color: IndividualColor): (masked: IndividualColor)
    ensures masked == color <==> ColorsInRange(color)
    ensures masked.hasIndividualColor == color.hasIndividualColor && masked.carTextures == color.carTextures
  {
    color.(carColor := MaskColor(color.carColor), seatColor := MaskColor(color.seatColor),
      harnessColor := MaskColor(color.harnessColor), bogieColor := MaskColor(color.bogieColor),
      chassisColor := MaskColor(color.chassisColor))
  }

  /** `writeIndividualColor`. */
  method WriteIndividualColor(stream: Stream, color: IndividualColor)
    modifies stream
    ensures stream.content == IndividualColorWritten(old(stream.content), color)
    ensures stream.position == old(stream.position) + 36 + |TexturesBytes(color.carTextures)|
  {
    stream.WriteBoolean(color.hasIndividualColor);
    stream.WriteColor(color.carColor);
    stream.WriteColor(color.seatColor);
    stream.WriteColor(color.harnessColor);
    stream.WriteColor(color.bogieColor);
    stream.WriteColor(color.chassisColor);
    stream.WriteNull(16);
    stream.WriteUnsignedInteger(|color.carTextures|);
    WriteTextures(stream, color.carTextures);
  }

  /** The loop of `writeIndividualColor`: 4 zero bytes, the texture, 8 zero bytes. */
  method WriteTextures(stream: Stream, textures: seq<JsString>)
    modifies stream
    ensures stream.content == old(stream.content) + TexturesBytes(textures)
    ensures stream.position == old(stream.position) + |TexturesBytes(textures)|
  {
    for i := 0 to |textures|
      invariant stream.content == old(stream.content) + TexturesBytes(textures[..i])
      invariant stream.position == old(stream.position) + |TexturesBytes(textures[..i])|
    {
      ghost var before := stream.content;
      stream.WriteNull(4);
      stream.WriteString(textures[i]);
      stream.WriteNull(8);
      Regroup(before, Zeros(4), StringBytes(textures[i]), Zeros(8));
      Associate(old(stream.content), TexturesBytes(textures[..i]), TextureBytes(textures[i]));
      assert textures[..i + 1][..i] == textures[..i];
    }
    assert textures[..|textures|] == textures;
  }

  /** `readIndividualColor`. */
  method ReadIndividualColor(stream: Stream) returns (color: IndividualColor)
    requires 0 <= stream.position && DecodeIndividualColor(stream.content, stream.position).Some?
    modifies stream
    ensures stream.content == old(stream.content)
    ensures (color, stream.position) == DecodeIndividualColor(stream.content, old(stream.position)).value
  {
    var hasIndividualColor := stream.ReadBoolean();
    var carColor := stream.ReadColor();
    var seatColor := stream.ReadColor();
    var harnessColor := stream.ReadColor();
    var bogieColor := stream.ReadColor();
    var chassisColor := stream.ReadColor();
    stream.ReadNull(16);
    var numberOfTextures := stream.ReadUnsignedInteger();
    var carTextures := ReadTextures(stream, numberOfTextures);
    color := IndividualColor(hasIndividualColor, carColor, seatColor, harnessColor, bogieColor, chassisColor, carTextures);
  }

  /** The `readIndividualColor` loop invariant: the n textures still to read from p complete `done` to `whole`. */
  predicate RemainingTextures(s: seq<byte>, p: nat, n: nat, done: seq<JsString>, whole: (seq<JsString>, nat)) {
    DecodeTextures(s, p, n).Some? && whole == (done + DecodeTextures(s, p, n).value.0, DecodeTextures(s, p, n).value.1)
  }

  /** The loop of `readIndividualColor` over n textures. */
  method ReadTextures(stream: Stream, n: nat) returns (carTextures: seq<JsString>)
    requires 0 <= stream.position && DecodeTextures(stream.content, stream.position, n).Some?
    modifies stream
    ensures stream.content == old(stream.content)
    ensures (carTextures, stream.position) == DecodeTextures(stream.content, old(stream.position), n).value
  {
    ghost var whole := DecodeTextures(stream.content, stream.position, n).value;
    carTextures := [];
    assert carTextures + whole.0 == whole.0;
    for i := 0 to n
      invariant stream.content == old(stream.content) && 0 <= stream.position
      invariant RemainingTextures(stream.content, stream.position, n - i, carTextures, whole)
    {
      TexturesTurn(stream.content, stream.position, n - i, carTextures, whole);
      stream.ReadNull(4);
      var texture := stream.ReadString();
      carTextures := carTextures + [texture];
      stream.ReadNull(8);
    }
    TexturesDone(stream.content, stream.position, carTextures, whole);
  }

  /** One turn of the `readIndividualColor` loop keeps the invariant: 4 skipped bytes, a string, 8 skipped bytes. */
  lemma TexturesTurn(s: seq<byte>, p: nat, n: nat, done: seq<JsString>, whole: (seq<JsString>, nat))
    requires n > 0 && RemainingTextures(s, p, n, done, whole)
    ensures StringAt(s, p + 4).Some?
    ensures RemainingTextures(s, StringAt(s, p + 4).value.1 + 8, n - 1, done + [StringAt(s, p + 4).value.0], whole)
  {
    var (texture, q) := StringAt(s, p + 4).value;
    var rest := DecodeTextures(s, q + 8, n - 1).value.0;
    assert done + ([texture] + rest) == (done + [texture]) + rest;
  }

  /** When no textures remain, what was read is the whole. */
  lemma TexturesDone(s: seq<byte>, p: nat, done: seq<JsString>, whole: (seq<JsString>, nat))
    requires RemainingTextures(s, p, 0, done, whole)
    ensures whole == (done, p)
  {
    assert done + [] == done;
  }

  /** The textures can also be taken from the front. */
  lemma {:induction false} TexturesBytesFront(textures: seq<JsString>)
    requires |textures| > 0
    ensures TexturesBytes(textures) == TextureBytes(textures[0]) + TexturesBytes(textures[1..])
    decreases |textures|
  {
    if |textures| > 1 {
      var init := textures[..|textures| - 1];
      var last := textures[|textures| - 1];
      var tail := textures[1..];
      TexturesBytesFront(init);
      assert tail[..|tail| - 1] == init[1..] && tail[|tail| - 1] == last && init[0] == textures[0];
      assert TexturesBytes(tail) == TexturesBytes(init[1..]) + TextureBytes(last);
      Associate(TextureBytes(textures[0]), TexturesBytes(init[1..]), TextureBytes(last));
    } else {
      assert textures[..0] == [] && textures[1..] == [];
    }
  }

  /** Where the first texture and the remaining ones sit when written textures occupy s from p. */
  lemma {:induction false} TexturesSplit(s: seq<byte>, p: nat, textures: seq<JsString>) returns (q: nat)
    requires |textures| > 0
    requires p + |TexturesBytes(textures)| <= |s| && s[p..p + |TexturesBytes(textures)|] == TexturesBytes(textures)
    ensures q == p + |TextureBytes(textures[0])| && q + |TexturesBytes(textures[1..])| == p + |TexturesBytes(textures)|
    ensures s[p..q] == TextureBytes(textures[0])
    ensures s[q..q + |TexturesBytes(textures[1..])|] == TexturesBytes(textures[1..])
  {
    TexturesBytesFront(textures);
    q := p + |TextureBytes(textures[0])|;
    var whole := s[p..p + |TexturesBytes(textures)|];
    assert s[p..q] == whole[..q - p];
    assert s[q..p + |TexturesBytes(textures)|] == whole[q - p..];
  }

  /** The string of a written texture lies 4 bytes after its start. */
  lemma TextureSlice(s: seq<byte>, p: nat, texture: JsString)
    requires p + |TextureBytes(texture)| <= |s| && s[p..p + |TextureBytes(texture)|] == TextureBytes(texture)
    ensures s[p + 4..p + 4 + |StringBytes(texture)|] == StringBytes(texture)
  {
    var k := |StringBytes(texture)|;
    var whole := s[p..p + |TextureBytes(texture)|];
    assert whole[4..4 + k] == StringBytes(texture);
    forall i | p + 4 <= i < p + 4 + k ensures s[i] == StringBytes(texture)[i - p - 4] {
      assert s[i] == whole[i - p];
    }
  }

  /** The first of the written textures occupying s from p reads back, and the rest follow it. */
  lemma TexturesHead(s: seq<byte>, p: nat, textures: seq<JsString>) returns (q: nat)
    requires |textures| > 0
    requires p + |TexturesBytes(textures)| <= |s| && s[p..p + |TexturesBytes(textures)|] == TexturesBytes(textures)
    requires ByteStrings(textures)
    ensures StringAt(s, p + 4) == Some((textures[0], q - 8)) && ByteStrings(textures[1..])
    ensures q + |TexturesBytes(textures[1..])| == p + |TexturesBytes(textures)|
    ensures s[q..q + |TexturesBytes(textures[1..])|] == TexturesBytes(textures[1..])
  {
    q := TexturesSplit(s, p, textures);
    TextureSlice(s, p, textures[0]);
    StringSlice(s, p + 4, textures[0]);
    ByteStringsTail(textures);
  }

  /** A texture followed by the remaining ones is all of them. */
  lemma TexturesCons(s: seq<byte>, p: nat, textures: seq<JsString>, q: nat, end: nat)
    requires |textures| > 0 && q >= 8 && StringAt(s, p + 4) == Some((textures[0], q - 8))
    requires DecodeTextures(s, q, |textures[1..]|) == Some((textures[1..], end))
    ensures DecodeTextures(s, p, |textures|) == Some((textures, end))
  {
    assert [textures[0]] + textures[1..] == textures;
  }

  /** No textures read back as none, without moving. */
  lemma TexturesNil(s: seq<byte>, p: nat, textures: seq<JsString>)
    requires |textures| == 0
    ensures DecodeTextures(s, p, |textures|) == Some((textures, p + |TexturesBytes(textures)|))
  {
    assert textures == [];
  }

  /** Written textures occupying s from position p read back in order, the read ending right after them. */
  lemma {:induction false} TexturesPiece(s: seq<byte>, p: nat, textures: seq<JsString>)
    requires p + |TexturesBytes(textures)| <= |s| && s[p..p + |TexturesBytes(textures)|] == TexturesBytes(textures)
    requires ByteStrings(textures)
    ensures DecodeTextures(s, p, |textures|) == Some((textures, p + |TexturesBytes(textures)|))
    decreases |textures|
  {
    if |textures| > 0 {
      var q := TexturesHead(s, p, textures);
      TexturesPiece(s, q, textures[1..]);
      TexturesCons(s, p, textures, q, p + |TexturesBytes(textures)|);
    } else {
      TexturesNil(s, p, textures);
    }
  }

  /** The record is its flag and colours, and the textures its count announces. */
  lemma IndividualColorDecoded(s: seq<byte>, p: nat, color: IndividualColor, end: nat)
    requires p + 36 <= |s| && DecodeTextures(s, p + 36, Uint32At(s, p + 32)) == Some((color.carTextures, end))
    requires BoolAt(s, p) == color.hasIndividualColor
    requires ColorAt(s, p + 1) == color.carColor && ColorAt(s, p + 4) == color.seatColor
    requires ColorAt(s, p + 7) == color.harnessColor && ColorAt(s, p + 10) == color.bogieColor
    requires ColorAt(s, p + 13) == color.chassisColor
    ensures DecodeIndividualColor(s, p) == Some((color, end))
  {
  }

  /** The five colours of a written record, after its flag. */
  lemma {:induction false} ColorsRead(y: seq<byte>, color: IndividualColor, s: seq<byte>)
    requires y + ColorBytes(color.carColor) + ColorBytes(color.seatColor) + ColorBytes(color.harnessColor)
      + ColorBytes(color.bogieColor) + ColorBytes(color.chassisColor) <= s
    ensures y <= s && |y| + 15 <= |s|
    ensures ColorAt(s, |y|) == MaskColor(color.carColor) && ColorAt(s, |y| + 3) == MaskColor(color.seatColor)
    ensures ColorAt(s, |y| + 6) == MaskColor(color.harnessColor) && ColorAt(s, |y| + 9) == MaskColor(color.bogieColor)
    ensures ColorAt(s, |y| + 12) == MaskColor(color.chassisColor)
  {
    var y1 := y + ColorBytes(color.carColor);
    var y2 := y1 + ColorBytes(color.seatColor);
    var y3 := y2 + ColorBytes(color.harnessColor);
    var y4 := y3 + ColorBytes(color.bogieColor);
    ColorPiece(y4, color.chassisColor, s);
    ColorPiece(y3, color.bogieColor, s);
    ColorPiece(y2, color.harnessColor, s);
    ColorPiece(y1, color.seatColor, s);
    ColorPiece(y, color.carColor, s);
  }

  /** After the colours of a written record: 16 zero bytes, the count and the textures. */
  lemma {:induction false} TexturesRead(y: seq<byte>, color: IndividualColor, s: seq<byte>) returns (end: nat)
    requires y + Zeros(16) + WordBytes(|color.carTextures|) + TexturesBytes(color.carTextures) <= s
    requires |color.carTextures| < 0x1_0000_0000
    ensures y <= s && end == |y| + 20 + |TexturesBytes(color.carTextures)| && end <= |s|
    ensures Uint32At(s, |y| + 16) == |color.carTextures|
    ensures s[|y| + 20..end] == TexturesBytes(color.carTextures)
  {
    var y1 := y + Zeros(16);
    var y2 := y1 + WordBytes(|color.carTextures|);
    Piece(y2, TexturesBytes(color.carTextures), s);
    WordPiece(y1, |color.carTextures|, s);
    ZerosPiece(y, 16, s);
    end := |y2| + |TexturesBytes(color.carTextures)|;
  }

  /** A record whose bytes sit at p in slice form reads back masked, ending at `end`. */
  lemma IndividualColorAt(s: seq<byte>, p: nat, color: IndividualColor, end: nat)
    requires ByteStrings(color.carTextures)
    requires end == p + 36 + |TexturesBytes(color.carTextures)| && end <= |s|
    requires s[p + 36..end] == TexturesBytes(color.carTextures) && Uint32At(s, p + 32) == |color.carTextures|
    requires BoolAt(s, p) == color.hasIndividualColor
    requires ColorAt(s, p + 1) == MaskColor(color.carColor) && ColorAt(s, p + 4) == MaskColor(color.seatColor)
    requires ColorAt(s, p + 7) == MaskColor(color.harnessColor) && ColorAt(s, p + 10) == MaskColor(color.bogieColor)
    requires ColorAt(s, p + 13) == MaskColor(color.chassisColor)
    ensures DecodeIndividualColor(s, p) == Some((MaskIndividualColor(color), end))
  {
    TexturesPiece(s, p + 36, color.carTextures);
    IndividualColorDecoded(s, p, MaskIndividualColor(color), end);
  }

  /**
   * Reading a written individual colour record, whatever follows it, gives
   * back the record with each colour component masked to a byte, and stops
   * right after it, when every texture has code units in 1..255 and their
   * count is a uint32; that is the record itself exactly when its colours
   * are byte triples.
   */
  lemma {:induction false} IndividualColorRoundTrip(c: seq<byte>, color: IndividualColor, s: seq<byte>)
    requires ByteStrings(color.carTextures) && |color.carTextures| < 0x1_0000_0000
    requires IndividualColorWritten(c, color) <= s
    ensures DecodeIndividualColor(s, |c|) == Some((MaskIndividualColor(color), |IndividualColorWritten(c, color)|))
    ensures DecodeIndividualColor(s, |c|) == Some((color, |IndividualColorWritten(c, color)|)) <==> ColorsInRange(color)
  {
    var y := c + BoolBytes(color.hasIndividualColor);
    var colors := y + ColorBytes(color.carColor) + ColorBytes(color.seatColor) + ColorBytes(color.harnessColor)
      + ColorBytes(color.bogieColor) + ColorBytes(color.chassisColor);
    var end := TexturesRead(colors, color, s);
    ColorsRead(y, color, s);
    BoolPiece(c, color.hasIndividualColor, s);
    assert |colors| == |c| + 16;
    IndividualColorAt(s, |c|, color, |IndividualColorWritten(c, color)|);
  }
}
