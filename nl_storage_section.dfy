/**
 * Storage section record (src/helper/nl2park/section/storage-section.ts):
 * 32 bytes, three of them colours of 3 bytes each, then 20 bytes of zero
 * padding.
 */
module NoLimitsStorageSection {
  import opened NoLimitsBytes
  import opened NoLimitsStream

  datatype StorageSection = StorageSection(
    enableTransportDevice: bool,
    transportType: int,
    building: int,
    roofColor: Color,
    sideColor: Color,
    frameColor: Color)

  /** The content after `writeStorageSection` appended `storage` to content `c`. */
  function StorageWritten(c: seq<byte>, storage: StorageSection): (s: seq<byte>)
    ensures |s| == |c| + 32 && c <= s
  {
    c + BoolBytes(storage.enableTransportDevice) + U8Bytes(storage.transportType) + U8Bytes(storage.building)
    + ColorBytes(storage.roofColor) + ColorBytes(storage.sideColor) + ColorBytes(storage.frameColor) + Zeros(20)
  }

  /** What `readStorageSection` returns when it starts at position p. */
  function DecodeStorage(s: seq<byte>, p: int): StorageSection
    requires 0 <= p && p + 12 <= |s|
  {
    StorageSection(BoolAt(s, p), U8At(s, p + 1), U8At(s, p + 2), ColorAt(s, p + 3), ColorAt(s, p + 6), ColorAt(s, p + 9))
  }

  /** The record as it reads back: every byte field and colour component masked with `& 0xff`. */
  function MaskStorage(storage: StorageSection): (masked: StorageSection)
    ensures masked == storage <==> StorageBytesInRange(storage)
  {
    storage.(transportType := Low8(storage.transportType) as int, building := Low8(storage.building) as int,
             roofColor := MaskColor(storage.roofColor), sideColor := MaskColor(storage.sideColor),
             frameColor := MaskColor(storage.frameColor))
  }

  /** Every byte field and colour component is in 0..255. */
  predicate StorageBytesInRange(storage: StorageSection) {
    0 <= storage.transportType < 256 && 0 <= storage.building < 256
    && MaskColor(storage.roofColor) == storage.roofColor && MaskColor(storage.sideColor) == storage.sideColor
    && MaskColor(storage.frameColor) == storage.frameColor
  }

  /** `writeStorageSection`. */
  method WriteStorageSection(stream: Stream, storage: StorageSection)
    modifies stream
    ensures stream.content == StorageWritten(old(stream.content), storage)
    ensures stream.position == old(stream.position) + 32
  {
    stream.WriteBoolean(storage.enableTransportDevice);
    stream.WriteUnsigned8(storage.transportType);
    stream.WriteUnsigned8(storage.building);
    stream.WriteColor(storage.roofColor);
    stream.WriteColor(storage.sideColor);
    stream.WriteColor(storage.frameColor);
    stream.WriteNull(20);
  }

  /** `readStorageSection`: the last colour ends 12 bytes after the start; the padding needs no bytes. */
  method ReadStorageSection(stream: Stream) returns (storage: StorageSection)
    requires 0 <= stream.position && stream.position + 12 <= |stream.content|
    modifies stream
    ensures stream.content == old(stream.content) && stream.position == old(stream.position) + 32
    ensures storage == DecodeStorage(stream.content, old(stream.position))
  {
    var enableTransportDevice := stream.ReadBoolean();
    var transportType := stream.ReadUnsigned8();
    var building := stream.ReadUnsigned8();
    var roofColor := stream.ReadColor();
    var sideColor := stream.ReadColor();
    var frameColor := stream.ReadColor();
    stream.ReadNull(20);
    storage := StorageSection(enableTransportDevice, transportType, building, roofColor, sideColor, frameColor);
  }

  lemma {:induction false} StorageHeadRead(y: seq<byte>, storage: StorageSection, s: seq<byte>)
    requires y + BoolBytes(storage.enableTransportDevice) + U8Bytes(storage.transportType) + U8Bytes(storage.building) <= s
    ensures y <= s && |y| + 3 <= |s|
    ensures BoolAt(s, |y|) == storage.enableTransportDevice
    ensures U8At(s, |y| + 1) == Low8(storage.transportType) as int && U8At(s, |y| + 2) == Low8(storage.building) as int
  {
    var y1 := y + BoolBytes(storage.enableTransportDevice);
    var y2 := y1 + U8Bytes(storage.transportType);
    U8Piece(y2, storage.building, s);
    U8Piece(y1, storage.transportType, s);
    BoolPiece(y, storage.enableTransportDevice, s);
  }

  lemma {:induction false} StorageColorsRead(y: seq<byte>, storage: StorageSection, s: seq<byte>)
    requires y + ColorBytes(storage.roofColor) + ColorBytes(storage.sideColor) + ColorBytes(storage.frameColor) + Zeros(20) <= s
    ensures y <= s && |y| + 29 <= |s|
    ensures ColorAt(s, |y|) == MaskColor(storage.roofColor) && ColorAt(s, |y| + 3) == MaskColor(storage.sideColor)
    ensures ColorAt(s, |y| + 6) == MaskColor(storage.frameColor)
  {
    var y1 := y + ColorBytes(storage.roofColor);
    var y2 := y1 + ColorBytes(storage.sideColor);
    var y3 := y2 + ColorBytes(storage.frameColor);
    ZerosPiece(y3, 20, s);
    ColorPiece(y2, storage.frameColor, s);
    ColorPiece(y1, storage.sideColor, s);
    ColorPiece(y, storage.roofColor, s);
  }

  /**
   * Reading a written storage section gives back the record with its byte
   * fields masked; that is the record itself exactly when every byte field
   * and colour component is in 0..255. The flag always survives.
   */
  lemma {:induction false} StorageRoundTrip(c: seq<byte>, storage: StorageSection, suffix: seq<byte>)
    ensures |c| + 12 <= |StorageWritten(c, storage) + suffix|
    ensures DecodeStorage(StorageWritten(c, storage) + suffix, |c|) == MaskStorage(storage)
    ensures DecodeStorage(StorageWritten(c, storage) + suffix, |c|) == storage <==> StorageBytesInRange(storage)
  {
    var s := StorageWritten(c, storage) + suffix;
    var head := c + BoolBytes(storage.enableTransportDevice) + U8Bytes(storage.transportType) + U8Bytes(storage.building);
    StorageColorsRead(head, storage, s);
    StorageHeadRead(c, storage, s);
  }
}
