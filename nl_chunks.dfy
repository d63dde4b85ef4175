/**
 * Chunk framing of src/helper/nl2park/nolimits-stream.ts: `readChunkName`,
 * `fromChunk`, `readChunks`, `writeChunkName` and `writeChunk`.
 *
 * `readChunks` visits every offset of the content, reads four bytes there as
 * a name, trims it, and when a reader is registered under that name reads a
 * 32-bit length and hands the bytes that follow to the reader, resuming just
 * after them. The readers and handlers themselves are callbacks; the model
 * returns which reader was handed which bytes, in order.
 */
module NoLimitsChunks {
  import opened Wrappers
  import opened NoLimitsBytes
  import opened NoLimitsStream
  import JsArray

  /** The code units `String.prototype.trim` removes: ECMAScript WhiteSpace and LineTerminator. */
  predicate IsWhiteSpace(c: CodeUnit) {
    c == 9 || c == 10 || c == 11 || c == 12 || c == 13 || c == 32 || c == 0xA0
    || c == 0x1680 || (0x2000 <= c <= 0x200A) || c == 0x2028 || c == 0x2029
    || c == 0x202F || c == 0x205F || c == 0x3000 || c == 0xFEFF
  }

  /** Drops the leading white space. */
  function TrimStart(s: JsString): (r: JsString)
    ensures |r| <= |s|
  {
    if |s| > 0 && IsWhiteSpace(s[0]) then TrimStart(s[1..]) else s
  }

  /** What `TrimStart` keeps is a suffix that does not start with white space; what it drops is white space. */
  lemma {:induction false} TrimStartDrops(s: JsString)
    ensures TrimStart(s) == s[|s| - |TrimStart(s)|..]
    ensures |TrimStart(s)| > 0 ==> !IsWhiteSpace(TrimStart(s)[0])
    ensures forall i :: 0 <= i < |s| - |TrimStart(s)| ==> IsWhiteSpace(s[i])
  {
    if |s| > 0 && IsWhiteSpace(s[0]) {
      TrimStartDrops(s[1..]);
      forall i | 0 < i < |s| - |TrimStart(s)| ensures IsWhiteSpace(s[i]) {
        assert s[i] == s[1..][i - 1];
      }
    }
  }

  /** Drops the trailing white space. */
  function TrimEnd(s: JsString): (r: JsString)
    ensures |r| <= |s|
  {
    if |s| > 0 && IsWhiteSpace(s[|s| - 1]) then TrimEnd(s[..|s| - 1]) else s
  }

  /** What `TrimEnd` keeps is a prefix that does not end with white space; what it drops is white space. */
  lemma {:induction false} TrimEndDrops(s: JsString)
    ensures TrimEnd(s) == s[..|TrimEnd(s)|]
    ensures |TrimEnd(s)| > 0 ==> !IsWhiteSpace(TrimEnd(s)[|TrimEnd(s)| - 1])
    ensures forall i :: |TrimEnd(s)| <= i < |s| ==> IsWhiteSpace(s[i])
  {
    if |s| > 0 && IsWhiteSpace(s[|s| - 1]) {
      TrimEndDrops(s[..|s| - 1]);
      forall i | |TrimEnd(s)| <= i < |s| - 1 ensures IsWhiteSpace(s[i]) {
        assert s[i] == s[..|s| - 1][i];
      }
    }
  }

  /** `String.prototype.trim`. */
  function Trim(s: JsString): JsString {
    TrimEnd(TrimStart(s))
  }

  /**
   * `trim` keeps exactly one run of s: everything before and after it is
   * white space, and the run neither starts nor ends with white space.
   */
  lemma TrimIsInnerRun(s: JsString)
    ensures exists a, b :: (0 <= a <= b <= |s| && Trim(s) == s[a..b]
      && (forall i :: 0 <= i < a ==> IsWhiteSpace(s[i]))
      && (forall i :: b <= i < |s| ==> IsWhiteSpace(s[i]))
      && (a < b ==> !IsWhiteSpace(s[a]) && !IsWhiteSpace(s[b - 1])))
  {
    var t := TrimStart(s);
    TrimStartDrops(s);
    TrimEndDrops(t);
    var a := |s| - |t|;
    var b := a + |Trim(s)|;
    assert Trim(s) == s[a..b];
    forall i | b <= i < |s| ensures IsWhiteSpace(s[i]) {
      assert s[i] == t[i - a];
    }
    if a < b {
      assert s[a] == Trim(s)[0] == t[0];
      assert s[b - 1] == Trim(s)[|Trim(s)| - 1];
    }
  }

  /** A name that neither starts nor ends with white space is left as it is. */
  lemma TrimKeeps(s: JsString)
    requires |s| > 0 && !IsWhiteSpace(s[0]) && !IsWhiteSpace(s[|s| - 1])
    ensures Trim(s) == s
  {
  }

  /** `String.fromCharCode(...bytes)`: every byte becomes the code unit of the same value. */
  function Widen(bytes: seq<byte>): (units: JsString)
    ensures |units| == |bytes| && forall k {:trigger units[k]} :: 0 <= k < |bytes| ==> units[k] == bytes[k] as int
  {
    if |bytes| == 0 then [] else Widen(bytes[..|bytes| - 1]) + [bytes[|bytes| - 1] as CodeUnit]
  }

  /** `String.fromCharCode(...content.slice(p, p + 4))`: up to four bytes as code units. */
  function ChunkNameAt(s: seq<byte>, p: int): (name: JsString)
    ensures |name| <= 4
    ensures 0 <= p && p + 4 <= |s| ==> |name| == 4 && forall k :: 0 <= k < 4 ==> name[k] == s[p + k] as int
  {
    Widen(JsArray.Slice(s, p, p + 4))
  }

  /** `readChunkName`: the name at the cursor; the cursor moves by 4 wherever the content ends. */
  method ReadChunkName(stream: Stream) returns (name: JsString)
    modifies stream
    ensures stream.content == old(stream.content) && stream.position == old(stream.position) + 4
    ensures name == ChunkNameAt(stream.content, old(stream.position))
  {
    var start := stream.position;
    var slice := JsArray.Slice(stream.content, start, start + 4);
    stream.position := stream.position + 4;
    name := Widen(slice);
  }

  /**
   * `fromChunk`: a 32-bit signed length, then a new stream over the bytes
   * that follow (sliced with `Uint8Array.prototype.slice`); the cursor is
   * left after them.
   */
  method FromChunk(stream: Stream) returns (chunk: Stream)
    requires 0 <= stream.position && stream.position + 4 <= |stream.content|
    modifies stream
    ensures stream.content == old(stream.content)
    ensures fresh(chunk) && chunk.position == 0
    ensures stream.position == old(stream.position) + 4 + Int32At(stream.content, old(stream.position))
    ensures chunk.content == JsArray.Slice(stream.content, old(stream.position) + 4, stream.position)
  {
    var size := stream.ReadInteger();
    var start := stream.position;
    var end := start + size;
    chunk := new Stream(JsArray.Slice(stream.content, start, end), 0);
    stream.position := end;
  }

  /** `readers.find(...)`: the reader registered under `name`, if any. */
  function FindReader(readers: seq<JsString>, name: JsString): (r: Option<nat>)
    ensures r.Some? ==> r.value < |readers| && readers[r.value] == name
  {
    if |readers| == 0 then None
    else
      match FindReader(readers[..|readers| - 1], name)
      case Some(k) => Some(k)
      case None => if readers[|readers| - 1] == name then Some(|readers| - 1) else None
  }

  /** `find` answers the first reader registered under `name`, and none only when no reader is. */
  lemma {:induction false} FindReaderFirst(readers: seq<JsString>, name: JsString)
    ensures FindReader(readers, name).Some? ==> forall j :: 0 <= j < FindReader(readers, name).value ==> readers[j] != name
    ensures FindReader(readers, name).None? <==> forall j :: 0 <= j < |readers| ==> readers[j] != name
  {
    if |readers| > 0 {
      var front := readers[..|readers| - 1];
      FindReaderFirst(front, name);
      forall j | 0 <= j < |readers| - 1 ensures readers[j] == front[j] {
      }
    }
  }

  /** A chunk handed to reader number `reader`. */
  datatype Found = Found(reader: nat, chunk: seq<byte>)

  /** Puts one found chunk in front of the rest of a scan. */
  function Prepend(f: Found, r: Option<(seq<Found>, int)>): Option<(seq<Found>, int)> {
    match r
    case None => None
    case Some((found, cursor)) => Some(([f] + found, cursor))
  }

  /** The reader `readChunks` picks at offset i: the one registered under the trimmed four-byte name there. */
  function ReaderAt(content: seq<byte>, readers: seq<JsString>, i: int): Option<nat> {
    FindReader(readers, Trim(ChunkNameAt(content, i)))
  }

  /** The values of f at 0 .. n - 1, in order. */
  function Tabulate<T>(f: nat -> T, n: nat): (table: seq<T>)
    ensures |table| == n
  {
    if n == 0 then [] else Tabulate(f, n - 1) + [f(n - 1)]
  }

  /** Entry i of a table is the value of f at i. */
  lemma {:induction false} TabulateAt<T>(f: nat -> T, n: nat, i: nat)
    requires i < n
    ensures Tabulate(f, n)[i] == f(i)
  {
    assert Tabulate(f, n) == Tabulate(f, n - 1) + [f(n - 1)];
    if i < n - 1 {
      TabulateAt(f, n - 1, i);
    }
  }

  /** The reader picked at every offset `readChunks` visits, 0 .. |content|. */
  function Picked(content: seq<byte>, readers: seq<JsString>): (picked: seq<Option<nat>>)
    ensures |picked| == |content| + 1
  {
    Tabulate(i => ReaderAt(content, readers, i), |content| + 1)
  }

  /** Entry i of the table is the reader picked at offset i. */
  lemma PickedAt(content: seq<byte>, readers: seq<JsString>, i: nat)
    requires i <= |content|
    ensures Picked(content, readers)[i] == ReaderAt(content, readers, i)
  {
    TabulateAt(i => ReaderAt(content, readers, i), |content| + 1, i);
  }

  /**
   * The loop of `readChunks` from offset i on, given the reader picked at
   * each offset: the chunks it hands to the readers, in order, and where it
   * leaves the cursor (`cursor` is where the previous iteration left it).
   * None when the length read runs past the content (a RangeError in the
   * source) and whenever the length is so negative that the next offset is
   * not after i. Of those, a next offset equal to i makes the source visit i
   * again forever; one before i makes it resume scanning at that earlier
   * offset, which may still finish. The model does not follow such restarts.
   */
  function Scan(content: seq<byte>, picked: seq<Option<nat>>, i: nat, cursor: int): (r: Option<(seq<Found>, int)>)
    requires |picked| == |content| + 1
    decreases if i <= |content| then |content| + 1 - i else 0
  {
    if i > |content| then Some(([], cursor))
    else
      match picked[i]
      case None => Scan(content, picked, i + 1, i + 4)
      case Some(k) =>
        if i + 8 > |content| then None
        else
          var end := i + 8 + Int32At(content, i + 4);
          if end <= i then None
          else Prepend(Found(k, JsArray.Slice(content, i + 8, end)), Scan(content, picked, end, end))
  }

  /** One step of the scan at an offset where no reader is picked. */
  lemma ScanSkips(content: seq<byte>, picked: seq<Option<nat>>, i: nat, cursor: int)
    requires |picked| == |content| + 1 && i <= |content| && picked[i].None?
    ensures Scan(content, picked, i, cursor) == Scan(content, picked, i + 1, i + 4)
  {
  }

  /** At an offset where a reader is picked and the length leads forward, the scan hands it the bytes after the length. */
  lemma ScanTakes(content: seq<byte>, picked: seq<Option<nat>>, i: nat, cursor: int, k: nat)
    requires |picked| == |content| + 1 && i + 8 <= |content| && picked[i] == Some(k)
    requires i + 8 + Int32At(content, i + 4) > i
    ensures var end := i + 8 + Int32At(content, i + 4);
      Scan(content, picked, i, cursor)
      == Prepend(Found(k, JsArray.Slice(content, i + 8, end)), Scan(content, picked, end, end))
  {
  }

  /** `ScanTakes` for a chunk whose length and bytes are known. */
  lemma ScanHands(content: seq<byte>, picked: seq<Option<nat>>, i: nat, cursor: int, k: nat, chunk: seq<byte>)
    requires |picked| == |content| + 1 && i + 8 <= |content| && picked[i] == Some(k)
    requires Int32At(content, i + 4) == |chunk| && JsArray.Slice(content, i + 8, i + 8 + |chunk|) == chunk
    ensures Scan(content, picked, i, cursor)
      == Prepend(Found(k, chunk), Scan(content, picked, i + 8 + |chunk|, i + 8 + |chunk|))
  {
    ScanTakes(content, picked, i, cursor, k);
  }

  /** Past the end of the content the scan finds nothing more and leaves the cursor where it is. */
  lemma ScanEnds(content: seq<byte>, picked: seq<Option<nat>>, i: nat, cursor: int)
    requires |picked| == |content| + 1 && i > |content|
    ensures Scan(content, picked, i, cursor) == Some(([], cursor))
  {
  }

  /**
   * One step of a scan that returns, at an offset where a reader is picked:
   * the chunk after the length word goes to that reader and the scan goes on
   * from the end of the chunk.
   */
  lemma ScanVisits(content: seq<byte>, picked: seq<Option<nat>>, i: nat, cursor: int, chunk: seq<byte>, next: int)
    requires |picked| == |content| + 1 && i + 8 <= |content| && picked[i].Some?
    requires next == i + 8 + Int32At(content, i + 4) && chunk == JsArray.Slice(content, i + 8, next)
    requires Scan(content, picked, i, cursor).Some?
    ensures i < next && Scan(content, picked, next, next).Some?
    ensures Scan(content, picked, i, cursor).value
      == ([Found(picked[i].value, chunk)] + Scan(content, picked, next, next).value.0,
          Scan(content, picked, next, next).value.1)
  {
  }

  /**
   * The first statements of the loop of `readChunks`: move to offset i, read
   * the chunk name there, trim it and look up the reader registered under it.
   */
  method PickReader(readers: seq<JsString>, baseStream: Stream, i: nat) returns (reader: Option<nat>)
    requires i <= |baseStream.content|
    modifies baseStream
    ensures baseStream.content == old(baseStream.content) && baseStream.position == i + 4
    ensures reader == Picked(baseStream.content, readers)[i]
  {
    baseStream.position := i;
    var name := ReadChunkName(baseStream);
    name := Trim(name);
    reader := FindReader(readers, name);
    PickedAt(baseStream.content, readers, i);
  }

  /**
   * `readChunks`: the readers and handlers are callbacks, so the model
   * returns the chunks in the order they are handed over, each with the
   * index of its reader.
   */
  method ReadChunks(readers: seq<JsString>, baseStream: Stream) returns (found: seq<Found>)
    requires Scan(baseStream.content, Picked(baseStream.content, readers), 0, baseStream.position).Some?
    modifies baseStream
    ensures baseStream.content == old(baseStream.content)
    ensures var r := Scan(baseStream.content, Picked(baseStream.content, readers), 0, old(baseStream.position)).value;
      found == r.0 && baseStream.position == r.1
  {
    ghost var content, picked := baseStream.content, Picked(baseStream.content, readers);
    ghost var target := Scan(content, picked, 0, baseStream.position).value;
    ghost var later, cursorAfter := target.0, target.1;
    found := [];
    var i := 0;
    while i <= |baseStream.content|
      invariant 0 <= i && baseStream.content == content
      invariant Scan(content, picked, i, baseStream.position) == Some((later, cursorAfter))
      invariant target.0 == found + later && target.1 == cursorAfter
      decreases |baseStream.content| + 1 - i
    {
      ghost var cursor := baseStream.position;
      var reader := PickReader(readers, baseStream, i);
      if reader.Some? {
        assert i + 8 <= |content| by {
          assert Scan(content, picked, i, cursor).Some?;
        }
        var chunk := FromChunk(baseStream);
        ScanVisits(content, picked, i, cursor, chunk.content, baseStream.position);
        var f := Found(reader.value, chunk.content);
        later := Scan(content, picked, baseStream.position, baseStream.position).value.0;
        assert (found + [f]) + later == found + ([f] + later);
        found := found + [f];
        i := baseStream.position - 1;
      } else {
        ScanSkips(content, picked, i, cursor);
      }
      assert Scan(content, picked, i + 1, baseStream.position) == Some((later, cursorAfter));
      i := i + 1;
    }
    assert later == [] && found + later == found;
  }

  /** The bytes `writeChunkName` stores: `charCodeAt(i) & 0xff`, 0 past the end of the name. */
  function ChunkNameBytes(name: JsString): (bytes: seq<byte>)
    ensures |bytes| == 4
  {
    seq(4, i requires 0 <= i < 4 => if i < |name| then Low8(name[i]) else 0)
  }

  /** `writeChunkName`. */
  method WriteChunkName(stream: Stream, name: JsString)
    modifies stream
    ensures stream.content == old(stream.content) + ChunkNameBytes(name)
    ensures stream.position == old(stream.position) + 4
  {
    for i := 0 to 4
      invariant stream.content == old(stream.content) + ChunkNameBytes(name)[..i]
      invariant stream.position == old(stream.position) + i
    {
      // Past the end of the name `charCodeAt` is NaN (not nullish, so `?? 0`
      // keeps it), and `NaN & 0xff` is 0.
      var code := if i < |name| then name[i] as int else 0;
      stream.WriteUnsigned8(code);
      assert ChunkNameBytes(name)[..i + 1] == ChunkNameBytes(name)[..i] + U8Bytes(code);
    }
  }

  /** What `writeChunk` appends: nothing for an empty payload, else length, name, payload. */
  function ChunkAsWritten(name: JsString, payload: seq<byte>): seq<byte> {
    if |payload| == 0 then [] else WordBytes(|payload|) + ChunkNameBytes(name) + payload
  }

  /**
   * `writeChunk`: the handler's output is given as `payload` (the bytes it
   * writes into the fresh chunk stream).
   */
  method WriteChunk(stream: Stream, chunkName: JsString, payload: seq<byte>)
    modifies stream
    ensures stream.content == old(stream.content) + ChunkAsWritten(chunkName, payload)
    ensures stream.position == old(stream.position) + |ChunkAsWritten(chunkName, payload)|
  {
    if |payload| == 0 {
      return;
    }
    ghost var before := stream.content;
    stream.WriteUnsignedInteger(|payload|);
    WriteChunkName(stream, chunkName);
    stream.Write(payload);
    Regroup(before, WordBytes(|payload|), ChunkNameBytes(chunkName), payload);
  }

  /**
   * A chunk written by `writeChunk` as written is not read back by
   * `readChunks`: for the name ABCD and the payload 0, 0, 0, 1 the scan
   * finds the name at offset 4, takes the payload's first word (1) as the
   * length and hands the reader nothing instead of the payload.
   */
  lemma WrittenChunkMisread()
    ensures var name: JsString := [65, 66, 67, 68];
      var payload: seq<byte> := [0, 0, 0, 1];
      var content := ChunkAsWritten(name, payload);
      content == [0, 0, 0, 4, 65, 66, 67, 68, 0, 0, 0, 1]
      && Scan(content, Picked(content, [name]), 0, 0) == Some(([Found(0, [])], 13))
  {
    var name: JsString := [65, 66, 67, 68];
    var content := ChunkAsWritten(name, [0, 0, 0, 1]);
    assert content == WordBytes(4) + ChunkNameBytes(name) + WordBytes(1);
    assert content == [0, 0, 0, 4, 65, 66, 67, 68, 0, 0, 0, 1] by {
      assert WordBytes(4) == [0, 0, 0, 4];
      assert ChunkNameBytes(name) == [65, 66, 67, 68];
      assert WordBytes(1) == [0, 0, 0, 1];
    }
    WrittenChunkPicks(content, name);
    SkipsMiss(content, name, 0);
    SkipsMiss(content, name, 1);
    SkipsMiss(content, name, 2);
    SkipsMiss(content, name, 3);
    WrittenChunkScan(content, Picked(content, [name]));
  }

  /**
   * The scan of twelve bytes where no reader is picked at offsets 0 to 3,
   * the first reader is picked at offset 4 and the word at offset 8 is 1:
   * that reader is handed the single byte at offset 12, past the end.
   */
  lemma WrittenChunkScan(content: seq<byte>, picked: seq<Option<nat>>)
    requires |content| == 12 && |picked| == 13 && Int32At(content, 8) == 1
    requires picked[0] == picked[1] == picked[2] == picked[3] == None && picked[4] == Some(0)
    ensures Scan(content, picked, 0, 0) == Some(([Found(0, [])], 13))
  {
    ScanSkips(content, picked, 0, 0);
    ScanSkips(content, picked, 1, 4);
    ScanSkips(content, picked, 2, 5);
    ScanSkips(content, picked, 3, 6);
    ScanTakes(content, picked, 4, 7, 0);
    assert JsArray.Slice(content, 12, 13) == [];
    ScanEnds(content, picked, 13, 13);
    assert [Found(0, [])] + [] == [Found(0, [])];
  }

  /** In the bytes above the only reader is picked at offset 4, where the word after the name is 1. */
  lemma WrittenChunkPicks(content: seq<byte>, name: JsString)
    requires name == [65, 66, 67, 68] && content == WordBytes(4) + ChunkNameBytes(name) + WordBytes(1)
    requires content == [0, 0, 0, 4, 65, 66, 67, 68, 0, 0, 0, 1]
    ensures Int32At(content, 8) == 1
    ensures Picked(content, [name])[4] == Some(0)
  {
    assert Trim(ChunkNameAt(content, 4)) == name by {
      AbcdPlain(name);
      Prefix(WordBytes(4) + ChunkNameBytes(name), WordBytes(1));
      NameRead(WordBytes(4), name, content);
      TrimKeeps(name);
    }
    PickedAt(content, [name], 4);
    WordPiece(WordBytes(4) + ChunkNameBytes(name), 1, content);
  }

  /** The name ABCD is carried unchanged by `writeChunkName` and `readChunkName`. */
  lemma AbcdPlain(name: JsString)
    requires name == [65, 66, 67, 68]
    ensures PlainName(name)
  {
  }

  /** At offsets 0 to 3 of the bytes above no reader is picked. */
  lemma SkipsMiss(content: seq<byte>, name: JsString, i: nat)
    requires name == [65, 66, 67, 68] && content == [0, 0, 0, 4, 65, 66, 67, 68, 0, 0, 0, 1] && i < 4
    ensures Picked(content, [name])[i] == None
  {
    assert ReaderAt(content, [name], i) == None by {
      NameMisses(content, name, i);
    }
    PickedAt(content, [name], i);
  }

  /** A four-character name of byte-sized code units reads back as written. */
  lemma NameRead(y: seq<byte>, name: JsString, s: seq<byte>)
    requires |name| == 4 && ByteString(name) && y + ChunkNameBytes(name) <= s
    ensures ChunkNameAt(s, |y|) == name
  {
    Piece(y, ChunkNameBytes(name), s);
    forall k | 0 <= k < 4 ensures ChunkNameAt(s, |y|)[k] == name[k] {
      assert s[|y| + k] == ChunkNameBytes(name)[k];
    }
  }

  /** An offset whose four bytes start differently from a one-reader list's name, and neither start nor end with white space, is skipped. */
  lemma NameMisses(content: seq<byte>, name: JsString, i: nat)
    requires i + 4 <= |content| && |name| > 0 && content[i] as int != name[0]
    requires !IsWhiteSpace(content[i] as int) && !IsWhiteSpace(content[i + 3] as int)
    ensures FindReader([name], Trim(ChunkNameAt(content, i))) == None
  {
    var read := ChunkNameAt(content, i);
    TrimKeeps(read);
    assert [name][..0] == [];
  }

  /** The corrected framing: name first, then the length, then the payload, as `readChunks` expects. */
  function ChunkFramed(name: JsString, payload: seq<byte>): seq<byte> {
    if |payload| == 0 then [] else ChunkNameBytes(name) + WordBytes(|payload|) + payload
  }

  /** `writeChunk` with the name written before the length. */
  method WriteChunkNameFirst(stream: Stream, chunkName: JsString, payload: seq<byte>)
    modifies stream
    ensures stream.content == old(stream.content) + ChunkFramed(chunkName, payload)
    ensures stream.position == old(stream.position) + |ChunkFramed(chunkName, payload)|
  {
    if |payload| == 0 {
      return;
    }
    ghost var before := stream.content;
    WriteChunkName(stream, chunkName);
    stream.WriteUnsignedInteger(|payload|);
    stream.Write(payload);
    Regroup(before, ChunkNameBytes(chunkName), WordBytes(|payload|), payload);
  }

  /** A name that `writeChunkName` and `readChunkName` carry unchanged. */
  predicate PlainName(name: JsString) {
    |name| == 4 && ByteString(name) && !IsWhiteSpace(name[0]) && !IsWhiteSpace(name[3])
  }

  /**
   * With the corrected framing, a scan reaching the start of a chunk hands
   * the reader registered under its name exactly the payload and resumes
   * right after it.
   */
  lemma {:induction false} FramedChunkFound(p: nat, name: JsString, payload: seq<byte>, content: seq<byte>,
                                            readers: seq<JsString>, cursor: int)
    requires PlainName(name) && FindReader(readers, name).Some?
    requires 0 < |payload| < 0x8000_0000
    requires p + 8 + |payload| <= |content| && content[p..p + 8 + |payload|] == ChunkFramed(name, payload)
    ensures Scan(content, Picked(content, readers), p, cursor)
      == Prepend(Found(FindReader(readers, name).value, payload),
                 Scan(content, Picked(content, readers), p + 8 + |payload|, p + 8 + |payload|))
  {
    FramedName(content[..p], name, payload, content, readers);
    FramedLength(content[..p], name, payload, content);
    ScanHands(content, Picked(content, readers), p, cursor, FindReader(readers, name).value, payload);
  }

  /** A chunk framed name first splits into its name, its length word and its payload. */
  lemma FramedSplit(pre: seq<byte>, name: JsString, payload: seq<byte>, content: seq<byte>)
    requires 0 < |payload| && pre + ChunkFramed(name, payload) <= content
    ensures pre + ChunkNameBytes(name) <= content
    ensures pre + ChunkNameBytes(name) + WordBytes(|payload|) <= content
    ensures pre + ChunkNameBytes(name) + WordBytes(|payload|) + payload <= content
  {
    var y := pre + ChunkNameBytes(name);
    var z := y + WordBytes(|payload|);
    assert pre + ChunkFramed(name, payload) == z + payload;
    assert z <= content by { Piece(z, payload, content); }
    assert y <= content by { Piece(y, WordBytes(|payload|), content); }
  }

  /** After the name, the length word counts the payload that follows it. */
  lemma FramedLength(pre: seq<byte>, name: JsString, payload: seq<byte>, content: seq<byte>)
    requires 0 < |payload| < 0x8000_0000 && pre + ChunkFramed(name, payload) <= content
    ensures |pre| + 8 + |payload| <= |content|
    ensures Int32At(content, |pre| + 4) == |payload|
    ensures JsArray.Slice(content, |pre| + 8, |pre| + 8 + |payload|) == payload
  {
    var y := pre + ChunkNameBytes(name);
    FramedSplit(pre, name, payload, content);
    Piece(y + WordBytes(|payload|), payload, content);
    WordPiece(y, |payload|, content);
  }

  /** The reader picked at the start of a chunk framed name first is the one registered under its name. */
  lemma FramedName(pre: seq<byte>, name: JsString, payload: seq<byte>, content: seq<byte>, readers: seq<JsString>)
    requires PlainName(name) && 0 < |payload| && pre + ChunkFramed(name, payload) <= content
    ensures |pre| < |Picked(content, readers)| && Picked(content, readers)[|pre|] == FindReader(readers, name)
  {
    FramedSplit(pre, name, payload, content);
    NameRead(pre, name, content);
    TrimKeeps(name);
    PickedAt(content, readers, |pre|);
  }

  /**
   * A name shorter than four characters is padded with zero bytes, which
   * `trim` keeps: it reads back as the name followed by NUL characters.
   */
  lemma ShortNameReadsPadded(pre: seq<byte>, name: JsString, post: seq<byte>)
    requires |name| < 4 && ByteString(name)
    ensures var read := ChunkNameAt(pre + ChunkNameBytes(name) + post, |pre|);
      |read| == 4 && read[..|name|] == name && read[3] == 0
  {
    var s := pre + ChunkNameBytes(name) + post;
    Piece(pre, ChunkNameBytes(name), s);
    var read := ChunkNameAt(s, |pre|);
    assert read[3] == s[|pre| + 3] as int;
    forall k | 0 <= k < |name| ensures read[k] == name[k] {
      assert s[|pre| + k] == ChunkNameBytes(name)[k];
    }
  }
}
