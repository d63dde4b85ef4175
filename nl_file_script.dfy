/**
 * File script record (src/helper/nl2park/coaster/file-script.ts): a uint32
 * count, then per path the string and 8 zero bytes, then 8 zero bytes.
 */
module NoLimitsFileScript {
  import opened Wrappers
  import opened NoLimitsBytes
  import opened NoLimitsStream

  datatype FileScript = FileScript(paths: seq<JsString>)

  /** The loop of `writeFileScript`: each path as a string followed by 8 zero bytes. */
  function PathsBytes(paths: seq<JsString>): seq<byte> {
    if |paths| == 0 then []
    else PathsBytes(paths[..|paths| - 1]) + StringBytes(paths[|paths| - 1]) + Zeros(8)
  }

  /** The content after `writeFileScript` appended `fileScript` to content `c`; 12 bytes for no paths. */
  function FileScriptWritten(c: seq<byte>, fileScript: FileScript): (s: seq<byte>)
    ensures c <= s && |s| == |c| + 12 + |PathsBytes(fileScript.paths)|
    ensures fileScript.paths == [] ==> |s| == |c| + 12
  {
    c + WordBytes(|fileScript.paths|) + PathsBytes(fileScript.paths) + Zeros(8)
  }

  /**
   * The loop of `readFileScript` from position p for n paths: the paths and
   * the position after them, or None when a string never ends.
   */
  function DecodePaths(s: seq<byte>, p: nat, n: nat): Option<(seq<JsString>, nat)>
    decreases n
  {
    if n == 0 then Some(([], p))
    else match StringAt(s, p)
      case None => None
      case Some((path, q)) =>
        match DecodePaths(s, q + 8, n - 1)
        case None => None
        case Some((rest, end)) => Some(([path] + rest, end))
  }

  /** What `readFileScript` returns from position p, with the position after it; None where the source has none. */
  function DecodeFileScript(s: seq<byte>, p: nat): Option<(FileScript, nat)> {
    if p + 4 > |s| then None
    else match DecodePaths(s, p + 4, Uint32At(s, p))
      case None => None
      case Some((paths, q)) => Some((FileScript(paths), q + 8))
  }

  /** `writeFileScript`. */
  method WriteFileScript(stream: Stream, fileScript: FileScript)
    modifies stream
    ensures stream.content == FileScriptWritten(old(stream.content), fileScript)
    ensures stream.position == old(stream.position) + |FileScriptWritten(old(stream.content), fileScript)| - |old(stream.content)|
  {
    var paths := fileScript.paths;
    stream.WriteUnsignedInteger(|paths|);
    ghost var head := stream.content;
    for i := 0 to |paths|
      invariant stream.content == head + PathsBytes(paths[..i])
      invariant stream.position == old(stream.position) + 4 + |PathsBytes(paths[..i])|
    {
      stream.WriteString(paths[i]);
      stream.WriteNull(8);
      assert paths[..i + 1][..i] == paths[..i];
    }
    assert paths[..|paths|] == paths;
    stream.WriteNull(8);
  }

  /** `readFileScript`. */
  method ReadFileScript(stream: Stream) returns (fileScript: FileScript)
    requires 0 <= stream.position && DecodeFileScript(stream.content, stream.position).Some?
    modifies stream
    ensures stream.content == old(stream.content)
    ensures (fileScript, stream.position) == DecodeFileScript(stream.content, old(stream.position)).value
  {
    var numberOfFileScripts := stream.ReadUnsignedInteger();
    ghost var whole := DecodePaths(stream.content, stream.position, numberOfFileScripts).value;
    var paths := [];
    assert paths + whole.0 == whole.0;
    for i := 0 to numberOfFileScripts
      invariant stream.content == old(stream.content) && 0 <= stream.position
      invariant RemainingPaths(stream.content, stream.position, numberOfFileScripts - i, paths, whole)
    {
      PathsTurn(stream.content, stream.position, numberOfFileScripts - i, paths, whole);
      var path := stream.ReadString();
      paths := paths + [path];
      stream.ReadNull(8);
    }
    PathsDone(stream.content, stream.position, paths, whole);
    stream.ReadNull(8);
    fileScript := FileScript(paths);
  }

  /** The `readFileScript` loop invariant: the n paths still to read from p complete `done` to `whole`. */
  predicate RemainingPaths(s: seq<byte>, p: nat, n: nat, done: seq<JsString>, whole: (seq<JsString>, nat)) {
    DecodePaths(s, p, n).Some? && whole == (done + DecodePaths(s, p, n).value.0, DecodePaths(s, p, n).value.1)
  }

  /** One turn of the `readFileScript` loop keeps the invariant: a string, then 8 skipped bytes. */
  lemma PathsTurn(s: seq<byte>, p: nat, n: nat, done: seq<JsString>, whole: (seq<JsString>, nat))
    requires n > 0 && RemainingPaths(s, p, n, done, whole)
    ensures StringAt(s, p).Some?
    ensures RemainingPaths(s, StringAt(s, p).value.1 + 8, n - 1, done + [StringAt(s, p).value.0], whole)
  {
    var (path, q) := StringAt(s, p).value;
    var rest := DecodePaths(s, q + 8, n - 1).value.0;
    assert done + ([path] + rest) == (done + [path]) + rest;
  }

  /** When no paths remain, what was read is the whole. */
  lemma PathsDone(s: seq<byte>, p: nat, done: seq<JsString>, whole: (seq<JsString>, nat))
    requires RemainingPaths(s, p, 0, done, whole)
    ensures whole == (done, p)
  {
    assert done + [] == done;
  }

  /** A path followed by n - 1 more paths is n paths. */
  lemma PathsCons(s: seq<byte>, p: nat, paths: seq<JsString>, q: nat, end: nat)
    requires |paths| > 0 && StringAt(s, p) == Some((paths[0], q))
    requires DecodePaths(s, q + 8, |paths[1..]|) == Some((paths[1..], end))
    ensures DecodePaths(s, p, |paths|) == Some((paths, end))
  {
    assert [paths[0]] + paths[1..] == paths;
  }

  /** The record is the count and the paths it announces, then 8 skipped bytes. */
  lemma FileScriptDecoded(s: seq<byte>, p: nat, fileScript: FileScript, q: nat)
    requires p + 4 <= |s| && DecodePaths(s, p + 4, Uint32At(s, p)) == Some((fileScript.paths, q))
    ensures DecodeFileScript(s, p) == Some((fileScript, q + 8))
  {
  }

  /** The paths can also be taken from the front. */
  lemma {:induction false} PathsBytesFront(paths: seq<JsString>)
    requires |paths| > 0
    ensures PathsBytes(paths) == StringBytes(paths[0]) + Zeros(8) + PathsBytes(paths[1..])
    decreases |paths|
  {
    if |paths| > 1 {
      var init := paths[..|paths| - 1];
      PathsBytesFront(init);
      assert init[1..] == paths[1..][..|paths| - 2];
    } else {
      assert paths[..0] == [] && paths[1..] == [];
    }
  }

  /** Where the first path and the remaining paths sit when written paths occupy s from position p. */
  lemma {:induction false} PathsSplit(s: seq<byte>, p: nat, paths: seq<JsString>)
    requires |paths| > 0
    requires p + |PathsBytes(paths)| <= |s| && s[p..p + |PathsBytes(paths)|] == PathsBytes(paths)
    ensures var q := p + |StringBytes(paths[0])|;
      q + 8 + |PathsBytes(paths[1..])| == p + |PathsBytes(paths)|
      && s[p..q] == StringBytes(paths[0]) && s[q + 8..p + |PathsBytes(paths)|] == PathsBytes(paths[1..])
  {
    PathsBytesFront(paths);
    var q := p + |StringBytes(paths[0])|;
    var whole := s[p..p + |PathsBytes(paths)|];
    assert s[p..q] == whole[..q - p];
    assert s[q + 8..p + |PathsBytes(paths)|] == whole[q - p + 8..];
  }

  /** The first of the written paths occupying s from position p reads back, and the rest follow 8 bytes later. */
  lemma PathsHead(s: seq<byte>, p: nat, paths: seq<JsString>) returns (q: nat)
    requires |paths| > 0
    requires p + |PathsBytes(paths)| <= |s| && s[p..p + |PathsBytes(paths)|] == PathsBytes(paths)
    requires ByteStrings(paths)
    ensures StringAt(s, p) == Some((paths[0], q)) && ByteStrings(paths[1..])
    ensures q + 8 + |PathsBytes(paths[1..])| == p + |PathsBytes(paths)|
    ensures s[q + 8..q + 8 + |PathsBytes(paths[1..])|] == PathsBytes(paths[1..])
  {
    PathsSplit(s, p, paths);
    q := p + |StringBytes(paths[0])|;
    StringSlice(s, p, paths[0]);
    ByteStringsTail(paths);
  }

  /** Written paths occupying s from position p read back in order, the read ending right after them. */
  lemma {:induction false} PathsPiece(s: seq<byte>, p: nat, paths: seq<JsString>)
    requires p + |PathsBytes(paths)| <= |s| && s[p..p + |PathsBytes(paths)|] == PathsBytes(paths)
    requires ByteStrings(paths)
    ensures DecodePaths(s, p, |paths|) == Some((paths, p + |PathsBytes(paths)|))
    decreases |paths|
  {
    if |paths| > 0 {
      var q := PathsHead(s, p, paths);
      PathsPiece(s, q + 8, paths[1..]);
      PathsCons(s, p, paths, q, p + |PathsBytes(paths)|);
    } else {
      PathsNil(s, p, paths);
    }
  }

  /** No paths read back as none, without moving. */
  lemma PathsNil(s: seq<byte>, p: nat, paths: seq<JsString>)
    requires |paths| == 0
    ensures DecodePaths(s, p, |paths|) == Some((paths, p + |PathsBytes(paths)|))
  {
    assert paths == [];
  }

  /** A count word followed by that many written paths reads back as those paths, then 8 skipped bytes. */
  lemma FileScriptAt(s: seq<byte>, p: nat, fileScript: FileScript)
    requires ByteStrings(fileScript.paths)
    requires p + 4 + |PathsBytes(fileScript.paths)| <= |s| && Uint32At(s, p) == |fileScript.paths|
    requires s[p + 4..p + 4 + |PathsBytes(fileScript.paths)|] == PathsBytes(fileScript.paths)
    ensures DecodeFileScript(s, p) == Some((fileScript, p + 12 + |PathsBytes(fileScript.paths)|))
  {
    PathsPiece(s, p + 4, fileScript.paths);
    FileScriptDecoded(s, p, fileScript, p + 4 + |PathsBytes(fileScript.paths)|);
  }

  /**
   * Reading a written file script gives back its paths in order when each
   * has code units in 1..255 and their count is a uint32, and stops right
   * after the record.
   */
  lemma {:induction false} FileScriptRoundTrip(c: seq<byte>, fileScript: FileScript, suffix: seq<byte>)
    requires ByteStrings(fileScript.paths) && |fileScript.paths| < 0x1_0000_0000
    ensures DecodeFileScript(FileScriptWritten(c, fileScript) + suffix, |c|)
      == Some((fileScript, |FileScriptWritten(c, fileScript)|))
  {
    var s := FileScriptWritten(c, fileScript) + suffix;
    var y1 := c + WordBytes(|fileScript.paths|);
    var y2 := y1 + PathsBytes(fileScript.paths);
    ZerosPiece(y2, 8, s);
    Piece(y1, PathsBytes(fileScript.paths), s);
    WordPiece(c, |fileScript.paths|, s);
    FileScriptAt(s, |c|, fileScript);
  }
}
