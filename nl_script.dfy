/**
 * Script record (src/helper/nl2park/coaster/script.ts): 4 zero bytes, the
 * class path and the script class as strings, a uint32 count of resource
 * files, each an id string and a path string, the NEGATED private virtual
 * machine flag, and 7 zero bytes.
 */
module NoLimitsScript {
  import opened Wrappers
  import opened NoLimitsBytes
  import opened NoLimitsStream

  datatype Resource = Resource(id: JsString, path: JsString)

  datatype Script = Script(
    classPath: JsString,
    scriptClass: JsString,
    resourceFiles: seq<Resource>,
    privateVirtualMachine: bool)

  /** One turn of the `writeScript` loop: the id, then the path. */
  function ResourceBytes(resource: Resource): seq<byte> {
    StringBytes(resource.id) + StringBytes(resource.path)
  }

  /** The loop of `writeScript` over the resource files. */
  function ResourcesBytes(resources: seq<Resource>): seq<byte> {
    if |resources| == 0 then []
    else ResourcesBytes(resources[..|resources| - 1]) + ResourceBytes(resources[|resources| - 1])
  }

  /** The content after `writeScript` appended `script` to content `c`. */
  function ScriptWritten(c: seq<byte>, script: Script): (s: seq<byte>)
    ensures c <= s
    ensures |s| == |c| + 16 + |StringBytes(script.classPath)| + |StringBytes(script.scriptClass)|
      + |ResourcesBytes(script.resourceFiles)|
  {
    c + Zeros(4) + StringBytes(script.classPath) + StringBytes(script.scriptClass)
    + WordBytes(|script.resourceFiles|) + ResourcesBytes(script.resourceFiles)
    + BoolBytes(!script.privateVirtualMachine) + Zeros(7)
  }

  /** One turn of the `readScript` loop from position p: `{id: readString, path: readString}`. */
  function ResourceAt(s: seq<byte>, p: nat): Option<(Resource, nat)> {
    match StringAt(s, p)
    case None => None
    case Some((id, q)) =>
      match StringAt(s, q)
      case None => None
      case Some((path, r)) => Some((Resource(id, path), r))
  }

  /** The loop of `readScript` from position p for n resource files; None when a string never ends. */
  function DecodeResources(s: seq<byte>, p: nat, n: nat): Option<(seq<Resource>, nat)>
    decreases n
  {
    if n == 0 then Some(([], p))
    else match ResourceAt(s, p)
      case None => None
      case Some((resource, q)) =>
        match DecodeResources(s, q, n - 1)
        case None => None
        case Some((rest, end)) => Some(([resource] + rest, end))
  }

  /**
   * What `readScript` returns from position p, with the position after it:
   * None where a string never ends or the count word lies past the end.
   */
  function DecodeScript(s: seq<byte>, p: nat): Option<(Script, nat)> {
    match StringAt(s, p + 4)
    case None => None
    case Some((classPath, q1)) =>
      match StringAt(s, q1)
      case None => None
      case Some((scriptClass, q2)) =>
        if q2 + 4 > |s| then None
        else match DecodeResources(s, q2 + 4, Uint32At(s, q2))
          case None => None
          case Some((resources, q3)) =>
            Some((Script(classPath, scriptClass, resources, !BoolAt(s, q3)), q3 + 8))
  }

  /** Both strings of a resource survive `writeString`/`readString`. */
  predicate ByteResource(resource: Resource) {
    ByteString(resource.id) && ByteString(resource.path)
  }

  predicate ByteResources(resources: seq<Resource>) {
    forall i :: 0 <= i < |resources| ==> ByteResource(resources[i])
  }

  /** `writeScript`. */
  method WriteScript(stream: Stream, script: Script)
    modifies stream
    ensures stream.content == ScriptWritten(old(stream.content), script)
    ensures stream.position == old(stream.position) + |ScriptWritten(old(stream.content), script)| - |old(stream.content)|
  {
    stream.WriteNull(4);
    stream.WriteString(script.classPath);
    stream.WriteString(script.scriptClass);
    stream.WriteUnsignedInteger(|script.resourceFiles|);
    WriteResources(stream, script.resourceFiles);
    stream.WriteBoolean(!script.privateVirtualMachine);
    stream.WriteNull(7);
  }

  /** The loop of `writeScript`: each resource file's id, then its path. */
  method WriteResources(stream: Stream, resources: seq<Resource>)
    modifies stream
    ensures stream.content == old(stream.content) + ResourcesBytes(resources)
    ensures stream.position == old(stream.position) + |ResourcesBytes(resources)|
  {
    for i := 0 to |resources|
      invariant stream.content == old(stream.content) + ResourcesBytes(resources[..i])
      invariant stream.position == old(stream.position) + |ResourcesBytes(resources[..i])|
    {
      stream.WriteString(resources[i].id);
      stream.WriteString(resources[i].path);
      Associate(old(stream.content) + ResourcesBytes(resources[..i]), StringBytes(resources[i].id), StringBytes(resources[i].path));
      Associate(old(stream.content), ResourcesBytes(resources[..i]), ResourceBytes(resources[i]));
      assert resources[..i + 1][..i] == resources[..i];
    }
    assert resources[..|resources|] == resources;
  }

  /** The `readScript` loop invariant: the n resource files still to read from p complete `done` to `whole`. */
  predicate RemainingResources(s: seq<byte>, p: nat, n: nat, done: seq<Resource>, whole: (seq<Resource>, nat)) {
    DecodeResources(s, p, n).Some? && whole == (done + DecodeResources(s, p, n).value.0, DecodeResources(s, p, n).value.1)
  }

  /** `readScript`. */
  method ReadScript(stream: Stream) returns (script: Script)
    requires 0 <= stream.position && DecodeScript(stream.content, stream.position).Some?
    modifies stream
    ensures stream.content == old(stream.content)
    ensures (script, stream.position) == DecodeScript(stream.content, old(stream.position)).value
  {
    stream.ReadNull(4);
    var classPath := stream.ReadString();
    var scriptClass := stream.ReadString();
    var numberOfResourceFiles := stream.ReadUnsignedInteger();
    var resourceFiles := ReadResources(stream, numberOfResourceFiles);
    var flag := stream.ReadBoolean();
    stream.ReadNull(7);
    script := Script(classPath, scriptClass, resourceFiles, !flag);
  }

  /** The loop of `readScript` over n resource files. */
  method ReadResources(stream: Stream, n: nat) returns (resourceFiles: seq<Resource>)
    requires 0 <= stream.position && DecodeResources(stream.content, stream.position, n).Some?
    modifies stream
    ensures stream.content == old(stream.content)
    ensures (resourceFiles, stream.position) == DecodeResources(stream.content, old(stream.position), n).value
  {
    ghost var whole := DecodeResources(stream.content, stream.position, n).value;
    resourceFiles := [];
    assert resourceFiles + whole.0 == whole.0;
    for i := 0 to n
      invariant stream.content == old(stream.content) && 0 <= stream.position
      invariant RemainingResources(stream.content, stream.position, n - i, resourceFiles, whole)
    {
      ResourcesTurn(stream.content, stream.position, n - i, resourceFiles, whole);
      var id := stream.ReadString();
      var path := stream.ReadString();
      resourceFiles := resourceFiles + [Resource(id, path)];
    }
    ResourcesDone(stream.content, stream.position, resourceFiles, whole);
  }

  /** One turn of the `readScript` loop keeps the invariant: the id string, then the path string. */
  lemma ResourcesTurn(s: seq<byte>, p: nat, n: nat, done: seq<Resource>, whole: (seq<Resource>, nat))
    requires n > 0 && RemainingResources(s, p, n, done, whole)
    ensures StringAt(s, p).Some? && StringAt(s, StringAt(s, p).value.1).Some?
    ensures var q := StringAt(s, p).value.1;
      RemainingResources(s, StringAt(s, q).value.1, n - 1,
        done + [Resource(StringAt(s, p).value.0, StringAt(s, q).value.0)], whole)
  {
    var (resource, q) := ResourceAt(s, p).value;
    var rest := DecodeResources(s, q, n - 1).value.0;
    assert done + ([resource] + rest) == (done + [resource]) + rest;
  }

  /** When no resource files remain, what was read is the whole. */
  lemma ResourcesDone(s: seq<byte>, p: nat, done: seq<Resource>, whole: (seq<Resource>, nat))
    requires RemainingResources(s, p, 0, done, whole)
    ensures whole == (done, p)
  {
    assert done + [] == done;
  }

  /** A written resource file occupying s from position p reads back, the read ending right after it. */
  lemma ResourceSlice(s: seq<byte>, p: nat, resource: Resource)
    requires p + |ResourceBytes(resource)| <= |s| && s[p..p + |ResourceBytes(resource)|] == ResourceBytes(resource)
    requires ByteResource(resource)
    ensures ResourceAt(s, p) == Some((resource, p + |ResourceBytes(resource)|))
  {
    var q := p + |StringBytes(resource.id)|;
    var end := p + |ResourceBytes(resource)|;
    var whole := s[p..end];
    assert s[p..q] == whole[..q - p];
    assert s[q..end] == whole[q - p..];
    StringSlice(s, p, resource.id);
    StringSlice(s, q, resource.path);
  }

  /** The resource files can also be taken from the front. */
  lemma {:induction false} ResourcesBytesFront(resources: seq<Resource>)
    requires |resources| > 0
    ensures ResourcesBytes(resources) == ResourceBytes(resources[0]) + ResourcesBytes(resources[1..])
    decreases |resources|
  {
    if |resources| > 1 {
      var init := resources[..|resources| - 1];
      var last := resources[|resources| - 1];
      var tail := resources[1..];
      ResourcesBytesFront(init);
      assert tail[..|tail| - 1] == init[1..] && tail[|tail| - 1] == last && init[0] == resources[0];
      assert ResourcesBytes(tail) == ResourcesBytes(init[1..]) + ResourceBytes(last);
      Associate(ResourceBytes(resources[0]), ResourcesBytes(init[1..]), ResourceBytes(last));
    } else {
      assert resources[..0] == [] && resources[1..] == [];
    }
  }

  /** Where the first resource file and the remaining ones sit when written resource files occupy s from p. */
  lemma {:induction false} ResourcesSplit(s: seq<byte>, p: nat, resources: seq<Resource>) returns (q: nat)
    requires |resources| > 0
    requires p + |ResourcesBytes(resources)| <= |s| && s[p..p + |ResourcesBytes(resources)|] == ResourcesBytes(resources)
    ensures q == p + |ResourceBytes(resources[0])| && q + |ResourcesBytes(resources[1..])| == p + |ResourcesBytes(resources)|
    ensures s[p..p + |ResourceBytes(resources[0])|] == ResourceBytes(resources[0])
    ensures s[q..q + |ResourcesBytes(resources[1..])|] == ResourcesBytes(resources[1..])
  {
    ResourcesBytesFront(resources);
    q := p + |ResourceBytes(resources[0])|;
    var whole := s[p..p + |ResourcesBytes(resources)|];
    assert s[p..q] == whole[..q - p];
    assert s[q..p + |ResourcesBytes(resources)|] == whole[q - p..];
  }

  /** The first of the written resource files occupying s from p reads back, and the rest follow it. */
  lemma ResourcesHead(s: seq<byte>, p: nat, resources: seq<Resource>) returns (q: nat)
    requires |resources| > 0
    requires p + |ResourcesBytes(resources)| <= |s| && s[p..p + |ResourcesBytes(resources)|] == ResourcesBytes(resources)
    requires ByteResources(resources)
    ensures ResourceAt(s, p) == Some((resources[0], q)) && ByteResources(resources[1..])
    ensures q + |ResourcesBytes(resources[1..])| == p + |ResourcesBytes(resources)|
    ensures s[q..q + |ResourcesBytes(resources[1..])|] == ResourcesBytes(resources[1..])
  {
    q := ResourcesSplit(s, p, resources);
    ResourceSlice(s, p, resources[0]);
    ByteResourcesTail(resources);
  }

  /** Every resource file after the first survives the string round trip when all of them do. */
  lemma ByteResourcesTail(resources: seq<Resource>)
    requires |resources| > 0 && ByteResources(resources)
    ensures ByteResources(resources[1..])
  {
    var rest := resources[1..];
    forall i | 0 <= i < |rest| ensures ByteResource(rest[i]) {
      assert rest[i] == resources[i + 1];
    }
  }

  /** A resource file followed by the remaining ones is all of them. */
  lemma ResourcesCons(s: seq<byte>, p: nat, resources: seq<Resource>, q: nat, end: nat)
    requires |resources| > 0 && ResourceAt(s, p) == Some((resources[0], q))
    requires DecodeResources(s, q, |resources[1..]|) == Some((resources[1..], end))
    ensures DecodeResources(s, p, |resources|) == Some((resources, end))
  {
    assert [resources[0]] + resources[1..] == resources;
  }

  /** No resource files read back as none, without moving. */
  lemma ResourcesNil(s: seq<byte>, p: nat, resources: seq<Resource>)
    requires |resources| == 0
    ensures DecodeResources(s, p, |resources|) == Some((resources, p + |ResourcesBytes(resources)|))
  {
    assert resources == [];
  }

  /** Written resource files occupying s from position p read back in order, the read ending right after them. */
  lemma {:induction false} ResourcesPiece(s: seq<byte>, p: nat, resources: seq<Resource>)
    requires p + |ResourcesBytes(resources)| <= |s| && s[p..p + |ResourcesBytes(resources)|] == ResourcesBytes(resources)
    requires ByteResources(resources)
    ensures DecodeResources(s, p, |resources|) == Some((resources, p + |ResourcesBytes(resources)|))
    decreases |resources|
  {
    if |resources| > 0 {
      var q := ResourcesHead(s, p, resources);
      ResourcesPiece(s, q, resources[1..]);
      ResourcesCons(s, p, resources, q, p + |ResourcesBytes(resources)|);
    } else {
      ResourcesNil(s, p, resources);
    }
  }

  /** The record is its two strings, the count and the resource files it announces, and the negated flag. */
  lemma ScriptDecoded(s: seq<byte>, p: nat, script: Script, q1: nat, q2: nat, q3: nat)
    requires StringAt(s, p + 4) == Some((script.classPath, q1)) && StringAt(s, q1) == Some((script.scriptClass, q2))
    requires q2 + 4 <= |s| && DecodeResources(s, q2 + 4, Uint32At(s, q2)) == Some((script.resourceFiles, q3))
    requires BoolAt(s, q3) == !script.privateVirtualMachine
    ensures DecodeScript(s, p) == Some((script, q3 + 8))
  {
  }

  /** A script record laid out in s from position p reads back whole. */
  lemma ScriptAt(s: seq<byte>, p: nat, script: Script, q1: nat, q2: nat, q3: nat, end: nat)
    requires ByteString(script.classPath) && ByteString(script.scriptClass) && ByteResources(script.resourceFiles)
    requires q1 == p + 4 + |StringBytes(script.classPath)| && q2 == q1 + |StringBytes(script.scriptClass)|
    requires q3 == q2 + 4 + |ResourcesBytes(script.resourceFiles)| && q3 <= |s|
    requires s[p + 4..q1] == StringBytes(script.classPath) && s[q1..q2] == StringBytes(script.scriptClass)
    requires Uint32At(s, q2) == |script.resourceFiles| && s[q2 + 4..q3] == ResourcesBytes(script.resourceFiles)
    requires BoolAt(s, q3) == !script.privateVirtualMachine && end == q3 + 8
    ensures DecodeScript(s, p) == Some((script, end))
  {
    ScriptStrings(s, p, script, q1, q2);
    ResourcesPiece(s, q2 + 4, script.resourceFiles);
    ScriptDecoded(s, p, script, q1, q2, q3);
  }

  /** The two strings of a script record laid out in s from position p read back. */
  lemma ScriptStrings(s: seq<byte>, p: nat, script: Script, q1: nat, q2: nat)
    requires ByteString(script.classPath) && ByteString(script.scriptClass)
    requires q1 == p + 4 + |StringBytes(script.classPath)| && q2 == q1 + |StringBytes(script.scriptClass)| && q2 <= |s|
    requires s[p + 4..q1] == StringBytes(script.classPath) && s[q1..q2] == StringBytes(script.scriptClass)
    ensures StringAt(s, p + 4) == Some((script.classPath, q1)) && StringAt(s, q1) == Some((script.scriptClass, q2))
  {
    StringSlice(s, p + 4, script.classPath);
    StringSlice(s, q1, script.scriptClass);
  }

  /** The fixed head of a written script: the two strings after 4 zero bytes. */
  lemma {:induction false} ScriptHeadRead(y: seq<byte>, script: Script, s: seq<byte>) returns (q1: nat, q2: nat)
    requires y + Zeros(4) + StringBytes(script.classPath) + StringBytes(script.scriptClass) <= s
    ensures q1 == |y| + 4 + |StringBytes(script.classPath)| && q2 == q1 + |StringBytes(script.scriptClass)| && q2 <= |s|
    ensures s[|y| + 4..q1] == StringBytes(script.classPath) && s[q1..q2] == StringBytes(script.scriptClass)
  {
    var y1 := y + Zeros(4);
    var y2 := y1 + StringBytes(script.classPath);
    Piece(y2, StringBytes(script.scriptClass), s);
    Piece(y1, StringBytes(script.classPath), s);
    q1, q2 := |y2|, |y2| + |StringBytes(script.scriptClass)|;
  }

  /** The rest of a written script: the count, the resource files, the negated flag and 7 zero bytes. */
  lemma {:induction false} ScriptTailRead(y: seq<byte>, script: Script, s: seq<byte>) returns (q3: nat)
    requires y + WordBytes(|script.resourceFiles|) + ResourcesBytes(script.resourceFiles)
      + BoolBytes(!script.privateVirtualMachine) + Zeros(7) <= s
    requires |script.resourceFiles| < 0x1_0000_0000
    ensures y <= s
    ensures q3 == |y| + 4 + |ResourcesBytes(script.resourceFiles)| && q3 + 8 <= |s|
    ensures Uint32At(s, |y|) == |script.resourceFiles| && s[|y| + 4..q3] == ResourcesBytes(script.resourceFiles)
    ensures BoolAt(s, q3) == !script.privateVirtualMachine
  {
    var y1 := y + WordBytes(|script.resourceFiles|);
    var y2 := y1 + ResourcesBytes(script.resourceFiles);
    var y3 := y2 + BoolBytes(!script.privateVirtualMachine);
    ZerosPiece(y3, 7, s);
    BoolPiece(y2, !script.privateVirtualMachine, s);
    Piece(y1, ResourcesBytes(script.resourceFiles), s);
    WordPiece(y, |script.resourceFiles|, s);
    q3 := |y2|;
  }

  /**
   * Reading a written script gives it back whole, the private virtual
   * machine flag included although it is stored negated, when every string
   * has code units in 1..255 and the resource count is a uint32, whatever
   * follows it, and stops right after the record.
   */
  lemma {:induction false} ScriptRoundTrip(c: seq<byte>, script: Script, s: seq<byte>)
    requires ByteString(script.classPath) && ByteString(script.scriptClass) && ByteResources(script.resourceFiles)
    requires |script.resourceFiles| < 0x1_0000_0000
    requires ScriptWritten(c, script) <= s
    ensures DecodeScript(s, |c|) == Some((script, |ScriptWritten(c, script)|))
  {
    var y := c + Zeros(4) + StringBytes(script.classPath) + StringBytes(script.scriptClass);
    var q3 := ScriptTailRead(y, script, s);
    var q1, q2 := ScriptHeadRead(c, script, s);
    assert q2 == |y|;
    ScriptAt(s, |c|, script, q1, q2, q3, |ScriptWritten(c, script)|);
  }
}
