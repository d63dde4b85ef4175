/**
 * Trigger point record (src/helper/nl2park/track/trigger-point.ts): the
 * position as a double, the name as a string, 3 zero bytes, the train event
 * as one byte and 26 zero bytes. The tag is not written; reading always
 * tags the point `'trigger'`.
 */
module NoLimitsTriggerPoint {
  import opened Wrappers
  import opened NoLimitsBytes
  import opened NoLimitsStream
  import opened NoLimitsTrackPoint

  /** `TriggerTrainEvent`: None = 0, UnlockSpinning = 1, LockSpinning = 2, UnlockSwinging = 3, LockSwinging = 4. */
  predicate IsTrainEvent(trainEvent: int) {
    0 <= trainEvent <= 4
  }

  datatype TriggerPoint = TriggerPoint(pointType: PointType, position: DoubleBits, name: JsString, trainEvent: int)

  /** The content after `writeTriggerPoint` appended `trigger` to content `c`. */
  function TriggerWritten(c: seq<byte>, trigger: TriggerPoint): (s: seq<byte>)
    ensures |s| == |c| + 2 * |trigger.name| + 40 && c <= s
  {
    c + DoubleBytes(trigger.position) + StringBytes(trigger.name) + Zeros(3) + U8Bytes(trigger.trainEvent) + Zeros(26)
  }

  /**
   * What `readTriggerPoint` returns when it starts at position p, with the
   * position after it. None where the source has no result: the double
   * runs past the end (a RangeError) or no string terminator follows (the
   * string loop never ends). None also where the event byte is past the
   * end: the source then returns a record whose `trainEvent` is
   * `undefined`, a case the model excludes.
   */
  function DecodeTrigger(s: seq<byte>, p: nat): Option<(TriggerPoint, nat)> {
    if p + 8 > |s| then None
    else match StringAt(s, p + 8)
      case None => None
      case Some((name, q)) =>
        if q + 3 < |s| then Some((TriggerPoint(Trigger, DoubleAt(s, p), name, U8At(s, q + 3)), q + 30)) else None
  }

  /** The point as it reads back: tagged `'trigger'`, the event masked to a byte. */
  function MaskTrigger(trigger: TriggerPoint): (masked: TriggerPoint)
    ensures masked == trigger <==> trigger.pointType == Trigger && 0 <= trigger.trainEvent < 256
  {
    trigger.(pointType := Trigger, trainEvent := Low8(trigger.trainEvent) as int)
  }

  /** `writeTriggerPoint`. */
  method WriteTriggerPoint(stream: Stream, trigger: TriggerPoint)
    modifies stream
    ensures stream.content == TriggerWritten(old(stream.content), trigger)
    ensures stream.position == old(stream.position) + 2 * |trigger.name| + 40
  {
    stream.WriteDouble(trigger.position);
    stream.WriteString(trigger.name);
    stream.WriteNull(3);
    stream.WriteUnsigned8(trigger.trainEvent);
    stream.WriteNull(26);
  }

  /** `readTriggerPoint`. */
  method ReadTriggerPoint(stream: Stream) returns (trigger: TriggerPoint)
    requires 0 <= stream.position && DecodeTrigger(stream.content, stream.position).Some?
    modifies stream
    ensures stream.content == old(stream.content)
    ensures (trigger, stream.position) == DecodeTrigger(stream.content, old(stream.position)).value
  {
    var position := stream.ReadDouble();
    var name := stream.ReadString();
    stream.ReadNull(3);
    var trainEvent := stream.ReadUnsigned8();
    stream.ReadNull(26);
    trigger := TriggerPoint(Trigger, position, name, trainEvent);
  }

  /**
   * Reading a written trigger point whose name has code units in 1..255
   * gives back the point tagged `'trigger'` with its event masked, and
   * stops right after it; every `TriggerTrainEvent` value comes back as it
   * was.
   */
  lemma {:induction false} TriggerRoundTrip(c: seq<byte>, trigger: TriggerPoint, suffix: seq<byte>)
    requires ByteString(trigger.name)
    ensures DecodeTrigger(TriggerWritten(c, trigger) + suffix, |c|)
      == Some((MaskTrigger(trigger), |TriggerWritten(c, trigger)|))
    ensures IsTrainEvent(trigger.trainEvent) ==> MaskTrigger(trigger).trainEvent == trigger.trainEvent
  {
    var s := TriggerWritten(c, trigger) + suffix;
    var y1 := c + DoubleBytes(trigger.position);
    var y2 := y1 + StringBytes(trigger.name);
    var y3 := y2 + Zeros(3);
    var y4 := y3 + U8Bytes(trigger.trainEvent);
    ZerosPiece(y4, 26, s);
    U8Piece(y3, trigger.trainEvent, s);
    ZerosPiece(y2, 3, s);
    StringPiece(y1, trigger.name, s);
    DoublePiece(c, trigger.position, s);
  }
}
