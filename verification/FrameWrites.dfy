/**
 What one `writeFrame` call puts on the wire, said by what a receiver decodes; and for which sizes and environments it
 reports which error.
 */
module FrameWrites {
  import opened Wrappers
  import opened Bytes
  import opened Frames
  import opened Messages
  import opened Sequences

  predicate FitsControl(opcode: byte, payload: seq<byte>) {
    opcode >= 0x8 ==> |payload| <= 125
  }

  /**
   The receiving end of section 5.2 decodes exactly this frame from exactly these bytes; the mask stands in front of the
   payload, and no length form would have made the frame shorter.
   */
  predicate Carries(bytes: seq<byte>, opcode: byte, payload: seq<byte>, mask: Mask) {
    && DecodeMasked(bytes) == Some((Frame(true, opcode, payload), |bytes|))
    && |bytes| >= |payload| + 4
    && bytes[|bytes| - |payload| - 4..|bytes| - |payload|] == mask
    && forall form: Form :: Spells(form, |payload|) ==> |bytes| <= 6 + ExtraBytes(form) + |payload|
  }

  predicate IsSized(opcode: byte, payload: seq<byte>, maxMessage: int) {
    FitsControl(opcode, payload) && |payload| <= maxMessage
  }

  /** What a write within the size limits leaves on the wire behind what was there, given the frame that was meant. */
  predicate LeavesOnWire(before: Sink, after: Sink, bytes: seq<byte>) {
    && before.wire <= after.wire
    && var added := after.wire[|before.wire|..];
      if |before.fates| == 0 then added == []
      else
        match before.fates[0]
        case Sent(_) => added == bytes
        case SentDeadlineStuck(_) => added == bytes
        case Broken(_, sent) => added == bytes[..if sent < |bytes| then sent else |bytes|]
        case _ => added == []
  }

  lemma FrameIsCarried(opcode: byte, payload: seq<byte>, mask: Mask)
    requires opcode < 16 && |payload| <= MAX_INT64
    ensures Carries(EncodeMasked(opcode, payload, mask), opcode, payload, mask)
  {
    var bytes := EncodeMasked(opcode, payload, mask);
    DecodeOfEncodeMasked(opcode, payload, mask, []);
    assert bytes + [] == bytes;
    MaskComesBeforePayload([0x80 | opcode] + LengthField(Shortest(|payload|), |payload|, 0x80), mask,
                           Masked(payload, mask));
    forall form: Form | Spells(form, |payload|)
      ensures |bytes| <= 6 + ExtraBytes(form) + |payload|
    {
      ShortestIsMinimal(|payload|, form);
    }
  }

  lemma MaskComesBeforePayload(header: seq<byte>, mask: Mask, masked: seq<byte>)
    ensures (header + mask + masked)[|header|..|header| + 4] == mask
  {
    SliceOfFirst(header + mask, masked, |header|, |header| + 4);
    Parts(header, mask);
  }

  lemma WireGrows(wire: seq<byte>, more: seq<byte>)
    ensures wire <= wire + more && (wire + more)[|wire|..] == more
  {
    Parts(wire, more);
  }

  /**
   For every opcode that fits its four bits: a write reports success exactly when the payload is within the limits and
   the environment lets it through, and which error it reports otherwise. Behind what was on the wire there is then one
   frame that decodes to this opcode and payload, all of it or as much as got through; a refused write adds nothing.
   */
  lemma WriteExactly(sink: Sink, opcode: byte, payload: seq<byte>, maxMessage: int) returns (bytes: seq<byte>)
    requires opcode < 16 && maxMessage <= MAX_INT64
    ensures var w := Write(sink, opcode, payload, maxMessage);
      && (w.error == Some(ControlTooLarge) <==> !FitsControl(opcode, payload))
      && (w.error == Some(TooLarge) <==> FitsControl(opcode, payload) && |payload| > maxMessage)
      && (!IsSized(opcode, payload, maxMessage) ==> w.sink == sink)
      && (IsSized(opcode, payload, maxMessage) ==>
            && LeavesOnWire(sink, w.sink, bytes)
            && if |sink.fates| == 0 then w.error == Some(NoDeadline) && w.sink.fates == []
               else
                 && w.sink.fates == sink.fates[1..]
                 && (sink.fates[0].NoRandomness? || Carries(bytes, opcode, payload, sink.fates[0].mask))
                 && (w.error == None <==> sink.fates[0].Sent?)
                 && (w.error == Some(NoEntropy) <==> sink.fates[0].NoRandomness?)
                 && (w.error == Some(NoDeadline)
                     <==> sink.fates[0].DeadlineRefused? || sink.fates[0].SentDeadlineStuck?)
                 && (w.error == Some(BrokenPipe) <==> sink.fates[0].Broken?))
  {
    bytes := [];
    WireGrows(sink.wire, []);
    assert sink.wire + [] == sink.wire;
    if IsSized(opcode, payload, maxMessage) && |sink.fates| > 0 && !sink.fates[0].NoRandomness? {
      bytes := EncodeMasked(opcode, payload, sink.fates[0].mask);
      FrameIsCarried(opcode, payload, sink.fates[0].mask);
      WireGrows(sink.wire, bytes);
      if sink.fates[0].Broken? {
        WireGrows(sink.wire, bytes[..if sink.fates[0].sent < |bytes| then sink.fates[0].sent else |bytes|]);
      }
    }
  }
}
