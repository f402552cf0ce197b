/**
 WebSocket frames (RFC 6455, sections 5.2 to 5.5) as bytes: the spellings a server may send, the parser the
 client applies to them, the masked spelling the client itself produces, and an independent decoder for it.
 */
module Frames {
  import opened Wrappers
  import opened Bytes
  import opened Sequences

  const CONTINUATION: byte := 0x0
  const TEXT: byte := 0x1
  const BINARY: byte := 0x2
  const CLOSE: byte := 0x8
  const PING: byte := 0x9
  const PONG: byte := 0xA

  datatype Frame = Frame(fin: bool, opcode: byte, payload: seq<byte>)

  /** The three ways of writing a payload length: in the second byte, in two more bytes, in eight more bytes. */
  datatype Form = Short | Medium | Long

  function ExtraBytes(form: Form): nat {
    match form
    case Short => 0
    case Medium => 2
    case Long => 8
  }

  /** A sender may use any form that is wide enough, not only the shortest one. */
  predicate Spells(form: Form, length: nat) {
    match form
    case Short => length <= 125
    case Medium => length <= 65535
    case Long => length <= MAX_INT64
  }

  function LengthField(form: Form, length: nat, maskBit: byte): (field: seq<byte>)
    ensures |field| == 1 + ExtraBytes(form)
  {
    match form
    case Short => [maskBit | Low(length)]
    case Medium => [maskBit | 126] + BigEndian(length, 2)
    case Long => [maskBit | 127] + BigEndian(length, 8)
  }

  function FormOf(second: byte): Form {
    if second & 0x7f == 126 then Medium else if second & 0x7f == 127 then Long else Short
  }

  /** The payload length that the second byte and the bytes after it stand for. */
  function LengthOf(second: byte, extra: seq<byte>): nat {
    if FormOf(second) == Short then (second & 0x7f) as int else Value(extra)
  }

  /** Writing a length and reading it back, for either mask bit and every form. */
  lemma LengthFieldReadsBack(form: Form, length: nat, maskBit: byte)
    requires Spells(form, length)
    requires maskBit == 0 || maskBit == 0x80
    ensures var field := LengthField(form, length, maskBit);
      FormOf(field[0]) == form && LengthOf(field[0], field[1..]) == length && field[0] & 0x80 == maskBit
  {
    match form
    case Short => ShortFieldReadsBack(length, maskBit);
    case Medium => WideFieldReadsBack(Medium, length, maskBit);
    case Long => WideFieldReadsBack(Long, length, maskBit);
  }

  lemma ShortFieldReadsBack(length: nat, maskBit: byte)
    requires length <= 125
    requires maskBit == 0 || maskBit == 0x80
    ensures var second: byte := maskBit | Low(length);
      FormOf(second) == Short && (second & 0x7f) as int == length && second & 0x80 == maskBit
  {
    var low := Low(length);
    LowIsRemainder(length);
    SmallRemainder(length);
    SmallByte(low);
    MarkSplits(low, maskBit);
    assert FormOf(maskBit | low) == Short;
  }

  lemma SmallByte(low: byte)
    requires low as int <= 125
    ensures low <= 125
  {
  }

  lemma WideFieldReadsBack(form: Form, length: nat, maskBit: byte)
    requires Spells(form, length) && form != Short
    requires maskBit == 0 || maskBit == 0x80
    ensures var field := LengthField(form, length, maskBit);
      FormOf(field[0]) == form && Value(field[1..]) == length && field[0] & 0x80 == maskBit
  {
    Capacities();
    ValueOfBigEndian(length, ExtraBytes(form));
    MarkSplits(126, maskBit);
    MarkSplits(127, maskBit);
    assert LengthField(form, length, maskBit)[1..] == BigEndian(length, ExtraBytes(form));
  }

  lemma MarkSplits(low: byte, maskBit: byte)
    requires low <= 127
    requires maskBit == 0 || maskBit == 0x80
    ensures (maskBit | low) & 0x7f == low && (maskBit | low) & 0x80 == maskBit
  {
  }

  /** Reading a length and writing it back gives the very bytes that were read. */
  lemma LengthReadsForth(second: byte, extra: seq<byte>)
    requires |extra| == ExtraBytes(FormOf(second))
    requires LengthOf(second, extra) <= MAX_INT64
    ensures Spells(FormOf(second), LengthOf(second, extra))
    ensures LengthField(FormOf(second), LengthOf(second, extra), second & 0x80) == [second] + extra
  {
    Capacities();
    BigEndianOfValue(extra);
    SecondByteSplits(second);
  }

  lemma SecondByteSplits(second: byte)
    ensures second & 0x80 == 0 || second & 0x80 == 0x80
    ensures (second & 0x80) | (second & 0x7f) == second
    ensures FormOf(second) == Short ==> (second & 0x7f) as int <= 125
    ensures Low((second & 0x7f) as int) == second & 0x7f
  {
    var low := second & 0x7f;
    LowOfByte(low);
    assert low <= 127;
    if FormOf(second) == Short {
      assert low <= 125;
    }
  }

  // ---------------------------------------------------------------------------------------------
  // Frames from the server
  // ---------------------------------------------------------------------------------------------

  /** A frame together with the length form its sender chose. */
  datatype Spelling = Spelling(frame: Frame, form: Form)

  function FirstByte(fin: bool, opcode: byte): byte {
    (if fin then 0x80 else 0) | opcode
  }

  /** What section 5.2 allows an unmasking sender to put on the wire, within the receiver's size limit. */
  predicate Legal(s: Spelling, maxMessage: int) {
    && s.frame.opcode < 16
    && |s.frame.payload| <= maxMessage
    && Spells(s.form, |s.frame.payload|)
    && (IsControl(s.frame.opcode) ==> s.frame.fin && |s.frame.payload| <= 125)
  }

  predicate IsControl(opcode: byte) {
    opcode >= 0x8
  }

  function Encode(s: Spelling): (bs: seq<byte>)
    ensures |bs| == 2 + ExtraBytes(s.form) + |s.frame.payload|
  {
    [FirstByte(s.frame.fin, s.frame.opcode)] + LengthField(s.form, |s.frame.payload|, 0) + s.frame.payload
  }

  datatype ReadError =
    | EndOfStream                   // io.EOF and io.ErrUnexpectedEOF of io.ReadFull
    | ExtendedFrame
    | MaskedFrame
    | LengthOverflow
    | InvalidControlFrame
    | MessageTooLong
    | UnexpectedContinuation
    | LateNotText                   // the test at the end of a continued message
    | InterruptedMessage
    | NotText
    | ClosedByPeer                  // io.EOF for a close frame
    | UnsupportedOpcode(opcode: byte)
    | PongFailed(reason: WriteError)

  datatype WriteError = ControlTooLarge | TooLarge | NoEntropy | NoDeadline | BrokenPipe

  datatype FrameResult =
    | Parsed(frame: Frame, used: nat)
    | Rejected(error: ReadError, used: nat)

  /** The meaning of one `readFrame` call: the frame or the error, and how many bytes of the stream it takes. */
  function ParseFrame(input: seq<byte>, maxMessage: int): (r: FrameResult)
    ensures r.used <= |input|
    ensures r.Parsed? ==> 2 <= r.used
  {
    if |input| < 2 then Rejected(EndOfStream, |input|)
    else if input[0] & 0x70 != 0 then Rejected(ExtendedFrame, 2)
    else if input[1] & 0x80 != 0 then Rejected(MaskedFrame, 2)
    else
      var header := 2 + ExtraBytes(FormOf(input[1]));
      if |input| < header then Rejected(EndOfStream, |input|)
      else
        var length := LengthOf(input[1], input[2..header]);
        var fin, opcode := input[0] & 0x80 != 0, input[0] & 0x0f;
        if length > MAX_INT64 then Rejected(LengthOverflow, header)
        else if IsControl(opcode) && (!fin || length > 125) then Rejected(InvalidControlFrame, header)
        else if length > maxMessage then Rejected(MessageTooLong, header)
        else if |input| < header + length then Rejected(EndOfStream, |input|)
        else Parsed(Frame(fin, opcode, input[header..header + length]), header + length)
  }

  lemma FirstByteSplits(fin: bool, opcode: byte)
    requires opcode < 16
    ensures FirstByte(fin, opcode) & 0x70 == 0
    ensures FirstByte(fin, opcode) & 0x80 != 0 <==> fin
    ensures FirstByte(fin, opcode) & 0x0f == opcode
  {
  }

  lemma FirstByteJoins(first: byte)
    requires first & 0x70 == 0
    ensures FirstByte(first & 0x80 != 0, first & 0x0f) == first && first & 0x0f < 16
  {
  }

  /** Every legal spelling parses to its own frame, whatever follows it on the stream, taking exactly its bytes. */
  lemma ParseOfEncode(s: Spelling, rest: seq<byte>, maxMessage: int)
    requires Legal(s, maxMessage)
    ensures ParseFrame(Encode(s) + rest, maxMessage) == Parsed(s.frame, |Encode(s)|)
    ensures FormOf((Encode(s) + rest)[1]) == s.form
  {
    var f, input := s.frame, Encode(s) + rest;
    var field := LengthField(s.form, |f.payload|, 0);
    HeaderAndPayload(FirstByte(f.fin, f.opcode), field, f.payload, rest);
    FirstByteSplits(f.fin, f.opcode);
    LengthFieldReadsBack(s.form, |f.payload|, 0);
  }

  /** Where the parts of a frame are found again in a stream. */
  lemma HeaderAndPayload(first: byte, field: seq<byte>, payload: seq<byte>, rest: seq<byte>)
    requires |field| >= 1
    ensures var input := [first] + field + payload + rest;
      var header := 1 + |field|;
      && input[0] == first && input[1] == field[0]
      && input[2..header] == field[1..]
      && input[header..header + |payload|] == payload
      && input[header + |payload|..] == rest
  {
    var head := [first] + field;
    Regroup(head, payload, rest);
    Parts(head, payload + rest);
    Parts(payload, rest);
    SliceTwice(head + (payload + rest), |head|, |payload|);
    SliceOfFirst(head, payload + rest, 2, |head|);
    DropsRest(first, field);
    SliceTwice(head, 1, 1);
  }

  /** The only spelling that a parsed frame can have had: its own bytes. */
  lemma EncodeOfParse(input: seq<byte>, maxMessage: int)
    requires ParseFrame(input, maxMessage).Parsed?
    ensures var r := ParseFrame(input, maxMessage);
      var s := Spelling(r.frame, FormOf(input[1]));
      Legal(s, maxMessage) && Encode(s) == input[..r.used]
  {
    var r := ParseFrame(input, maxMessage);
    var header := 2 + ExtraBytes(FormOf(input[1]));
    PartsOfParsed(input, maxMessage);
    HeaderReadsForth(input[0], input[1], input[2..header]);
    ThreeParts(input, header, r.used);
  }

  /** Where a parsed frame was read from. */
  lemma PartsOfParsed(input: seq<byte>, maxMessage: int)
    requires ParseFrame(input, maxMessage).Parsed?
    ensures |input| >= 2 && input[0] & 0x70 == 0 && input[1] & 0x80 == 0
    ensures var r := ParseFrame(input, maxMessage);
      var header := 2 + ExtraBytes(FormOf(input[1]));
      && header <= |input|
      && r.used == header + |r.frame.payload|
      && r.frame == Frame(input[0] & 0x80 != 0, input[0] & 0x0f, input[header..r.used])
      && |r.frame.payload| == LengthOf(input[1], input[2..header]) <= MAX_INT64
      && |r.frame.payload| <= maxMessage
      && (IsControl(r.frame.opcode) ==> r.frame.fin && |r.frame.payload| <= 125)
  {
  }

  lemma HeaderReadsForth(first: byte, second: byte, extra: seq<byte>)
    requires first & 0x70 == 0 && second & 0x80 == 0
    requires |extra| == ExtraBytes(FormOf(second)) && LengthOf(second, extra) <= MAX_INT64
    ensures FirstByte(first & 0x80 != 0, first & 0x0f) == first && first & 0x0f < 16
    ensures Spells(FormOf(second), LengthOf(second, extra))
    ensures LengthField(FormOf(second), LengthOf(second, extra), 0) == [second] + extra
  {
    FirstByteJoins(first);
    LengthReadsForth(second, extra);
  }

  lemma ThreeParts(input: seq<byte>, header: nat, used: nat)
    requires 2 <= header <= used <= |input|
    ensures input[..used] == [input[0]] + ([input[1]] + input[2..header]) + input[header..used]
  {
  }

  /** `readFrame` accepts a stream exactly when the stream starts with a legal frame. */
  lemma AcceptedExactlyWhenLegal(input: seq<byte>, maxMessage: int)
    ensures ParseFrame(input, maxMessage).Parsed? <==>
      exists s: Spelling :: Legal(s, maxMessage) && Encode(s) <= input
  {
    if ParseFrame(input, maxMessage).Parsed? {
      EncodeOfParse(input, maxMessage);
      var r := ParseFrame(input, maxMessage);
      var s := Spelling(r.frame, FormOf(input[1]));
      assert Legal(s, maxMessage) && Encode(s) <= input;
    }
    forall s: Spelling | Legal(s, maxMessage) && Encode(s) <= input
      ensures ParseFrame(input, maxMessage).Parsed?
    {
      assert input == Encode(s) + input[|Encode(s)|..];
      ParseOfEncode(s, input[|Encode(s)|..], maxMessage);
    }
  }

  /** A parsed frame does not depend on the bytes after it. */
  lemma ParseIsLocal(input: seq<byte>, more: seq<byte>, maxMessage: int)
    requires ParseFrame(input, maxMessage).Parsed?
    ensures ParseFrame(input + more, maxMessage) == ParseFrame(input, maxMessage)
  {
    EncodeOfParse(input, maxMessage);
    var r := ParseFrame(input, maxMessage);
    var s := Spelling(r.frame, FormOf(input[1]));
    assert input + more == Encode(s) + (input[r.used..] + more);
    ParseOfEncode(s, input[r.used..] + more, maxMessage);
  }

  predicate AllLegal(ss: seq<Spelling>, maxMessage: int) {
    forall i :: 0 <= i < |ss| ==> Legal(ss[i], maxMessage)
  }

  function EncodeAll(ss: seq<Spelling>): seq<byte> {
    if |ss| == 0 then [] else Encode(ss[0]) + EncodeAll(ss[1..])
  }

  lemma HeadIsDetermined(a: Spelling, restA: seq<byte>, b: Spelling, restB: seq<byte>, maxMessage: int)
    requires Legal(a, maxMessage) && Legal(b, maxMessage)
    requires Encode(a) + restA == Encode(b) + restB
    ensures a == b && restA == restB
  {
    var input := Encode(a) + restA;
    ParseOfEncode(a, restA, maxMessage);
    ParseOfEncode(b, restB, maxMessage);
    Parts(Encode(a), restA);
    Parts(Encode(b), restB);
  }

  /** A byte string is the wire form of at most one sequence of spelled frames. */
  lemma {:induction false} EncodeAllIsInjective(a: seq<Spelling>, b: seq<Spelling>, maxMessage: int)
    requires AllLegal(a, maxMessage) && AllLegal(b, maxMessage)
    requires EncodeAll(a) == EncodeAll(b)
    ensures a == b
  {
    if |a| == 0 || |b| == 0 {
    } else {
      AllLegalRest(a, maxMessage);
      AllLegalRest(b, maxMessage);
      HeadIsDetermined(a[0], EncodeAll(a[1..]), b[0], EncodeAll(b[1..]), maxMessage);
      EncodeAllIsInjective(a[1..], b[1..], maxMessage);
      SameFirstAndRest(a, b);
    }
  }

  lemma AllLegalRest(ss: seq<Spelling>, maxMessage: int)
    requires AllLegal(ss, maxMessage) && |ss| > 0
    ensures Legal(ss[0], maxMessage) && AllLegal(ss[1..], maxMessage)
  {
  }

  // ---------------------------------------------------------------------------------------------
  // Frames from the client
  // ---------------------------------------------------------------------------------------------

  type Mask = m: seq<byte> | |m| == 4 witness [0, 0, 0, 0]

  /** Section 5.3: every payload byte is combined with the mask byte at its index modulo four. */
  function Masked(payload: seq<byte>, mask: Mask): (m: seq<byte>)
    ensures |m| == |payload|
  {
    seq(|payload|, i requires 0 <= i < |payload| => payload[i] ^ mask[i % 4])
  }

  lemma XorTwice(a: byte, b: byte)
    ensures (a ^ b) ^ b == a
  {
  }

  lemma MaskingIsInvolutive(payload: seq<byte>, mask: Mask)
    ensures Masked(Masked(payload, mask), mask) == payload
  {
    forall i | 0 <= i < |payload|
      ensures Masked(Masked(payload, mask), mask)[i] == payload[i]
    {
      XorTwice(payload[i], mask[i % 4]);
    }
  }

  /** The form the client picks for a payload length. */
  function Shortest(length: nat): Form {
    if length < 126 then Short else if length <= 65535 then Medium else Long
  }

  /** No other form gives a shorter frame, and the boundaries lie at 125/126 and at 65535/65536. */
  lemma ShortestIsMinimal(length: nat, form: Form)
    requires Spells(form, length)
    ensures Spells(Shortest(length), length)
    ensures ExtraBytes(Shortest(length)) <= ExtraBytes(form)
    ensures ExtraBytes(Shortest(length)) == ExtraBytes(form) ==> Shortest(length) == form
    ensures Shortest(125) == Short && Shortest(126) == Medium && Shortest(65535) == Medium && Shortest(65536) == Long
  {
  }

  function EncodeMasked(opcode: byte, payload: seq<byte>, mask: Mask): (bs: seq<byte>)
    ensures |bs| == 6 + ExtraBytes(Shortest(|payload|)) + |payload|
  {
    [0x80 | opcode] + LengthField(Shortest(|payload|), |payload|, 0x80) + mask + Masked(payload, mask)
  }

  /** Section 5.2 as the receiving end reads it: a client's frame is masked and may use any length form. */
  function DecodeMasked(input: seq<byte>): (r: Option<(Frame, nat)>)
    ensures r.Some? ==> 2 <= r.value.1 <= |input|
  {
    if |input| < 2 || input[0] & 0x70 != 0 || input[1] & 0x80 == 0 then None
    else
      var header := 2 + ExtraBytes(FormOf(input[1]));
      if |input| < header + 4 then None
      else
        var length := LengthOf(input[1], input[2..header]);
        if length > MAX_INT64 || |input| < header + 4 + length then None
        else
          var mask: Mask := input[header..header + 4];
          var body := input[header + 4..header + 4 + length];
          Some((Frame(input[0] & 0x80 != 0, input[0] & 0x0f, Masked(body, mask)), header + 4 + length))
  }

  lemma OpcodeFitsExactlyWhen(opcode: byte)
    ensures (0x80 | opcode) & 0x70 == 0 && (0x80 | opcode) & 0x0f == opcode <==> opcode < 16
    ensures (0x80 | opcode) & 0x80 != 0
  {
  }

  /**
   The receiving end recovers the final flag, the opcode and the payload of a written frame, whatever the mask and
   whatever follows, exactly when the opcode fits its four bits.
   */
  lemma DecodeOfEncodeMasked(opcode: byte, payload: seq<byte>, mask: Mask, rest: seq<byte>)
    requires |payload| <= MAX_INT64
    ensures var bs := EncodeMasked(opcode, payload, mask);
      DecodeMasked(bs + rest) == Some((Frame(true, opcode, payload), |bs|)) <==> opcode < 16
  {
    var field := LengthField(Shortest(|payload|), |payload|, 0x80);
    var masked := Masked(payload, mask);
    var bs := EncodeMasked(opcode, payload, mask);
    MaskAndBody(0x80 | opcode, field, mask, masked, rest);
    OpcodeFitsExactlyWhen(opcode);
    LengthFieldReadsBack(Shortest(|payload|), |payload|, 0x80);
    MaskingIsInvolutive(payload, mask);
  }

  lemma MaskAndBody(first: byte, field: seq<byte>, mask: Mask, masked: seq<byte>, rest: seq<byte>)
    requires |field| >= 1
    ensures var input := [first] + field + mask + masked + rest;
      var header := 1 + |field|;
      && input[0] == first && input[1] == field[0]
      && input[2..header] == field[1..]
      && input[header..header + 4] == mask
      && input[header + 4..header + 4 + |masked|] == masked
  {
    var head := [first] + field;
    var input := [first] + field + mask + masked + rest;
    Regroup(head + mask, masked, rest);
    HeaderAndPayload(first, field, mask, masked + rest);
    Parts(masked, rest);
    SliceTwice(input, |head| + 4, |masked|);
  }
}
