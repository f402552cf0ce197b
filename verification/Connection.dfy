/**
 The WebSocket connection object. Its unread input is a byte stream, its output the bytes put on the wire, and the
 environment decides, write by write, what the random source and the socket do. `writeMu` is the subject of module
 Wire; here each call runs alone.
 */
module Connection {
  import opened Wrappers
  import opened Bytes
  import opened Frames
  import opened Messages
  import opened FrameWrites
  import opened Sequences

  newtype int64 = x: int | -MAX_INT64 - 1 <= x <= MAX_INT64

  /** Below this bound the sum of two accepted lengths is still an `int64`. */
  const LENGTH_BOUND: int := 0x4000_0000_0000_0000

  /** The sum that `ReadMessage` computes is safe for every pair of accepted lengths exactly below the bound. */
  lemma SumFitsExactlyWhen(maxMessage: int)
    requires 0 <= maxMessage <= MAX_INT64
    ensures maxMessage < LENGTH_BOUND <==>
      forall a: int, b: int :: 0 <= a <= maxMessage && 0 <= b <= maxMessage ==> Sum(a, b) <= MAX_INT64
  {
    assert Sum(maxMessage, maxMessage) <= MAX_INT64 <==> maxMessage < LENGTH_BOUND;
  }

  function Sum(a: int, b: int): int {
    a + b
  }

  /** What `readFrame` returns and what it leaves of the stream. */
  ghost function AfterFrame(input: seq<byte>, maxMessage: int): (Result<Frame, ReadError>, seq<byte>) {
    match ParseFrame(input, maxMessage)
    case Parsed(frame, used) => (Ok(frame), input[used..])
    case Rejected(error, used) => (Err(error), input[used..])
  }

  /** The same from behind the length field on. */
  ghost function AfterLength(final: bool, opcode: byte, length: nat, input: seq<byte>, maxMessage: int)
      : (Result<Frame, ReadError>, seq<byte>) {
    if length > MAX_INT64 then (Err(LengthOverflow), input)
    else if IsControl(opcode) && (!final || length > 125) then (Err(InvalidControlFrame), input)
    else if length > maxMessage then (Err(MessageTooLong), input)
    else if |input| < length then (Err(EndOfStream), [])
    else (Ok(Frame(final, opcode, input[..length])), input[length..])
  }

  /** The same, with the header still in front of the stream. */
  ghost function AfterHeader(final: bool, opcode: byte, length: nat, input: seq<byte>, header: nat, maxMessage: int)
      : (Result<Frame, ReadError>, seq<byte>)
    requires header <= |input|
  {
    if length > MAX_INT64 then (Err(LengthOverflow), input[header..])
    else if IsControl(opcode) && (!final || length > 125) then (Err(InvalidControlFrame), input[header..])
    else if length > maxMessage then (Err(MessageTooLong), input[header..])
    else if |input| < header + length then (Err(EndOfStream), input[|input|..])
    else (Ok(Frame(final, opcode, input[header..header + length])), input[header + length..])
  }

  lemma AfterHeaderByParts(final: bool, opcode: byte, length: nat, input: seq<byte>, header: nat, maxMessage: int)
    requires header <= |input|
    ensures AfterHeader(final, opcode, length, input, header, maxMessage)
            == AfterLength(final, opcode, length, input[header..], maxMessage)
  {
    if header + length <= |input| {
      SliceTwice(input, header, length);
    } else {
      assert input[|input|..] == [];
    }
  }

  lemma FrameByHeader(input: seq<byte>, maxMessage: int)
    requires |input| >= 2 && input[0] & 0x70 == 0 && input[1] & 0x80 == 0
    ensures var header := 2 + ExtraBytes(FormOf(input[1]));
      AfterFrame(input, maxMessage)
      == if |input| < header then (Err(EndOfStream), input[|input|..])
         else AfterHeader(input[0] & 0x80 != 0, input[0] & 0x0f, LengthOf(input[1], input[2..header]), input, header,
                          maxMessage)
  {
  }

  /** One frame is read in three parts: two bytes, the rest of its length field, its payload. */
  lemma AfterFrameByParts(input: seq<byte>, maxMessage: int)
    requires |input| >= 2 && input[0] & 0x70 == 0 && input[1] & 0x80 == 0
    ensures var extra, tail := ExtraBytes(FormOf(input[1])), input[2..];
      AfterFrame(input, maxMessage)
      == if |tail| < extra then (Err(EndOfStream), [])
         else AfterLength(input[0] & 0x80 != 0, input[0] & 0x0f, LengthOf(input[1], tail[..extra]), tail[extra..],
                          maxMessage)
  {
    var extra := ExtraBytes(FormOf(input[1]));
    FrameByHeader(input, maxMessage);
    if |input| < 2 + extra {
      assert input[|input|..] == [];
    } else {
      SliceTwice(input, 2, extra);
      AfterHeaderByParts(input[0] & 0x80 != 0, input[0] & 0x0f, LengthOf(input[1], input[2..2 + extra]), input,
                         2 + extra, maxMessage);
    }
  }

  lemma SevenBits(low: byte)
    requires low <= 127
    ensures 0 <= low as int <= 127 && (low == 126 <==> low as int == 126) && (low == 127 <==> low as int == 127)
  {
    IntOfByte(low);
  }

  /** What has come onto the wire decodes, at the other end, to one frame with this opcode and payload. */
  predicate Delivers(before: seq<byte>, after: seq<byte>, opcode: byte, payload: seq<byte>) {
    && before <= after
    && DecodeMasked(after[|before|..]) == Some((Frame(true, opcode, payload), |after| - |before|))
  }

  lemma WrittenIsDelivered(sink: Sink, opcode: byte, payload: seq<byte>, maxMessage: int)
    requires opcode < 16 && maxMessage <= MAX_INT64
    ensures var w := Write(sink, opcode, payload, maxMessage);
      && (w.error.None? ==> Delivers(sink.wire, w.sink.wire, opcode, payload))
      && (IsSized(opcode, payload, maxMessage) && |sink.fates| > 0 && sink.fates[0].Sent? ==> w.error.None?)
  {
    var _ := WriteExactly(sink, opcode, payload, maxMessage);
  }

  lemma PayloadsMean()
    ensures |KEEPALIVE| == |"edukod"| && forall i :: 0 <= i < |KEEPALIVE| ==> KEEPALIVE[i] as int == "edukod"[i] as int
    ensures Value(NORMAL_CLOSURE) == 1000
  {
    BytesMean();
    assert Value([0x03, 0xE8]) == Value([0x03]) * 256 + 0xE8 by {
      assert [0x03, 0xE8 as byte][..1] == [0x03];
    }
    assert Value([0x03]) == 3 by { assert [0x03 as byte][..0] == []; }
  }

  lemma BytesMean()
    ensures (0x03 as byte) as int == 3 && (0xE8 as byte) as int == 0xE8
    ensures (0x65 as byte) as int == 0x65 && (0x64 as byte) as int == 0x64 && (0x75 as byte) as int == 0x75
    ensures (0x6B as byte) as int == 0x6B && (0x6F as byte) as int == 0x6F
  {
  }

  class Conn {
    var input: seq<byte>
    var wire: seq<byte>
    var fates: seq<Fate>
    var closedOnce: bool
    const maxMessage: int64

    ghost predicate Valid() {
      0 < maxMessage as int < LENGTH_BOUND
    }

    ghost function Out(): Sink
      reads this
    {
      Sink(wire, fates)
    }

    constructor (input: seq<byte>, fates: seq<Fate>, maxMessage: int64)
      requires 0 < maxMessage as int < LENGTH_BOUND
      ensures Valid() && this.input == input && Out() == Sink([], fates) && !closedOnce && this.maxMessage == maxMessage
    {
      this.input, this.wire, this.fates := input, [], fates;
      this.closedOnce := false;
      this.maxMessage := maxMessage;
    }

    /** `io.ReadFull`: all the bytes asked for, or an error after everything there was. */
    method ReadFull(n: nat) returns (bytes: Option<seq<byte>>)
      modifies this`input
      ensures n <= |old(input)| ==> bytes == Some(old(input)[..n]) && input == old(input)[n..]
      ensures n > |old(input)| ==> bytes == None && input == []
    {
      if n <= |input| {
        bytes := Some(input[..n]);
        input := input[n..];
      } else {
        bytes := None;
        input := [];
      }
    }

    method ReadFrame() returns (r: Result<Frame, ReadError>)
      requires Valid()
      modifies this`input
      ensures (r, input) == AfterFrame(old(input), maxMessage as int)
    {
      assert input[|input|..] == [];
      var header := ReadFull(2);
      if header.None? {
        return Err(EndOfStream);
      }
      var first, second := header.value[0], header.value[1];
      if first & 0x70 != 0 {
        return Err(ExtendedFrame);
      }
      if second & 0x80 != 0 {
        return Err(MaskedFrame);
      }
      AfterFrameByParts(old(input), maxMessage as int);
      r := ReadBody(first & 0x80 != 0, first & 0x0f, second);
    }

    /** The part of `readFrame` after the two header bytes: the switch over the seven-bit length and the payload. */
    method ReadBody(final: bool, opcode: byte, second: byte) returns (r: Result<Frame, ReadError>)
      requires Valid()
      modifies this`input
      ensures var extra := ExtraBytes(FormOf(second));
        (r, input) == if |old(input)| < extra then (Err(EndOfStream), [])
                      else AfterLength(final, opcode, LengthOf(second, old(input)[..extra]), old(input)[extra..],
                                       maxMessage as int)
    {
      SevenBits(second & 0x7f);
      Capacities();
      var length: int64 := (second & 0x7f) as int as int64;
      if length == 126 {
        var extended := ReadFull(2);
        if extended.None? {
          return Err(EndOfStream);
        }
        BigEndianOfValue(extended.value);
        length := Value(extended.value) as int64;
      } else if length == 127 {
        var extended := ReadFull(8);
        if extended.None? {
          return Err(EndOfStream);
        }
        var unsignedLength := Value(extended.value);
        if unsignedLength > MAX_INT64 {
          return Err(LengthOverflow);
        }
        length := unsignedLength as int64;
      }
      if opcode >= 0x8 && (!final || length > 125) {
        return Err(InvalidControlFrame);
      }
      if length < 0 || length > maxMessage {
        return Err(MessageTooLong);
      }
      var payload := ReadFull(length as nat);
      if payload.None? {
        return Err(EndOfStream);
      }
      return Ok(Frame(final, opcode, payload.value));
    }

    method ReadMessage() returns (r: Result<seq<byte>, ReadError>)
      requires Valid()
      modifies this`input, this`wire, this`fates
      ensures Messages.ReadMessage(old(input), old(Out()), maxMessage as int) == ReadOutcome(r, input, Out())
    {
      var messageOpcode: byte, message: seq<byte> := 0, [];
      while true
        invariant |message| <= maxMessage as int && (messageOpcode == 0 ==> message == [])
        invariant Read(old(input), old(Out()), 0, [], maxMessage as int)
               == Read(input, Out(), messageOpcode, message, maxMessage as int)
        decreases |input|
      {
        var frame := ReadFrame();
        if frame.Err? {
          return Err(frame.error);
        }
        var Frame(final, opcode, payload) := frame.value;
        if opcode == 0x0 {
          if messageOpcode == 0 {
            return Err(UnexpectedContinuation);
          }
          if |message| as int64 + |payload| as int64 > maxMessage {
            return Err(MessageTooLong);
          }
          message := message + payload;
          if final {
            if messageOpcode != 0x1 {
              return Err(LateNotText);
            }
            return Ok(message);
          }
        } else if opcode == 0x1 {
          if messageOpcode != 0 {
            return Err(InterruptedMessage);
          }
          if final {
            return Ok(payload);
          }
          messageOpcode := opcode;
          message := message + payload;
        } else if opcode == 0x2 {
          return Err(NotText);
        } else if opcode == 0x8 {
          return Err(ClosedByPeer);
        } else if opcode == 0x9 {
          var failure := WriteFrame(0xA, payload);
          if failure.Some? {
            return Err(PongFailed(failure.value));
          }
        } else if opcode == 0xA {
        } else {
          return Err(UnsupportedOpcode(opcode));
        }
      }
    }

    /** The switch of `writeFrame` over the payload length. */
    static method Header(opcode: byte, length: nat) returns (header: seq<byte>)
      ensures header == [0x80 | opcode] + LengthField(Shortest(length), length, 0x80)
    {
      header := [0x80 | opcode];
      if length < 126 {
        header := header + [0x80 | Low(length)];
      } else if length <= 65535 {
        header := header + [0x80 | 126, Low(length / 256), Low(length)];
        BigEndianPair(length);
      } else {
        header := header + [0x80 | 127];
        var encodedLength := BigEndian(length, 8);
        header := header + encodedLength;
      }
    }

    /** The masking loop of `writeFrame`. */
    static method MaskPayload(payload: seq<byte>, mask: Mask) returns (maskedPayload: array<byte>)
      ensures fresh(maskedPayload) && maskedPayload[..] == Masked(payload, mask)
    {
      maskedPayload := new byte[|payload|];
      for index := 0 to |payload|
        invariant maskedPayload[..index] == Masked(payload, mask)[..index]
      {
        maskedPayload[index] := payload[index] ^ mask[index % 4];
        assert maskedPayload[..index + 1] == maskedPayload[..index] + [maskedPayload[index]];
      }
    }

    method WriteFrame(opcode: byte, payload: seq<byte>) returns (failure: Option<WriteError>)
      modifies this`wire, this`fates
      ensures Write(old(Out()), opcode, payload, maxMessage as int) == WriteOutcome(failure, Out())
      ensures opcode < 16 && failure.None? ==> Delivers(old(wire), wire, opcode, payload)
    {
      if opcode < 16 {
        WrittenIsDelivered(Out(), opcode, payload, maxMessage as int);
      }
      if opcode >= 0x8 && |payload| > 125 {
        return Some(ControlTooLarge);
      }
      if |payload| > maxMessage as int {
        return Some(TooLarge);
      }
      if |fates| == 0 {
        return Some(NoDeadline);
      }
      var fate := fates[0];
      fates := fates[1..];
      if fate.NoRandomness? {
        return Some(NoEntropy);
      }
      var mask := fate.mask;
      var header := Header(opcode, |payload|);
      header := header + mask;
      var maskedPayload := MaskPayload(payload, mask);
      var frame := header + maskedPayload[..];
      match fate {
        case DeadlineRefused(_) =>
          return Some(NoDeadline);
        case Broken(_, sent) =>
          wire := wire + frame[..if sent < |frame| then sent else |frame|];
          return Some(BrokenPipe);
        case SentDeadlineStuck(_) =>
          wire := wire + frame;
          return Some(NoDeadline);
        case Sent(_) =>
          wire := wire + frame;
          return None;
      }
    }

    method WritePing() returns (failure: Option<WriteError>)
      modifies this`wire, this`fates
      ensures Write(old(Out()), PING, KEEPALIVE, maxMessage as int) == WriteOutcome(failure, Out())
      ensures failure.None? ==> Delivers(old(wire), wire, 0x9, KEEPALIVE)
    {
      failure := WriteFrame(0x9, KEEPALIVE);
    }

    /**
     The close frame goes out at most once; after it the socket takes no more bytes and yields only those buffered.
     Whether the frame could be written is not reported, only whether the socket could be closed, and that only once.
     */
    method Close(buffered: nat, refused: bool) returns (failed: bool)
      modifies this
      ensures closedOnce
      ensures failed <==> !old(closedOnce) && refused
      ensures old(closedOnce) ==> input == old(input) && Out() == old(Out())
      ensures !old(closedOnce) ==>
        && Out() == Sink(Write(old(Out()), CLOSE, NORMAL_CLOSURE, maxMessage as int).sink.wire, [])
        && input == old(input)[..if buffered < |old(input)| then buffered else |old(input)|]
      ensures !old(closedOnce) && maxMessage >= 2 && |old(fates)| > 0 && old(fates)[0].Sent? ==>
        Delivers(old(wire), wire, 0x8, NORMAL_CLOSURE)
    {
      failed := false;
      if !closedOnce {
        closedOnce := true;
        WrittenIsDelivered(Out(), 0x8, NORMAL_CLOSURE, maxMessage as int);
        var _ := WriteFrame(0x8, NORMAL_CLOSURE);
        fates := [];
        input := input[..if buffered < |input| then buffered else |input|];
        failed := refused;
      }
    }
  }

  /** The bytes of "edukod". */
  const KEEPALIVE: seq<byte> := [0x65, 0x64, 0x75, 0x6B, 0x6F, 0x64]

  /** Status code 1000. */
  const NORMAL_CLOSURE: seq<byte> := [0x03, 0xE8]
}
