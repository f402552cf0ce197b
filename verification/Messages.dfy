/**
 Messages over frames: what one `ReadMessage` and one `writeFrame` call mean, and which byte streams carry which
 messages. The underlying connection is a byte stream whose writes succeed or fail as the environment pleases.
 */
module Messages {
  import opened Wrappers
  import opened Bytes
  import opened Frames
  import opened Sequences

  /** What the environment does to one frame write: the random source, the deadline calls and the socket. */
  datatype Fate =
    | NoRandomness
    | DeadlineRefused(mask: Mask)
    | Broken(mask: Mask, sent: nat)
    | Sent(mask: Mask)
    | SentDeadlineStuck(mask: Mask)

  /** The outgoing half of a connection; one with no fates left is closed, and refuses even a deadline. */
  datatype Sink = Sink(wire: seq<byte>, fates: seq<Fate>)

  datatype WriteOutcome = WriteOutcome(error: Option<WriteError>, sink: Sink)

  /** The meaning of one `writeFrame` call. */
  function Write(sink: Sink, opcode: byte, payload: seq<byte>, maxMessage: int): WriteOutcome {
    if opcode >= 0x8 && |payload| > 125 then WriteOutcome(Some(ControlTooLarge), sink)
    else if |payload| > maxMessage then WriteOutcome(Some(TooLarge), sink)
    else if |sink.fates| == 0 then WriteOutcome(Some(NoDeadline), sink)
    else if sink.fates[0].NoRandomness? then WriteOutcome(Some(NoEntropy), sink.(fates := sink.fates[1..]))
    else
      var bytes := EncodeMasked(opcode, payload, sink.fates[0].mask);
      var rest := sink.fates[1..];
      match sink.fates[0]
      case DeadlineRefused(_) => WriteOutcome(Some(NoDeadline), Sink(sink.wire, rest))
      case Broken(_, sent) =>
        WriteOutcome(Some(BrokenPipe), Sink(sink.wire + bytes[..if sent < |bytes| then sent else |bytes|], rest))
      case Sent(_) => WriteOutcome(None, Sink(sink.wire + bytes, rest))
      case SentDeadlineStuck(_) => WriteOutcome(Some(NoDeadline), Sink(sink.wire + bytes, rest))
  }

  /** What a frame does to a message under assembly. */
  datatype Reaction =
    | Assemble(messageOpcode: byte, message: seq<byte>)
    | Deliver(text: seq<byte>)
    | Answer(payload: seq<byte>)
    | Fail(error: ReadError)

  function React(messageOpcode: byte, message: seq<byte>, frame: Frame, maxMessage: int): Reaction {
    if frame.opcode == CONTINUATION then
      if messageOpcode == 0 then Fail(UnexpectedContinuation)
      else if |message| + |frame.payload| > maxMessage then Fail(MessageTooLong)
      else if !frame.fin then Assemble(messageOpcode, message + frame.payload)
      else if messageOpcode != TEXT then Fail(LateNotText)
      else Deliver(message + frame.payload)
    else if frame.opcode == TEXT then
      if messageOpcode != 0 then Fail(InterruptedMessage)
      else if frame.fin then Deliver(frame.payload)
      else Assemble(TEXT, message + frame.payload)
    else if frame.opcode == BINARY then Fail(NotText)
    else if frame.opcode == CLOSE then Fail(ClosedByPeer)
    else if frame.opcode == PING then Answer(frame.payload)
    else if frame.opcode == PONG then Assemble(messageOpcode, message)
    else Fail(UnsupportedOpcode(frame.opcode))
  }

  datatype ReadOutcome = ReadOutcome(result: Result<seq<byte>, ReadError>, input: seq<byte>, sink: Sink)

  /** The meaning of `ReadMessage` from any point of its loop: the result, the unread bytes, the pongs written. */
  function Read(input: seq<byte>, sink: Sink, messageOpcode: byte, message: seq<byte>, maxMessage: int): ReadOutcome
    decreases |input|, 0
  {
    match ParseFrame(input, maxMessage)
    case Rejected(error, used) => ReadOutcome(Err(error), input[used..], sink)
    case Parsed(frame, used) => Proceed(frame, input[used..], sink, messageOpcode, message, maxMessage)
  }

  /** The rest of the loop once a frame has been read. */
  function Proceed(frame: Frame, rest: seq<byte>, sink: Sink, messageOpcode: byte, message: seq<byte>,
                   maxMessage: int): ReadOutcome
    decreases |rest|, 1
  {
    match React(messageOpcode, message, frame, maxMessage)
    case Assemble(opcode, text) => Read(rest, sink, opcode, text, maxMessage)
    case Deliver(text) => ReadOutcome(Ok(text), rest, sink)
    case Fail(error) => ReadOutcome(Err(error), rest, sink)
    case Answer(payload) =>
      var w := Write(sink, PONG, payload, maxMessage);
      if w.error.Some? then ReadOutcome(Err(PongFailed(w.error.value)), rest, w.sink)
      else Read(rest, w.sink, messageOpcode, message, maxMessage)
  }

  function ReadMessage(input: seq<byte>, sink: Sink, maxMessage: int): ReadOutcome {
    Read(input, sink, 0, [], maxMessage)
  }

  // ---------------------------------------------------------------------------------------------
  // Which frames make up which message (section 5.4)
  // ---------------------------------------------------------------------------------------------

  function Data(frames: seq<Frame>): seq<Frame> {
    if |frames| == 0 then []
    else (if IsControl(frames[0].opcode) then [] else [frames[0]]) + Data(frames[1..])
  }

  function Joined(frames: seq<Frame>): seq<byte> {
    if |frames| == 0 then [] else frames[0].payload + Joined(frames[1..])
  }

  function Pings(frames: seq<Frame>): seq<seq<byte>> {
    if |frames| == 0 then []
    else (if frames[0].opcode == PING then [frames[0].payload] else []) + Pings(frames[1..])
  }

  /**
   The data frames are one fragmented message: the first has the given opcode, the others continue it, and exactly
   the last one is final.
   */
  predicate Fragments(data: seq<Frame>, opcode: byte) {
    && |data| > 0
    && data[0].opcode == opcode
    && (forall i :: 1 <= i < |data| ==> data[i].opcode == CONTINUATION)
    && (forall i :: 0 <= i < |data| ==> (data[i].fin <==> i == |data| - 1))
  }

  predicate OnlyPingsAndPongs(frames: seq<Frame>) {
    forall i :: 0 <= i < |frames| && IsControl(frames[i].opcode) ==>
      frames[i].opcode == PING || frames[i].opcode == PONG
  }

  predicate EndsInData(frames: seq<Frame>) {
    |frames| > 0 && !IsControl(frames[|frames| - 1].opcode)
  }

  /** The frames finish the text whose first part has been collected already; nothing collected means a new message. */
  predicate Completes(frames: seq<Frame>, started: bool, collected: seq<byte>, text: seq<byte>, maxMessage: int) {
    && EndsInData(frames)
    && OnlyPingsAndPongs(frames)
    && Fragments(Data(frames), if started then CONTINUATION else TEXT)
    && text == collected + Joined(Data(frames))
    && |text| <= maxMessage
  }

  /** The frames are one text message of the given contents, with any pings and pongs among its fragments. */
  predicate TextMessage(frames: seq<Frame>, text: seq<byte>, maxMessage: int) {
    Completes(frames, false, [], text, maxMessage)
  }

  lemma CompletesAfterControl(frames: seq<Frame>, started: bool, collected: seq<byte>, text: seq<byte>, maxMessage: int)
    requires |frames| > 0 && (frames[0].opcode == PING || frames[0].opcode == PONG)
    ensures Completes(frames, started, collected, text, maxMessage)
      <==> Completes(frames[1..], started, collected, text, maxMessage)
  {
    assert Data(frames) == Data(frames[1..]);
    assert frames == [frames[0]] + frames[1..];
  }

  lemma CompletesByFinal(frames: seq<Frame>, started: bool, collected: seq<byte>, text: seq<byte>, maxMessage: int)
    requires |frames| > 0 && !IsControl(frames[0].opcode) && frames[0].fin
    ensures Completes(frames, started, collected, text, maxMessage)
      <==> (|frames| == 1 && frames[0].opcode == (if started then CONTINUATION else TEXT)
            && text == collected + frames[0].payload && |text| <= maxMessage)
  {
    var data := Data(frames);
    assert data == [frames[0]] + Data(frames[1..]);
    if |frames| == 1 {
      assert Joined(data) == frames[0].payload + Joined(data[1..]) == frames[0].payload;
    } else if EndsInData(frames) {
      LastIsData(frames[1..]);
      assert !data[0].fin ==> false;
    }
  }

  lemma {:induction false} LastIsData(frames: seq<Frame>)
    requires EndsInData(frames)
    ensures |Data(frames)| > 0
  {
    if |frames| > 1 {
      LastIsData(frames[1..]);
    }
  }

  lemma CompletesByFragment(frames: seq<Frame>, started: bool, collected: seq<byte>, text: seq<byte>, maxMessage: int)
    requires |frames| > 0 && !IsControl(frames[0].opcode) && !frames[0].fin
    ensures Completes(frames, started, collected, text, maxMessage)
      <==> (frames[0].opcode == (if started then CONTINUATION else TEXT)
            && Completes(frames[1..], true, collected + frames[0].payload, text, maxMessage))
  {
    var data, rest := Data(frames), Data(frames[1..]);
    assert data == [frames[0]] + rest;
    assert Joined(data) == frames[0].payload + Joined(rest) by { assert data[1..] == rest; }
    assert collected + (frames[0].payload + Joined(rest)) == (collected + frames[0].payload) + Joined(rest);
    if Fragments(data, frames[0].opcode) {
      assert rest != [];
      assert forall i :: 0 <= i < |rest| ==> rest[i] == data[i + 1];
    }
    if Fragments(rest, CONTINUATION) {
      assert forall i :: 1 <= i < |data| ==> data[i] == rest[i - 1];
    }
    if |frames| == 1 {
      assert data == [frames[0]];
    } else {
      assert frames[|frames| - 1] == frames[1..][|frames| - 2];
    }
    assert frames == [frames[0]] + frames[1..];
  }

  // ---------------------------------------------------------------------------------------------
  // Reading what was sent
  // ---------------------------------------------------------------------------------------------

  function FramesOf(ss: seq<Spelling>): (fs: seq<Frame>)
    ensures |fs| == |ss|
  {
    seq(|ss|, i requires 0 <= i < |ss| => ss[i].frame)
  }

  /** The environment lets the next `n` frame writes through. */
  predicate LetsThrough(fates: seq<Fate>, n: nat) {
    n <= |fates| && forall i :: 0 <= i < n ==> fates[i].Sent?
  }

  /** One pong for each ping, with the same payload and in the same order. */
  function PongWire(pings: seq<seq<byte>>, fates: seq<Fate>): seq<byte>
    requires LetsThrough(fates, |pings|)
  {
    if |pings| == 0 then [] else EncodeMasked(PONG, pings[0], fates[0].mask) + PongWire(pings[1..], fates[1..])
  }

  /**
   The frames `ss` stand between the stream before and the stream after: they finish the text, their pings can be
   answered, and exactly those answers have been written.
   */
  predicate Explains(ss: seq<Spelling>, input: seq<byte>, sink: Sink, started: bool, collected: seq<byte>,
                     text: seq<byte>, rest: seq<byte>, after: Sink, maxMessage: int)
  {
    && AllLegal(ss, maxMessage)
    && Completes(FramesOf(ss), started, collected, text, maxMessage)
    && input == EncodeAll(ss) + rest
    && var pings := Pings(FramesOf(ss));
      && LetsThrough(sink.fates, |pings|)
      && after == Sink(sink.wire + PongWire(pings, sink.fates), sink.fates[|pings|..])
  }

  /**
   The loop variables of `ReadMessage` as it uses them: an opcode of 0 with nothing collected, or a text under way.
   */
  predicate Assembling(messageOpcode: byte, message: seq<byte>) {
    messageOpcode == TEXT || (messageOpcode == 0 && message == [])
  }

  lemma PrependSpelling(s: Spelling, more: seq<Spelling>, maxMessage: int)
    ensures FramesOf([s] + more) == [s.frame] + FramesOf(more)
    ensures AllLegal([s] + more, maxMessage) <==> Legal(s, maxMessage) && AllLegal(more, maxMessage)
    ensures EncodeAll([s] + more) == Encode(s) + EncodeAll(more)
  {
    DropsRest(s, more);
    FramesOfFirst(s, more);
    AllLegalOfFirst(s, more, maxMessage);
  }

  lemma FramesOfFirst(s: Spelling, more: seq<Spelling>)
    ensures FramesOf([s] + more) == [s.frame] + FramesOf(more)
  {
  }

  lemma AllLegalOfFirst(s: Spelling, more: seq<Spelling>, maxMessage: int)
    ensures AllLegal([s] + more, maxMessage) <==> Legal(s, maxMessage) && AllLegal(more, maxMessage)
  {
    var ss := [s] + more;
    assert forall i :: 0 <= i < |more| ==> more[i] == ss[i + 1];
    assert ss[0] == s && forall i :: 1 <= i < |ss| ==> ss[i] == more[i - 1];
  }

  lemma ExplainsAfterPong(s: Spelling, more: seq<Spelling>, tail: seq<byte>, sink: Sink, started: bool,
                          collected: seq<byte>,
                          text: seq<byte>, rest: seq<byte>, after: Sink, maxMessage: int)
    requires Legal(s, maxMessage) && s.frame.opcode == PONG
    ensures Explains([s] + more, Encode(s) + tail, sink, started, collected, text, rest, after, maxMessage)
      <==> Explains(more, tail, sink, started, collected, text, rest, after, maxMessage)
  {
    PrependSpelling(s, more, maxMessage);
    CancelPrefix(Encode(s), tail, EncodeAll(more), rest);
    var frames := [s.frame] + FramesOf(more);
    assert frames[1..] == FramesOf(more);
    CompletesAfterControl(frames, started, collected, text, maxMessage);
    assert Pings(frames) == Pings(FramesOf(more));
  }

  lemma ExplainsAfterPing(s: Spelling, more: seq<Spelling>, tail: seq<byte>, sink: Sink, started: bool,
                          collected: seq<byte>,
                          text: seq<byte>, rest: seq<byte>, after: Sink, maxMessage: int)
    requires Legal(s, maxMessage) && s.frame.opcode == PING
    ensures Explains([s] + more, Encode(s) + tail, sink, started, collected, text, rest, after, maxMessage)
      <==> (LetsThrough(sink.fates, 1)
            && Explains(more, tail, Write(sink, PONG, s.frame.payload, maxMessage).sink, started, collected, text, rest,
                        after, maxMessage))
  {
    PrependSpelling(s, more, maxMessage);
    CancelPrefix(Encode(s), tail, EncodeAll(more), rest);
    var frames := [s.frame] + FramesOf(more);
    assert frames[1..] == FramesOf(more);
    CompletesAfterControl(frames, started, collected, text, maxMessage);
    PongFirst(s.frame.payload, Pings(FramesOf(more)), sink);
    assert Pings(frames) == [s.frame.payload] + Pings(FramesOf(more));
  }

  lemma PongFirst(payload: seq<byte>, pings: seq<seq<byte>>, sink: Sink)
    ensures LetsThrough(sink.fates, 1 + |pings|)
            <==> LetsThrough(sink.fates, 1) && LetsThrough(sink.fates[1..], |pings|)
    ensures LetsThrough(sink.fates, 1 + |pings|) ==>
      && sink.wire + PongWire([payload] + pings, sink.fates)
         == (sink.wire + EncodeMasked(PONG, payload, sink.fates[0].mask)) + PongWire(pings, sink.fates[1..])
      && sink.fates[1 + |pings|..] == sink.fates[1..][|pings|..]
  {
    LetsThroughFirst(sink.fates, |pings|);
    if LetsThrough(sink.fates, 1 + |pings|) {
      PongWireFirst(payload, pings, sink.fates);
      Regroup(sink.wire, EncodeMasked(PONG, payload, sink.fates[0].mask), PongWire(pings, sink.fates[1..]));
    }
  }

  lemma PongWireFirst(payload: seq<byte>, pings: seq<seq<byte>>, fates: seq<Fate>)
    requires LetsThrough(fates, 1 + |pings|) && LetsThrough(fates[1..], |pings|)
    ensures PongWire([payload] + pings, fates)
      == EncodeMasked(PONG, payload, fates[0].mask) + PongWire(pings, fates[1..])
  {
    assert ([payload] + pings)[1..] == pings;
  }

  lemma LetsThroughFirst(fates: seq<Fate>, n: nat)
    ensures LetsThrough(fates, 1 + n) <==> LetsThrough(fates, 1) && LetsThrough(fates[1..], n)
  {
    if LetsThrough(fates, 1) && LetsThrough(fates[1..], n) {
      assert forall i :: 1 <= i < 1 + n ==> fates[i] == fates[1..][i - 1];
    }
  }

  lemma ExplainsAfterFinal(s: Spelling, more: seq<Spelling>, tail: seq<byte>, sink: Sink, started: bool,
                           collected: seq<byte>,
                           text: seq<byte>, rest: seq<byte>, after: Sink, maxMessage: int)
    requires Legal(s, maxMessage) && !IsControl(s.frame.opcode) && s.frame.fin
    ensures Explains([s] + more, Encode(s) + tail, sink, started, collected, text, rest, after, maxMessage)
      <==> (more == [] && s.frame.opcode == (if started then CONTINUATION else TEXT)
            && text == collected + s.frame.payload && |text| <= maxMessage && tail == rest && after == sink)
  {
    PrependSpelling(s, more, maxMessage);
    CancelPrefix(Encode(s), tail, EncodeAll(more), rest);
    var frames := [s.frame] + FramesOf(more);
    CompletesByFinal(frames, started, collected, text, maxMessage);
    assert |frames| == 1 ==> Pings(frames) == [];
    assert sink == Sink(sink.wire + [], sink.fates[0..]);
  }

  lemma ExplainsAfterFragment(s: Spelling, more: seq<Spelling>, tail: seq<byte>, sink: Sink, started: bool,
                              collected: seq<byte>,
                              text: seq<byte>, rest: seq<byte>, after: Sink, maxMessage: int)
    requires Legal(s, maxMessage) && !IsControl(s.frame.opcode) && !s.frame.fin
    ensures Explains([s] + more, Encode(s) + tail, sink, started, collected, text, rest, after, maxMessage)
      <==> (s.frame.opcode == (if started then CONTINUATION else TEXT)
            && Explains(more, tail, sink, true, collected + s.frame.payload, text, rest, after, maxMessage))
  {
    PrependSpelling(s, more, maxMessage);
    CancelPrefix(Encode(s), tail, EncodeAll(more), rest);
    var frames := [s.frame] + FramesOf(more);
    assert frames[1..] == FramesOf(more);
    CompletesByFragment(frames, started, collected, text, maxMessage);
    assert Pings(frames) == Pings(FramesOf(more));
  }

  lemma CancelPrefix(prefix: seq<byte>, tail: seq<byte>, body: seq<byte>, rest: seq<byte>)
    ensures prefix + tail == (prefix + body) + rest <==> tail == body + rest
  {
    assert (prefix + body) + rest == prefix + (body + rest);
    assert (prefix + tail)[|prefix|..] == tail;
    assert (prefix + (body + rest))[|prefix|..] == body + rest;
  }

  /** One turn of the loop on a stream that starts with a legal frame. */
  lemma ReadOfEncode(s: Spelling, tail: seq<byte>, sink: Sink, messageOpcode: byte, message: seq<byte>, maxMessage: int)
    requires Legal(s, maxMessage)
    ensures Read(Encode(s) + tail, sink, messageOpcode, message, maxMessage)
         == Proceed(s.frame, tail, sink, messageOpcode, message, maxMessage)
  {
    ParseOfEncode(s, tail, maxMessage);
    assert (Encode(s) + tail)[|Encode(s)|..] == tail;
  }

  lemma ReadTurnsOnControl(s: Spelling, tail: seq<byte>, sink: Sink, messageOpcode: byte, message: seq<byte>,
                           maxMessage: int)
    requires Legal(s, maxMessage)
    requires s.frame.opcode == PONG || (s.frame.opcode == PING && LetsThrough(sink.fates, 1))
    ensures Read(Encode(s) + tail, sink, messageOpcode, message, maxMessage)
      == Read(tail, if s.frame.opcode == PONG then sink else Write(sink, PONG, s.frame.payload, maxMessage).sink,
              messageOpcode, message, maxMessage)
  {
    ReadOfEncode(s, tail, sink, messageOpcode, message, maxMessage);
  }

  lemma ReadTurnsOnData(s: Spelling, tail: seq<byte>, sink: Sink, messageOpcode: byte, message: seq<byte>,
                        maxMessage: int)
    requires Legal(s, maxMessage) && Assembling(messageOpcode, message)
    requires s.frame.opcode == (if messageOpcode == TEXT then CONTINUATION else TEXT)
    requires |message| + |s.frame.payload| <= maxMessage
    ensures Read(Encode(s) + tail, sink, messageOpcode, message, maxMessage)
      == if s.frame.fin then ReadOutcome(Ok(message + s.frame.payload), tail, sink)
         else Read(tail, sink, TEXT, message + s.frame.payload, maxMessage)
  {
    ReadOfEncode(s, tail, sink, messageOpcode, message, maxMessage);
    assert [] + s.frame.payload == s.frame.payload;
  }

  lemma ExplainedHead(ss: seq<Spelling>, input: seq<byte>, sink: Sink, started: bool, collected: seq<byte>,
                      text: seq<byte>, rest: seq<byte>, after: Sink, maxMessage: int)
    requires Explains(ss, input, sink, started, collected, text, rest, after, maxMessage)
    ensures |ss| > 0 && ss == [ss[0]] + ss[1..] && Legal(ss[0], maxMessage)
    ensures input == Encode(ss[0]) + (EncodeAll(ss[1..]) + rest)
    ensures IsControl(ss[0].frame.opcode) ==> ss[0].frame.opcode == PING || ss[0].frame.opcode == PONG
  {
    assert FramesOf(ss)[0] == ss[0].frame;
    Regroup(Encode(ss[0]), EncodeAll(ss[1..]), rest);
  }

  /** A stream explained by some frames is read as they say. */
  lemma {:induction false} ReadExplained(ss: seq<Spelling>, input: seq<byte>, sink: Sink, messageOpcode: byte,
                                         message: seq<byte>,
                                         text: seq<byte>, rest: seq<byte>, after: Sink, maxMessage: int)
    requires Assembling(messageOpcode, message)
    requires Explains(ss, input, sink, messageOpcode == TEXT, message, text, rest, after, maxMessage)
    ensures Read(input, sink, messageOpcode, message, maxMessage) == ReadOutcome(Ok(text), rest, after)
    decreases |ss|
  {
    ExplainedHead(ss, input, sink, messageOpcode == TEXT, message, text, rest, after, maxMessage);
    var s, more, started := ss[0], ss[1..], messageOpcode == TEXT;
    var tail := EncodeAll(more) + rest;
    if s.frame.opcode == PING {
      ExplainsAfterPing(s, more, tail, sink, started, message, text, rest, after, maxMessage);
      ReadTurnsOnControl(s, tail, sink, messageOpcode, message, maxMessage);
      ReadExplained(more, tail, Write(sink, PONG, s.frame.payload, maxMessage).sink, messageOpcode, message, text, rest,
                    after, maxMessage);
    } else if IsControl(s.frame.opcode) {
      ExplainsAfterPong(s, more, tail, sink, started, message, text, rest, after, maxMessage);
      ReadTurnsOnControl(s, tail, sink, messageOpcode, message, maxMessage);
      ReadExplained(more, tail, sink, messageOpcode, message, text, rest, after, maxMessage);
    } else if s.frame.fin {
      ExplainsAfterFinal(s, more, tail, sink, started, message, text, rest, after, maxMessage);
      ReadTurnsOnData(s, tail, sink, messageOpcode, message, maxMessage);
    } else {
      ExplainsAfterFragment(s, more, tail, sink, started, message, text, rest, after, maxMessage);
      assert |message + s.frame.payload| <= |text|;
      ReadTurnsOnData(s, tail, sink, messageOpcode, message, maxMessage);
      ReadExplained(more, tail, sink, TEXT, message + s.frame.payload, text, rest, after, maxMessage);
    }
  }

  /**
   A read that will succeed finds a legal frame first: a ping it can answer, a pong, or the data frame that is due.
   */
  lemma ReadStartsLegal(input: seq<byte>, sink: Sink, messageOpcode: byte, message: seq<byte>,
                        maxMessage: int) returns (s: Spelling)
    requires Assembling(messageOpcode, message)
    requires message == [] || |message| <= maxMessage
    requires Read(input, sink, messageOpcode, message, maxMessage).result.Ok?
    ensures Legal(s, maxMessage) && Encode(s) <= input
    ensures input == Encode(s) + input[|Encode(s)|..]
    ensures IsControl(s.frame.opcode) ==>
      s.frame.opcode == PONG || (s.frame.opcode == PING && LetsThrough(sink.fates, 1))
    ensures !IsControl(s.frame.opcode) ==>
      && s.frame.opcode == (if messageOpcode == TEXT then CONTINUATION else TEXT)
      && |message| + |s.frame.payload| <= maxMessage
  {
    var r := ParseFrame(input, maxMessage);
    s := Spelling(r.frame, FormOf(input[1]));
    EncodeOfParse(input, maxMessage);
  }

  /** Whatever is read successfully is explained by the frames the stream began with. */
  lemma {:induction false} ReadIsExplained(input: seq<byte>, sink: Sink, messageOpcode: byte, message: seq<byte>,
                                           maxMessage: int)
      returns (ss: seq<Spelling>)
    requires Assembling(messageOpcode, message)
    requires message == [] || |message| <= maxMessage
    requires Read(input, sink, messageOpcode, message, maxMessage).result.Ok?
    ensures var out := Read(input, sink, messageOpcode, message, maxMessage);
      Explains(ss, input, sink, messageOpcode == TEXT, message, out.result.value, out.input, out.sink, maxMessage)
    decreases |input|
  {
    var out := Read(input, sink, messageOpcode, message, maxMessage);
    var text, rest, after, started := out.result.value, out.input, out.sink, messageOpcode == TEXT;
    var s := ReadStartsLegal(input, sink, messageOpcode, message, maxMessage);
    var tail := input[|Encode(s)|..];
    if IsControl(s.frame.opcode) {
      ReadTurnsOnControl(s, tail, sink, messageOpcode, message, maxMessage);
      if s.frame.opcode == PING {
        var answered := Write(sink, PONG, s.frame.payload, maxMessage).sink;
        var more := ReadIsExplained(tail, answered, messageOpcode, message, maxMessage);
        ExplainsAfterPing(s, more, tail, sink, started, message, text, rest, after, maxMessage);
        ss := [s] + more;
      } else {
        var more := ReadIsExplained(tail, sink, messageOpcode, message, maxMessage);
        ExplainsAfterPong(s, more, tail, sink, started, message, text, rest, after, maxMessage);
        ss := [s] + more;
      }
    } else {
      ReadTurnsOnData(s, tail, sink, messageOpcode, message, maxMessage);
      if s.frame.fin {
        ExplainsAfterFinal(s, [], tail, sink, started, message, text, rest, after, maxMessage);
        ss := [s] + [];
      } else {
        var more := ReadIsExplained(tail, sink, TEXT, message + s.frame.payload, maxMessage);
        ExplainsAfterFragment(s, more, tail, sink, started, message, text, rest, after, maxMessage);
        ss := [s] + more;
      }
    }
  }
}
