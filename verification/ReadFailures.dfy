/**
 Every way in which `ReadMessage` fails: after frames that leave a message unfinished, by what is wrong with the next
 one.
 */
module ReadFailures {
  import opened Wrappers
  import opened Bytes
  import opened Frames
  import opened Messages
  import opened Conversations
  import opened Sequences

  // ---------------------------------------------------------------------------------------------
  // One frame
  // ---------------------------------------------------------------------------------------------

  /** The two bytes that every frame begins with are there, with no extension and no mask bit. */
  predicate IsPlain(input: seq<byte>) {
    |input| >= 2 && input[0] & 0x70 == 0 && input[1] & 0x80 == 0
  }

  /** And so is the rest of the length field. */
  predicate Announces(input: seq<byte>) {
    IsPlain(input) && |input| >= 2 + ExtraBytes(FormOf(input[1]))
  }

  function Announced(input: seq<byte>): nat
    requires Announces(input)
  {
    LengthOf(input[1], input[2..2 + ExtraBytes(FormOf(input[1]))])
  }

  /** A control frame is final and announces no more than 125 bytes. */
  predicate ControlFits(input: seq<byte>)
    requires Announces(input)
  {
    IsControl(input[0] & 0x0f) ==> input[0] & 0x80 != 0 && Announced(input) <= 125
  }

  /** What is wrong with the frame that a stream starts with. */
  predicate IsRejected(input: seq<byte>, maxMessage: int, error: ReadError) {
    match error
    case ExtendedFrame => |input| >= 2 && input[0] & 0x70 != 0
    case MaskedFrame => |input| >= 2 && input[0] & 0x70 == 0 && input[1] & 0x80 != 0
    case LengthOverflow => Announces(input) && Announced(input) > MAX_INT64
    case InvalidControlFrame => Announces(input) && Announced(input) <= MAX_INT64 && !ControlFits(input)
    case MessageTooLong =>
      Announces(input) && ControlFits(input) && maxMessage < Announced(input) <= MAX_INT64
    case EndOfStream =>
      || |input| < 2
      || (IsPlain(input) && !Announces(input))
      || (Announces(input) && ControlFits(input) && Announced(input) <= maxMessage && Announced(input) <= MAX_INT64
          && |input| < 2 + ExtraBytes(FormOf(input[1])) + Announced(input))
    case _ => false
  }

  lemma RejectedExactlyWhen(input: seq<byte>, maxMessage: int, error: ReadError)
    ensures var r := ParseFrame(input, maxMessage);
      r.Rejected? && r.error == error <==> IsRejected(input, maxMessage, error)
  {
  }

  /** A legal frame that is cut short is taken for the end of the stream and for nothing else. */
  lemma CutFrameIsEndOfStream(s: Spelling, maxMessage: int, cut: nat)
    requires Legal(s, maxMessage) && cut < |Encode(s)|
    ensures IsRejected(Encode(s)[..cut], maxMessage, EndOfStream)
  {
    var bytes := Encode(s);
    var input, header := bytes[..cut], 2 + ExtraBytes(s.form);
    assert bytes + [] == bytes;
    ParseOfEncode(s, [], maxMessage);
    PartsOfParsed(bytes, maxMessage);
    if cut >= 2 {
      assert input[0] == bytes[0] && input[1] == bytes[1];
      if cut >= header {
        PrefixAndRest(input, bytes);
        SliceOfFirst(input, bytes[cut..], 2, header);
      }
    }
  }

  /** What is wrong with a legal frame at this point of a message, or with the answer to it. */
  predicate IsOutOfPlace(frame: Frame, sink: Sink, started: bool, collected: seq<byte>, maxMessage: int,
                         error: ReadError) {
    match error
    case UnexpectedContinuation => frame.opcode == CONTINUATION && !started
    case MessageTooLong => frame.opcode == CONTINUATION && started && |collected| + |frame.payload| > maxMessage
    case InterruptedMessage => frame.opcode == TEXT && started
    case NotText => frame.opcode == BINARY
    case ClosedByPeer => frame.opcode == CLOSE
    case UnsupportedOpcode(opcode) =>
      frame.opcode == opcode && opcode !in {CONTINUATION, TEXT, BINARY, CLOSE, PING, PONG}
    case PongFailed(reason) =>
      frame.opcode == PING && Write(sink, PONG, frame.payload, maxMessage).error == Some(reason)
    case _ => false
  }

  // ---------------------------------------------------------------------------------------------
  // The frames before
  // ---------------------------------------------------------------------------------------------

  predicate IsUnfinished(data: seq<Frame>) {
    && (|data| > 0 ==> data[0].opcode == TEXT)
    && (forall i :: 1 <= i < |data| ==> data[i].opcode == CONTINUATION)
    && (forall i :: 0 <= i < |data| ==> !data[i].fin)
  }

  /** Pings, pongs and the beginning of one text at most. */
  predicate Gathers(frames: seq<Frame>, maxMessage: int) {
    OnlyPingsAndPongs(frames) && IsUnfinished(Data(frames)) && |Joined(Data(frames))| <= maxMessage
  }

  function OpcodeAfter(frames: seq<Frame>): byte {
    if Data(frames) == [] then 0 else TEXT
  }

  /** Legal frames at the start of the stream that leave the message unfinished, and whose pings can be answered. */
  predicate Passes(ss: seq<Spelling>, input: seq<byte>, sink: Sink, rest: seq<byte>, maxMessage: int) {
    && AllLegal(ss, maxMessage) && input == EncodeAll(ss) + rest
    && Gathers(FramesOf(ss), maxMessage) && LetsThrough(sink.fates, |Pings(FramesOf(ss))|)
  }

  /** `ReadMessage` goes on after this frame. */
  predicate IsPassed(frame: Frame, sink: Sink, opcode: byte, collected: seq<byte>, maxMessage: int) {
    || frame.opcode == PONG
    || (frame.opcode == PING && LetsThrough(sink.fates, 1))
    || (!IsControl(frame.opcode) && !frame.fin && frame.opcode == (if opcode == TEXT then CONTINUATION else TEXT)
        && |collected| + |frame.payload| <= maxMessage)
  }

  lemma {:induction false} DataJoins(a: seq<Frame>, b: seq<Frame>)
    ensures Data(a + b) == Data(a) + Data(b)
  {
    if |a| == 0 {
      assert a + b == b;
    } else {
      var first := if IsControl(a[0].opcode) then [] else [a[0]];
      DataJoins(a[1..], b);
      FirstOfSum(a, b);
      assert (a + b)[1..] == a[1..] + b;
      Regroup(first, Data(a[1..]), Data(b));
    }
  }

  lemma {:induction false} JoinedJoins(a: seq<Frame>, b: seq<Frame>)
    ensures Joined(a + b) == Joined(a) + Joined(b)
  {
    if |a| == 0 {
      assert a + b == b;
    } else {
      JoinedJoins(a[1..], b);
      assert (a + b)[1..] == a[1..] + b;
      Regroup(a[0].payload, Joined(a[1..]), Joined(b));
    }
  }

  lemma OneFrame(f: Frame)
    ensures Data([f]) == (if IsControl(f.opcode) then [] else [f]) && Joined([f]) == f.payload
    ensures Pings([f]) == if f.opcode == PING then [f.payload] else []
  {
    assert [f][1..] == [];
  }

  lemma PartsOfMore(frames: seq<Frame>, f: Frame)
    ensures Data(frames + [f]) == Data(frames) + (if IsControl(f.opcode) then [] else [f])
    ensures Joined(Data(frames + [f])) == Joined(Data(frames)) + (if IsControl(f.opcode) then [] else f.payload)
    ensures Pings(frames + [f]) == Pings(frames) + (if f.opcode == PING then [f.payload] else [])
  {
    DataJoins(frames, [f]);
    JoinedJoins(Data(frames), Data([f]));
    PingsJoin(frames, [f]);
    OneFrame(f);
  }

  lemma UnfinishedGrows(data: seq<Frame>, f: Frame)
    ensures IsUnfinished(data + [f])
      <==> IsUnfinished(data) && !f.fin && f.opcode == (if data == [] then TEXT else CONTINUATION)
  {
    var more := data + [f];
    assert more[|data|] == f && forall i :: 0 <= i < |data| ==> more[i] == data[i];
  }

  lemma OnlyPingsGrows(frames: seq<Frame>, f: Frame)
    ensures OnlyPingsAndPongs(frames + [f])
      <==> OnlyPingsAndPongs(frames) && (IsControl(f.opcode) ==> f.opcode == PING || f.opcode == PONG)
  {
    var more := frames + [f];
    assert more[|frames|] == f && forall i :: 0 <= i < |frames| ==> more[i] == frames[i];
  }

  /** One more frame is gathered exactly when it is passed. */
  lemma GathersMore(frames: seq<Frame>, f: Frame, sink: Sink, maxMessage: int)
    requires LetsThrough(sink.fates, |Pings(frames)|)
    ensures Gathers(frames + [f], maxMessage) && LetsThrough(sink.fates, |Pings(frames + [f])|)
      <==> Gathers(frames, maxMessage)
           && IsPassed(f, Answered(sink, Pings(frames)), OpcodeAfter(frames), Joined(Data(frames)), maxMessage)
  {
    if IsControl(f.opcode) {
      GathersControl(frames, f, sink, maxMessage);
    } else {
      GathersData(frames, f, sink, maxMessage);
    }
  }

  lemma GathersControl(frames: seq<Frame>, f: Frame, sink: Sink, maxMessage: int)
    requires LetsThrough(sink.fates, |Pings(frames)|) && IsControl(f.opcode)
    ensures Gathers(frames + [f], maxMessage) && LetsThrough(sink.fates, |Pings(frames + [f])|)
      <==> Gathers(frames, maxMessage)
           && IsPassed(f, Answered(sink, Pings(frames)), OpcodeAfter(frames), Joined(Data(frames)), maxMessage)
  {
    PartsOfMore(frames, f);
    OnlyPingsGrows(frames, f);
    OneMoreAnswer(sink.fates, |Pings(frames)|);
    assert Data(frames + [f]) == Data(frames);
  }

  lemma GathersData(frames: seq<Frame>, f: Frame, sink: Sink, maxMessage: int)
    requires LetsThrough(sink.fates, |Pings(frames)|) && !IsControl(f.opcode)
    ensures Gathers(frames + [f], maxMessage) && LetsThrough(sink.fates, |Pings(frames + [f])|)
      <==> Gathers(frames, maxMessage)
           && IsPassed(f, Answered(sink, Pings(frames)), OpcodeAfter(frames), Joined(Data(frames)), maxMessage)
  {
    PartsOfMore(frames, f);
    OnlyPingsGrows(frames, f);
    UnfinishedGrows(Data(frames), f);
    assert Pings(frames + [f]) == Pings(frames);
    assert |Joined(Data(frames + [f]))| == |Joined(Data(frames))| + |f.payload|;
  }

  lemma OneMoreAnswer(fates: seq<Fate>, n: nat)
    requires LetsThrough(fates, n)
    ensures LetsThrough(fates, n + 1) <==> LetsThrough(fates[n..], 1)
  {
    if LetsThrough(fates[n..], 1) {
      assert fates[n..][0] == fates[n];
    }
  }

  // ---------------------------------------------------------------------------------------------
  // Reading on
  // ---------------------------------------------------------------------------------------------

  /** What `ReadMessage` still has to do after some frames. */
  function ReadAfter(frames: seq<Frame>, rest: seq<byte>, sink: Sink, maxMessage: int): ReadOutcome
    requires LetsThrough(sink.fates, |Pings(frames)|)
  {
    Read(rest, Answered(sink, Pings(frames)), OpcodeAfter(frames), Joined(Data(frames)), maxMessage)
  }

  lemma OneAnswer(sink: Sink, payload: seq<byte>, maxMessage: int)
    requires LetsThrough(sink.fates, 1) && |payload| <= 125 && |payload| <= maxMessage
    ensures Answered(sink, [payload]) == Write(sink, PONG, payload, maxMessage).sink
  {
    PongWireFirst(payload, [], sink.fates);
    assert [payload] + [] == [payload];
    assert EncodeMasked(PONG, payload, sink.fates[0].mask) + [] == EncodeMasked(PONG, payload, sink.fates[0].mask);
  }

  lemma PingIsPassed(frames: seq<Frame>, s: Spelling, tail: seq<byte>, sink: Sink, maxMessage: int)
    requires Legal(s, maxMessage) && s.frame.opcode == PING
    requires LetsThrough(sink.fates, |Pings(frames)|) && LetsThrough(sink.fates, |Pings(frames + [s.frame])|)
    requires LetsThrough(Answered(sink, Pings(frames)).fates, 1)
    ensures ReadAfter(frames, Encode(s) + tail, sink, maxMessage)
         == ReadAfter(frames + [s.frame], tail, sink, maxMessage)
  {
    PartsOfMore(frames, s.frame);
    AnsweredInTurn(sink, Pings(frames), [s.frame.payload]);
    OneAnswer(Answered(sink, Pings(frames)), s.frame.payload, maxMessage);
    ReadTurnsOnControl(s, tail, Answered(sink, Pings(frames)), OpcodeAfter(frames), Joined(Data(frames)), maxMessage);
    assert Data(frames + [s.frame]) == Data(frames);
  }

  lemma PongIsPassed(frames: seq<Frame>, s: Spelling, tail: seq<byte>, sink: Sink, maxMessage: int)
    requires Legal(s, maxMessage) && s.frame.opcode == PONG
    requires LetsThrough(sink.fates, |Pings(frames)|) && LetsThrough(sink.fates, |Pings(frames + [s.frame])|)
    ensures ReadAfter(frames, Encode(s) + tail, sink, maxMessage)
         == ReadAfter(frames + [s.frame], tail, sink, maxMessage)
  {
    PartsOfMore(frames, s.frame);
    ReadTurnsOnControl(s, tail, Answered(sink, Pings(frames)), OpcodeAfter(frames), Joined(Data(frames)), maxMessage);
    assert Data(frames + [s.frame]) == Data(frames) && Pings(frames + [s.frame]) == Pings(frames);
  }

  lemma FragmentIsPassed(frames: seq<Frame>, s: Spelling, tail: seq<byte>, sink: Sink, maxMessage: int)
    requires Legal(s, maxMessage) && !IsControl(s.frame.opcode)
    requires LetsThrough(sink.fates, |Pings(frames)|) && LetsThrough(sink.fates, |Pings(frames + [s.frame])|)
    requires IsPassed(s.frame, Answered(sink, Pings(frames)), OpcodeAfter(frames), Joined(Data(frames)), maxMessage)
    ensures ReadAfter(frames, Encode(s) + tail, sink, maxMessage)
         == ReadAfter(frames + [s.frame], tail, sink, maxMessage)
  {
    PartsOfMore(frames, s.frame);
    ReadTurnsOnData(s, tail, Answered(sink, Pings(frames)), OpcodeAfter(frames), Joined(Data(frames)), maxMessage);
    assert Pings(frames + [s.frame]) == Pings(frames);
  }

  /** The loop passes a frame that it passes. */
  lemma PassedIsRead(frames: seq<Frame>, s: Spelling, tail: seq<byte>, sink: Sink, maxMessage: int)
    requires Legal(s, maxMessage) && LetsThrough(sink.fates, |Pings(frames)|)
    requires LetsThrough(sink.fates, |Pings(frames + [s.frame])|)
    requires IsPassed(s.frame, Answered(sink, Pings(frames)), OpcodeAfter(frames), Joined(Data(frames)), maxMessage)
    ensures ReadAfter(frames, Encode(s) + tail, sink, maxMessage)
         == ReadAfter(frames + [s.frame], tail, sink, maxMessage)
  {
    if s.frame.opcode == PING {
      PingIsPassed(frames, s, tail, sink, maxMessage);
    } else if s.frame.opcode == PONG {
      PongIsPassed(frames, s, tail, sink, maxMessage);
    } else {
      FragmentIsPassed(frames, s, tail, sink, maxMessage);
    }
  }

  lemma LastFrame(ss: seq<Spelling>, s: Spelling, tail: seq<byte>, maxMessage: int)
    ensures FramesOf(ss + [s]) == FramesOf(ss) + [s.frame]
    ensures EncodeAll(ss + [s]) + tail == EncodeAll(ss) + (Encode(s) + tail)
    ensures AllLegal(ss + [s], maxMessage) <==> AllLegal(ss, maxMessage) && Legal(s, maxMessage)
  {
    EncodeAllOfSum(ss, [s]);
    assert EncodeAll([s]) == Encode(s) by {
      assert [s][1..] == [] && Encode(s) + [] == Encode(s);
    }
    Regroup(EncodeAll(ss), Encode(s), tail);
    var more := ss + [s];
    assert more[|ss|] == s && forall i :: 0 <= i < |ss| ==> more[i] == ss[i];
  }

  lemma NothingPasses(input: seq<byte>, sink: Sink, maxMessage: int)
    requires maxMessage >= 0
    ensures Passes([], input, sink, input, maxMessage)
    ensures ReadAfter([], input, sink, maxMessage) == ReadMessage(input, sink, maxMessage)
  {
    assert FramesOf([]) == [] && [] + input == input;
    NothingReadsBack(input, sink);
  }

  /** What is passed is read and leaves the loop where it says. */
  lemma {:induction false} PassesIsRead(ss: seq<Spelling>, input: seq<byte>, sink: Sink, rest: seq<byte>,
                                        maxMessage: int)
    requires Passes(ss, input, sink, rest, maxMessage)
    ensures ReadMessage(input, sink, maxMessage) == ReadAfter(FramesOf(ss), rest, sink, maxMessage)
    decreases |ss|
  {
    if |ss| == 0 {
      assert [] + rest == rest;
      NothingPasses(input, sink, maxMessage);
      assert FramesOf(ss) == [];
    } else {
      var front, s := ss[..|ss| - 1], ss[|ss| - 1];
      assert ss == front + [s];
      LastFrame(front, s, rest, maxMessage);
      PartsOfMore(FramesOf(front), s.frame);
      GathersMore(FramesOf(front), s.frame, sink, maxMessage);
      PassesIsRead(front, input, sink, Encode(s) + rest, maxMessage);
      PassedIsRead(FramesOf(front), s, rest, sink, maxMessage);
    }
  }

  /** The frame that a stream starts with, and what comes behind it. */
  predicate StartsWith(rest: seq<byte>, s: Spelling, maxMessage: int) {
    Legal(s, maxMessage) && Encode(s) <= rest
  }

  /** What is wrong with the stream at this point. */
  ghost predicate Stops(frames: seq<Frame>, rest: seq<byte>, sink: Sink, maxMessage: int, error: ReadError)
    requires LetsThrough(sink.fates, |Pings(frames)|)
  {
    || IsRejected(rest, maxMessage, error)
    || exists s: Spelling :: StartsWith(rest, s, maxMessage)
                             && IsOutOfPlace(s.frame, Answered(sink, Pings(frames)), Data(frames) != [],
                                             Joined(Data(frames)), maxMessage, error)
  }

  lemma OutOfPlaceFails(frames: seq<Frame>, s: Spelling, tail: seq<byte>, sink: Sink, maxMessage: int, error: ReadError)
    requires Legal(s, maxMessage) && LetsThrough(sink.fates, |Pings(frames)|)
    requires IsOutOfPlace(s.frame, Answered(sink, Pings(frames)), Data(frames) != [], Joined(Data(frames)), maxMessage,
                          error)
    ensures ReadAfter(frames, Encode(s) + tail, sink, maxMessage).result == Err(error)
  {
    ReadOfEncode(s, tail, Answered(sink, Pings(frames)), OpcodeAfter(frames), Joined(Data(frames)), maxMessage);
  }

  lemma StopsFails(frames: seq<Frame>, rest: seq<byte>, sink: Sink, maxMessage: int, error: ReadError)
    requires LetsThrough(sink.fates, |Pings(frames)|) && Stops(frames, rest, sink, maxMessage, error)
    ensures ReadAfter(frames, rest, sink, maxMessage).result == Err(error)
  {
    if IsRejected(rest, maxMessage, error) {
      RejectedExactlyWhen(rest, maxMessage, error);
    } else {
      var s: Spelling :| StartsWith(rest, s, maxMessage)
                         && IsOutOfPlace(s.frame, Answered(sink, Pings(frames)), Data(frames) != [],
                                         Joined(Data(frames)), maxMessage, error);
      PrefixAndRest(Encode(s), rest);
      OutOfPlaceFails(frames, s, rest[|Encode(s)|..], sink, maxMessage, error);
    }
  }

  /** A legal frame at which the loop fails is out of place, unless the loop passes it. */
  lemma ProceedFails(s: Spelling, tail: seq<byte>, sink: Sink, opcode: byte, collected: seq<byte>, maxMessage: int,
                     error: ReadError)
    requires Legal(s, maxMessage) && (opcode == 0 || opcode == TEXT) && (opcode == 0 ==> collected == [])
    requires Proceed(s.frame, tail, sink, opcode, collected, maxMessage).result == Err(error)
    ensures IsPassed(s.frame, sink, opcode, collected, maxMessage)
      || IsOutOfPlace(s.frame, sink, opcode == TEXT, collected, maxMessage, error)
  {
    if IsControl(s.frame.opcode) {
      ControlFails(s, tail, sink, opcode, collected, maxMessage, error);
    }
  }

  lemma ControlFails(s: Spelling, tail: seq<byte>, sink: Sink, opcode: byte, collected: seq<byte>, maxMessage: int,
                     error: ReadError)
    requires Legal(s, maxMessage) && IsControl(s.frame.opcode)
    requires Proceed(s.frame, tail, sink, opcode, collected, maxMessage).result == Err(error)
    ensures IsPassed(s.frame, sink, opcode, collected, maxMessage)
      || IsOutOfPlace(s.frame, sink, opcode == TEXT, collected, maxMessage, error)
  {
    if s.frame.opcode == PING && !LetsThrough(sink.fates, 1) {
      assert Write(sink, PONG, s.frame.payload, maxMessage).error.Some?;
    }
  }

  lemma PassedOrOutOfPlace(frames: seq<Frame>, s: Spelling, tail: seq<byte>, sink: Sink, maxMessage: int,
                           error: ReadError)
    requires Legal(s, maxMessage) && LetsThrough(sink.fates, |Pings(frames)|)
    requires ReadAfter(frames, Encode(s) + tail, sink, maxMessage).result == Err(error)
    ensures IsPassed(s.frame, Answered(sink, Pings(frames)), OpcodeAfter(frames), Joined(Data(frames)), maxMessage)
      || IsOutOfPlace(s.frame, Answered(sink, Pings(frames)), Data(frames) != [], Joined(Data(frames)), maxMessage,
                      error)
  {
    var after := Answered(sink, Pings(frames));
    ReadOfEncode(s, tail, after, OpcodeAfter(frames), Joined(Data(frames)), maxMessage);
    ProceedFails(s, tail, after, OpcodeAfter(frames), Joined(Data(frames)), maxMessage, error);
  }

  lemma PassesOn(ss: seq<Spelling>, s: Spelling, input: seq<byte>, sink: Sink, tail: seq<byte>, maxMessage: int)
    requires Passes(ss, input, sink, Encode(s) + tail, maxMessage) && Legal(s, maxMessage)
    requires var frames := FramesOf(ss);
      IsPassed(s.frame, Answered(sink, Pings(frames)), OpcodeAfter(frames), Joined(Data(frames)), maxMessage)
    ensures Passes(ss + [s], input, sink, tail, maxMessage)
    ensures ReadAfter(FramesOf(ss + [s]), tail, sink, maxMessage)
         == ReadAfter(FramesOf(ss), Encode(s) + tail, sink, maxMessage)
  {
    LastFrame(ss, s, tail, maxMessage);
    GathersMore(FramesOf(ss), s.frame, sink, maxMessage);
    PassedIsRead(FramesOf(ss), s, tail, sink, maxMessage);
  }

  /** Whatever a failing read has passed so far, it passes the frames up to the point at which it stops. */
  lemma {:induction false} FailureIsFound(ss: seq<Spelling>, input: seq<byte>, sink: Sink, rest: seq<byte>,
                                          maxMessage: int, error: ReadError)
      returns (all: seq<Spelling>, left: seq<byte>)
    requires Passes(ss, input, sink, rest, maxMessage)
    requires ReadAfter(FramesOf(ss), rest, sink, maxMessage).result == Err(error)
    ensures Passes(all, input, sink, left, maxMessage) && Stops(FramesOf(all), left, sink, maxMessage, error)
    decreases |rest|
  {
    if ParseFrame(rest, maxMessage).Rejected? {
      RejectedExactlyWhen(rest, maxMessage, error);
      all, left := ss, rest;
    } else {
      var s, tail := TakeFrame(rest, maxMessage);
      var frames := FramesOf(ss);
      PassedOrOutOfPlace(frames, s, tail, sink, maxMessage, error);
      if IsPassed(s.frame, Answered(sink, Pings(frames)), OpcodeAfter(frames), Joined(Data(frames)), maxMessage) {
        PassesOn(ss, s, input, sink, tail, maxMessage);
        all, left := FailureIsFound(ss + [s], input, sink, tail, maxMessage, error);
      } else {
        OutOfPlaceStops(frames, s, tail, sink, maxMessage, error);
        all, left := ss, rest;
      }
    }
  }

  lemma TakeFrame(rest: seq<byte>, maxMessage: int) returns (s: Spelling, tail: seq<byte>)
    requires ParseFrame(rest, maxMessage).Parsed?
    ensures Legal(s, maxMessage) && rest == Encode(s) + tail && |tail| < |rest|
  {
    var r := ParseFrame(rest, maxMessage);
    s, tail := Spelling(r.frame, FormOf(rest[1])), rest[r.used..];
    EncodeOfParse(rest, maxMessage);
  }

  lemma OutOfPlaceStops(frames: seq<Frame>, s: Spelling, tail: seq<byte>, sink: Sink, maxMessage: int, error: ReadError)
    requires Legal(s, maxMessage) && LetsThrough(sink.fates, |Pings(frames)|)
    requires IsOutOfPlace(s.frame, Answered(sink, Pings(frames)), Data(frames) != [], Joined(Data(frames)), maxMessage,
                          error)
    ensures Stops(frames, Encode(s) + tail, sink, maxMessage, error)
  {
    assert StartsWith(Encode(s) + tail, s, maxMessage);
  }

  /**
   `ReadMessage` fails with an error exactly when the stream starts with legal frames that leave a message unfinished,
   and what comes next is wrong in the way the error says: a frame that is rejected or cut short, or a legal one that is
   out of place, closes the connection, or is a ping that cannot be answered.
   */
  lemma ReadErrorExactlyWhen(input: seq<byte>, sink: Sink, maxMessage: int, error: ReadError)
    requires maxMessage >= 0
    ensures ReadMessage(input, sink, maxMessage).result == Err(error)
      <==> exists ss, rest :: Passes(ss, input, sink, rest, maxMessage)
                              && Stops(FramesOf(ss), rest, sink, maxMessage, error)
  {
    if ReadMessage(input, sink, maxMessage).result == Err(error) {
      NothingPasses(input, sink, maxMessage);
      assert FramesOf([]) == [];
      var ss, rest := FailureIsFound([], input, sink, input, maxMessage, error);
      assert Passes(ss, input, sink, rest, maxMessage) && Stops(FramesOf(ss), rest, sink, maxMessage, error);
    }
    forall ss, rest | Passes(ss, input, sink, rest, maxMessage) && Stops(FramesOf(ss), rest, sink, maxMessage, error)
      ensures ReadMessage(input, sink, maxMessage).result == Err(error)
    {
      PassesIsRead(ss, input, sink, rest, maxMessage);
      StopsFails(FramesOf(ss), rest, sink, maxMessage, error);
    }
  }
}
