/**
 What `ReadMessage` guarantees about whole streams: exactly which streams deliver which message, that truncation is
 never mistaken for a shorter message, and that a conversation of any messages reads back in order.
 */
module Conversations {
  import opened Wrappers
  import opened Bytes
  import opened Frames
  import opened Messages
  import opened Sequences

  /**
   `ReadMessage` returns a text exactly when the stream starts with legal frames that make up that text, leaving
   exactly the bytes after them and one pong on the wire for each ping among them.
   */
  lemma ReadMessageExactly(input: seq<byte>, sink: Sink, text: seq<byte>, rest: seq<byte>, after: Sink, maxMessage: int)
    ensures ReadMessage(input, sink, maxMessage) == ReadOutcome(Ok(text), rest, after)
      <==> exists ss :: Explains(ss, input, sink, false, [], text, rest, after, maxMessage)
  {
    if ReadMessage(input, sink, maxMessage) == ReadOutcome(Ok(text), rest, after) {
      var ss := ReadIsExplained(input, sink, 0, [], maxMessage);
      assert Explains(ss, input, sink, false, [], text, rest, after, maxMessage);
    }
    forall ss | Explains(ss, input, sink, false, [], text, rest, after, maxMessage)
      ensures ReadMessage(input, sink, maxMessage) == ReadOutcome(Ok(text), rest, after)
    {
      ReadExplained(ss, input, sink, 0, [], text, rest, after, maxMessage);
    }
  }

  /** The frames behind a delivered text are determined by the stream, down to the length form of each. */
  lemma ExplanationIsUnique(a: seq<Spelling>, b: seq<Spelling>, input: seq<byte>, sink: Sink, maxMessage: int,
                            textA: seq<byte>, restA: seq<byte>, afterA: Sink,
                            textB: seq<byte>, restB: seq<byte>, afterB: Sink)
    requires Explains(a, input, sink, false, [], textA, restA, afterA, maxMessage)
    requires Explains(b, input, sink, false, [], textB, restB, afterB, maxMessage)
    ensures a == b && textA == textB && restA == restB && afterA == afterB
  {
    ReadExplained(a, input, sink, 0, [], textA, restA, afterA, maxMessage);
    ReadExplained(b, input, sink, 0, [], textB, restB, afterB, maxMessage);
    assert EncodeAll(a) == input[..|input| - |restA|] == EncodeAll(b);
    EncodeAllIsInjective(a, b, maxMessage);
  }

  /** A delivered text does not depend on the bytes that follow its frames. */
  lemma ReadIsLocal(input: seq<byte>, more: seq<byte>, sink: Sink, maxMessage: int)
    requires ReadMessage(input, sink, maxMessage).result.Ok?
    ensures var out := ReadMessage(input, sink, maxMessage);
      ReadMessage(input + more, sink, maxMessage) == out.(input := out.input + more)
  {
    var out := ReadMessage(input, sink, maxMessage);
    var ss := ReadIsExplained(input, sink, 0, [], maxMessage);
    Regroup(EncodeAll(ss), out.input, more);
    ReadExplained(ss, input + more, sink, 0, [], out.result.value, out.input + more, out.sink, maxMessage);
  }

  /** Cutting a message short, anywhere, gives an error and never another message. */
  lemma TruncationIsDetected(input: seq<byte>, sink: Sink, maxMessage: int, cut: nat)
    requires ReadMessage(input, sink, maxMessage).result.Ok?
    requires cut < |input| - |ReadMessage(input, sink, maxMessage).input|
    ensures ReadMessage(input[..cut], sink, maxMessage).result.Err?
  {
    if ReadMessage(input[..cut], sink, maxMessage).result.Ok? {
      assert input[..cut] + input[cut..] == input;
      ReadIsLocal(input[..cut], input[cut..], sink, maxMessage);
    }
  }

  /** The test for a non-text opcode at the end of a continued message can never succeed. */
  lemma {:induction false} LateTestNeverFires(input: seq<byte>, sink: Sink, messageOpcode: byte, message: seq<byte>,
                                              maxMessage: int)
    requires messageOpcode == 0 || messageOpcode == TEXT
    ensures Read(input, sink, messageOpcode, message, maxMessage).result != Err(LateNotText)
    decreases |input|
  {
    match ParseFrame(input, maxMessage)
    case Rejected(_, _) =>
    case Parsed(frame, used) =>
      match React(messageOpcode, message, frame, maxMessage) {
        case Assemble(opcode, text) => LateTestNeverFires(input[used..], sink, opcode, text, maxMessage);
        case Deliver(_) =>
        case Fail(_) =>
        case Answer(payload) =>
          var after := Write(sink, PONG, payload, maxMessage).sink;
          LateTestNeverFires(input[used..], after, messageOpcode, message, maxMessage);
      }
  }

  // ---------------------------------------------------------------------------------------------
  // Any number of messages
  // ---------------------------------------------------------------------------------------------

  datatype Transcript = Transcript(results: seq<Result<seq<byte>, ReadError>>, input: seq<byte>, sink: Sink)

  /** The results of `n` successive `ReadMessage` calls. */
  function ReadMany(n: nat, input: seq<byte>, sink: Sink, maxMessage: int): Transcript {
    if n == 0 then Transcript([], input, sink)
    else
      var first := ReadMessage(input, sink, maxMessage);
      var others := ReadMany(n - 1, first.input, first.sink, maxMessage);
      others.(results := [first.result] + others.results)
  }

  /** The frames of several messages, one after the other. */
  function Flatten<T>(parts: seq<seq<T>>): seq<T> {
    if |parts| == 0 then [] else parts[0] + Flatten(parts[1..])
  }

  ghost predicate Conversation(parts: seq<seq<Spelling>>, texts: seq<seq<byte>>, maxMessage: int) {
    && |parts| == |texts|
    && forall i :: 0 <= i < |parts| ==>
         AllLegal(parts[i], maxMessage) && TextMessage(FramesOf(parts[i]), texts[i], maxMessage)
  }

  function Oks(texts: seq<seq<byte>>): (r: seq<Result<seq<byte>, ReadError>>)
    ensures |r| == |texts|
  {
    seq(|texts|, i requires 0 <= i < |texts| => Ok(texts[i]))
  }

  /**
   Any list of text messages within the limit, split into any fragments, with any pings and pongs among them and with
   any of the length forms, is read back message by message; every byte is used and every ping is answered in order.
   */
  lemma {:induction false} ConversationReadsBack(parts: seq<seq<Spelling>>, texts: seq<seq<byte>>, rest: seq<byte>,
                                                 sink: Sink, maxMessage: int)
    requires Conversation(parts, texts, maxMessage)
    requires LetsThrough(sink.fates, |Pings(FramesOf(Flatten(parts)))|)
    ensures var pings := Pings(FramesOf(Flatten(parts)));
      ReadMany(|parts|, EncodeAll(Flatten(parts)) + rest, sink, maxMessage)
      == Transcript(Oks(texts), rest, Sink(sink.wire + PongWire(pings, sink.fates), sink.fates[|pings|..]))
    decreases |parts|
  {
    if |parts| == 0 {
      NothingReadsBack(rest, sink);
      assert Oks(texts) == [];
    } else {
      var ss, others := parts[0], Flatten(parts[1..]);
      var here, later := Pings(FramesOf(ss)), Pings(FramesOf(others));
      PingsOfSum(ss, others);
      AnsweredInTurn(sink, here, later);
      var middle := Answered(sink, here);
      FirstMessageReadsBack(ss, others, texts[0], rest, sink, middle, maxMessage);
      ConversationReadsBack(parts[1..], texts[1..], rest, middle, maxMessage);
      ReadManyFirst(|parts|, EncodeAll(ss + others) + rest, sink, maxMessage, texts[0], EncodeAll(others) + rest,
                    middle);
      OksOfFirst(texts);
    }
  }

  lemma NothingReadsBack(rest: seq<byte>, sink: Sink)
    ensures EncodeAll([]) + rest == rest && Answered(sink, []) == sink
  {
    assert sink.wire + [] == sink.wire && sink.fates[0..] == sink.fates;
  }

  lemma OksOfFirst(texts: seq<seq<byte>>)
    requires |texts| > 0
    ensures [Ok(texts[0])] + Oks(texts[1..]) == Oks(texts)
  {
  }

  lemma ReadManyFirst(n: nat, input: seq<byte>, sink: Sink, maxMessage: int, text: seq<byte>, rest: seq<byte>,
                      middle: Sink)
    requires n > 0 && ReadMessage(input, sink, maxMessage) == ReadOutcome(Ok(text), rest, middle)
    ensures var others := ReadMany(n - 1, rest, middle, maxMessage);
      ReadMany(n, input, sink, maxMessage) == others.(results := [Ok(text)] + others.results)
  {
  }

  lemma FirstMessageReadsBack(ss: seq<Spelling>, others: seq<Spelling>, text: seq<byte>, rest: seq<byte>, sink: Sink,
                              middle: Sink, maxMessage: int)
    requires AllLegal(ss, maxMessage) && TextMessage(FramesOf(ss), text, maxMessage)
    requires LetsThrough(sink.fates, |Pings(FramesOf(ss))|)
    requires middle == Sink(sink.wire + PongWire(Pings(FramesOf(ss)), sink.fates), sink.fates[|Pings(FramesOf(ss))|..])
    ensures ReadMessage(EncodeAll(ss + others) + rest, sink, maxMessage)
      == ReadOutcome(Ok(text), EncodeAll(others) + rest, middle)
  {
    EncodeAllOfSum(ss, others);
    Regroup(EncodeAll(ss), EncodeAll(others), rest);
    ReadExplained(ss, EncodeAll(ss + others) + rest, sink, 0, [], text, EncodeAll(others) + rest, middle, maxMessage);
  }

  lemma {:induction false} EncodeAllOfSum(a: seq<Spelling>, b: seq<Spelling>)
    ensures EncodeAll(a + b) == EncodeAll(a) + EncodeAll(b)
  {
    if |a| == 0 {
      assert a + b == b;
    } else {
      EncodeAllOfSum(a[1..], b);
      FirstAndRest(a);
      FirstOfSum(a, b);
      DropsRest(a[0], a[1..] + b);
      Regroup(Encode(a[0]), EncodeAll(a[1..]), EncodeAll(b));
    }
  }

  lemma FramesOfSum(a: seq<Spelling>, b: seq<Spelling>)
    ensures FramesOf(a + b) == FramesOf(a) + FramesOf(b)
  {
  }

  lemma PingsOfFirst(frame: Frame, frames: seq<Frame>)
    ensures Pings([frame] + frames) == (if frame.opcode == PING then [frame.payload] else []) + Pings(frames)
  {
    DropsRest(frame, frames);
  }

  lemma {:induction false} PingsJoin(a: seq<Frame>, b: seq<Frame>)
    ensures Pings(a + b) == Pings(a) + Pings(b)
  {
    if |a| == 0 {
      assert a + b == b;
    } else {
      var first := if a[0].opcode == PING then [a[0].payload] else [];
      PingsJoin(a[1..], b);
      FirstAndRest(a);
      FirstOfSum(a, b);
      PingsOfFirst(a[0], a[1..]);
      PingsOfFirst(a[0], a[1..] + b);
      Regroup(first, Pings(a[1..]), Pings(b));
    }
  }

  lemma PingsOfSum(a: seq<Spelling>, b: seq<Spelling>)
    ensures Pings(FramesOf(a + b)) == Pings(FramesOf(a)) + Pings(FramesOf(b))
  {
    FramesOfSum(a, b);
    PingsJoin(FramesOf(a), FramesOf(b));
  }

  lemma {:induction false} PongWireOfSum(a: seq<seq<byte>>, b: seq<seq<byte>>, fates: seq<Fate>)
    requires LetsThrough(fates, |a| + |b|) && LetsThrough(fates, |a|) && LetsThrough(fates[|a|..], |b|)
    ensures PongWire(a + b, fates) == PongWire(a, fates) + PongWire(b, fates[|a|..])
    decreases 2 * |a|
  {
    if |a| == 0 {
      assert a + b == b && fates[0..] == fates;
    } else {
      PongWireOfMore(a[0], a[1..], b, fates);
      FirstAndRest(a);
      FirstOfSum(a, b);
    }
  }

  lemma PongWireOfMore(first: seq<byte>, a: seq<seq<byte>>, b: seq<seq<byte>>, fates: seq<Fate>)
    requires LetsThrough(fates, 1 + |a| + |b|) && LetsThrough(fates, 1 + |a|) && LetsThrough(fates[1 + |a|..], |b|)
    ensures PongWire([first] + (a + b), fates) == PongWire([first] + a, fates) + PongWire(b, fates[1 + |a|..])
    decreases 2 * |a| + 1
  {
    var rest := fates[1..];
    LetsThroughSplits(fates, 1, |a| + |b|);
    LetsThroughSplits(rest, |a|, |b|);
    DropFirst(fates, 1 + |a|);
    PongWireOfSum(a, b, rest);
    PongWireFirst(first, a + b, fates);
    PongWireFirst(first, a, fates);
    Regroup(EncodeMasked(PONG, first, fates[0].mask), PongWire(a, rest), PongWire(b, fates[1 + |a|..]));
  }

  lemma DropFirst(fates: seq<Fate>, n: nat)
    requires 1 <= n <= |fates|
    ensures fates[1..][n - 1..] == fates[n..]
  {
  }

  lemma LetsThroughSplits(fates: seq<Fate>, m: nat, n: nat)
    requires LetsThrough(fates, m + n)
    ensures LetsThrough(fates, m) && LetsThrough(fates[m..], n)
    ensures fates[m + n..] == fates[m..][n..]
  {
  }

  /** The outgoing half after each of some pings has been answered. */
  function Answered(sink: Sink, pings: seq<seq<byte>>): Sink
    requires LetsThrough(sink.fates, |pings|)
  {
    Sink(sink.wire + PongWire(pings, sink.fates), sink.fates[|pings|..])
  }

  lemma AnsweredInTurn(sink: Sink, here: seq<seq<byte>>, later: seq<seq<byte>>)
    requires LetsThrough(sink.fates, |here + later|)
    ensures LetsThrough(sink.fates, |here|) && LetsThrough(Answered(sink, here).fates, |later|)
    ensures Answered(Answered(sink, here), later) == Answered(sink, here + later)
  {
    LetsThroughSplits(sink.fates, |here|, |later|);
    PongWireOfSum(here, later, sink.fates);
    Regroup(sink.wire, PongWire(here, sink.fates), PongWire(later, sink.fates[|here|..]));
  }
}
