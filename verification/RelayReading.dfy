/**
 What the reader makes of the messages it is sent: every message has one meaning, requests and pings are taken in order,
 and the session reads on exactly until the first message that is at fault.
 */
module RelayReading {
  import opened Wrappers
  import opened Protocol
  import opened RelaySteps
  import opened RelayInvariants
  import opened RelayCancel
  import opened RelayTheorems

  // ---------------------------------------------------------------------------------------------
  // The meaning of a message
  // ---------------------------------------------------------------------------------------------

  /** A message may be larger than a request body by 4096 bytes. */
  predicate Fits(config: Config, m: Inbound) {
    m.Payload? && m.length <= config.maxRequestBytes + 4096
  }

  predicate IsOf(config: Config, m: Inbound, kind: string) {
    Fits(config, m) && m.envelope.Some? && m.envelope.value.kind == kind
  }

  predicate Asks(config: Config, m: Inbound, request: Request) {
    IsOf(config, m, "request") && m.envelope.value.request == Some(request)
  }

  predicate Aims(config: Config, m: Inbound, id: string) {
    IsOf(config, m, "cancel") && m.envelope.value.cancel == Some(Cancel("cancel", id)) && ValidId(id)
  }

  predicate Pings(config: Config, m: Inbound, id: string) {
    IsOf(config, m, "ping") && m.envelope.value.ping == Some(id)
  }

  predicate Faulty(config: Config, m: Inbound, failure: Failure) {
    match failure
    case ReadFailed => m.ReadError?
    case MessageTooLarge => m.Payload? && m.length > config.maxRequestBytes + 4096
    case InvalidJson => Fits(config, m) && m.envelope.None?
    case InvalidRequest => IsOf(config, m, "request") && m.envelope.value.request.None?
    case InvalidCancel =>
      && IsOf(config, m, "cancel")
      && var cancel := m.envelope.value.cancel;
        cancel.None? || cancel.value.kind != "cancel" || !ValidId(cancel.value.id)
    case InvalidPing => IsOf(config, m, "ping") && m.envelope.value.ping.None?
    case Unsupported(kind) => IsOf(config, m, kind) && kind != "request" && kind != "cancel" && kind != "ping"
    case _ => false
  }

  lemma KindsDiffer()
    ensures "request" != "cancel" && "request" != "ping" && "cancel" != "ping"
  {
    assert |"request"| == 7 && |"cancel"| == 6 && |"ping"| == 4;
  }

  /**
   Every message is a request, a cancel message, a ping or at fault in one way, and the reader goes on accordingly.
   */
  lemma MeaningExactly(config: Config, ticket: nat, m: Inbound, now: int)
    ensures var r := Receive(config, ticket, m, now);
      && (forall request :: Asks(config, m, request) <==> r.requests == [request])
      && (forall id :: Aims(config, m, id) <==> r.next == LookingUp(id))
      && (forall id :: Pings(config, m, id) <==> r.next == Replying(Pong(id), None))
      && (forall failure :: Faulty(config, m, failure) <==> r.next == Failing(failure))
      && (r.next.Failing? || r.next.LookingUp? || IsPong(r.next) <==> r.requests == [])
      && |r.requests| <= 1
      && (r.requests == [] <==> !(IsOf(config, m, "request") && m.envelope.value.request.Some?))
  {
    KindsDiffer();
    ReceiveCases(config, ticket, m, now);
    if |Receive(config, ticket, m, now).requests| == 1 {
      AdmitCases(config, ticket, Receive(config, ticket, m, now).requests[0], now);
    }
  }

  // ---------------------------------------------------------------------------------------------
  // Everything heard so far
  // ---------------------------------------------------------------------------------------------

  datatype Timed = Timed(request: Request, now: int)

  /** The requests among the messages, each with the time at which it was read. */
  function Requests(config: Config, heard: seq<Heard>): seq<Timed> {
    if |heard| == 0 then []
    else
      var e := heard[|heard| - 1];
      Requests(config, heard[..|heard| - 1])
      + if IsOf(config, e.inbound, "request") && e.inbound.envelope.value.request.Some?
        then [Timed(e.inbound.envelope.value.request.value, e.now)] else []
  }

  function PingIds(config: Config, heard: seq<Heard>): seq<string> {
    if |heard| == 0 then []
    else
      var e := heard[|heard| - 1];
      PingIds(config, heard[..|heard| - 1])
      + if IsOf(config, e.inbound, "ping") && e.inbound.envelope.value.ping.Some?
        then [e.inbound.envelope.value.ping.value] else []
  }

  function PongIds(writes: seq<Written>): seq<string> {
    if |writes| == 0 then []
    else
      var w := writes[|writes| - 1];
      PongIds(writes[..|writes| - 1]) + if w.message.Pong? then [w.message.id] else []
  }

  /** The pong that the reader is about to write. */
  function NextPong(r: ReaderPC): seq<string> {
    if r.Replying? && r.message.Pong? then [r.message.id] else []
  }

  predicate SameRequests(decoded: seq<Request>, timed: seq<Timed>) {
    |decoded| == |timed| && forall t :: 0 <= t < |decoded| ==> decoded[t] == timed[t].request
  }

  predicate Welcome(config: Config, m: Inbound) {
    || (IsOf(config, m, "request") && m.envelope.value.request.Some?)
    || (IsOf(config, m, "cancel") && m.envelope.value.cancel.Some? && Aims(config, m, m.envelope.value.cancel.value.id))
    || (IsOf(config, m, "ping") && m.envelope.value.ping.Some?)
  }

  predicate AllWelcome(config: Config, heard: seq<Heard>) {
    forall i :: 0 <= i < |heard| ==> Welcome(config, heard[i].inbound)
  }

  /** All that was heard before the last message. */
  function Earlier(heard: seq<Heard>): seq<Heard> {
    if |heard| == 0 then [] else heard[..|heard| - 1]
  }

  predicate EndsWithFault(config: Config, heard: seq<Heard>, failure: Failure) {
    |heard| > 0 && Faulty(config, heard[|heard| - 1].inbound, failure)
  }

  predicate FaultOnTop(s: State) {
    && AllWelcome(s.config, Earlier(s.past.heard))
    && (!s.reader.Failing? && !s.reader.Returned? ==> AllWelcome(s.config, s.past.heard))
    && (s.reader.Failing? ==> EndsWithFault(s.config, s.past.heard, s.reader.failure))
    && (s.reader.LookingUp? ==>
          |s.past.heard| > 0 && Aims(s.config, s.past.heard[|s.past.heard| - 1].inbound, s.reader.id))
  }

  predicate Listened(s: State) {
    && SameRequests(s.past.decoded, Requests(s.config, s.past.heard))
    && PingIds(s.config, s.past.heard) == PongIds(s.past.writes) + NextPong(s.reader)
    && FaultOnTop(s)
  }

  lemma PongAppended(writes: seq<Written>, w: Written)
    ensures PongIds(writes + [w]) == PongIds(writes) + if w.message.Pong? then [w.message.id] else []
  {
    assert (writes + [w])[..|writes|] == writes;
  }

  lemma HearingKeepsListened(s: State, m: Inbound, now: int)
    requires Listened(s) && s.reader.Reading?
    ensures Listened(ReaderStep(s, Reads(m, now)))
  {
    var t := ReaderStep(s, Reads(m, now));
    assert t.past.heard[..|s.past.heard|] == s.past.heard;
    MeaningExactly(s.config, |s.past.decoded|, m, now);
    HearingKeepsRequests(s, m, now);
    HearingKeepsPings(s, m, now);
    HearingKeepsFault(s, m, now);
  }

  lemma HearingKeepsRequests(s: State, m: Inbound, now: int)
    requires SameRequests(s.past.decoded, Requests(s.config, s.past.heard)) && s.reader.Reading?
    ensures var t := ReaderStep(s, Reads(m, now));
      SameRequests(t.past.decoded, Requests(t.config, t.past.heard))
  {
    assert (s.past.heard + [Heard(m, now)])[..|s.past.heard|] == s.past.heard;
    MeaningExactly(s.config, |s.past.decoded|, m, now);
    if IsOf(s.config, m, "request") && m.envelope.value.request.Some? {
      assert Asks(s.config, m, m.envelope.value.request.value);
    }
  }

  lemma HearingKeepsPings(s: State, m: Inbound, now: int)
    requires PingIds(s.config, s.past.heard) == PongIds(s.past.writes) && s.reader.Reading?
    ensures var t := ReaderStep(s, Reads(m, now));
      PingIds(t.config, t.past.heard) == PongIds(t.past.writes) + NextPong(t.reader)
  {
    var t := ReaderStep(s, Reads(m, now));
    assert t.past.heard[..|s.past.heard|] == s.past.heard;
    MeaningExactly(s.config, |s.past.decoded|, m, now);
    if IsOf(s.config, m, "ping") && m.envelope.value.ping.Some? {
      assert Pings(s.config, m, m.envelope.value.ping.value);
    } else if t.reader.Replying? && t.reader.message.Pong? {
      ReadCases(s, m, now);
      PongIsForPing(s.config, |s.past.decoded|, m, now);
    }
  }

  lemma PongIsForPing(config: Config, ticket: nat, m: Inbound, now: int)
    ensures var next := Receive(config, ticket, m, now).next;
      next.Replying? && next.message.Pong? ==> Pings(config, m, next.message.id)
  {
  }

  lemma HearingKeepsFault(s: State, m: Inbound, now: int)
    requires FaultOnTop(s) && s.reader.Reading?
    ensures FaultOnTop(ReaderStep(s, Reads(m, now)))
  {
    var t := ReaderStep(s, Reads(m, now));
    assert Earlier(t.past.heard) == s.past.heard;
    MeaningExactly(s.config, |s.past.decoded|, m, now);
    MeaningIsOne(s.config, |s.past.decoded|, m, now);
  }

  /** A message is welcome, or it makes the reader fail. */
  lemma MeaningIsOne(config: Config, ticket: nat, m: Inbound, now: int)
    ensures Welcome(config, m) <==> !Receive(config, ticket, m, now).next.Failing?
    ensures !Receive(config, ticket, m, now).next.Returned?
  {
    KindsDiffer();
  }

  lemma ReaderKeepsListened(s: State, a: ReaderAction)
    requires Listened(s) && ReaderEnabled(s, a)
    ensures Listened(ReaderStep(s, a))
  {
    match a
    case Reads(m, now) => HearingKeepsListened(s, m, now);
    case Replies(ok) => ReplyingKeepsListened(s, ok);
    case _ => ReaderKeepsHeard(s, a);
  }

  lemma ReplyingKeepsListened(s: State, ok: bool)
    requires Listened(s) && s.reader.Replying?
    ensures Listened(ReaderStep(s, Replies(ok)))
  {
    var t := ReaderStep(s, Replies(ok));
    assert t.config == s.config && t.past.heard == s.past.heard && t.past.decoded == s.past.decoded;
    PongAppended(s.past.writes, Written(s.reader.ticket, s.reader.message, ok));
    assert NextPong(t.reader) == [] && !t.reader.Failing? && !t.reader.LookingUp?;
  }

  lemma ReaderKeepsHeard(s: State, a: ReaderAction)
    requires Listened(s) && ReaderEnabled(s, a) && !a.Reads? && !a.Replies?
    ensures Listened(ReaderStep(s, a))
  {
    var t := ReaderStep(s, a);
    assert t.config == s.config && t.past.heard == s.past.heard && t.past.decoded == s.past.decoded;
    assert t.past.writes == s.past.writes;
    assert NextPong(t.reader) == NextPong(s.reader) == [];
    assert !t.reader.Failing? && !t.reader.LookingUp?;
  }

  /** The other goroutines hear nothing and write no pong. */
  lemma OthersKeepListened(s: State, t: State)
    requires Listened(s)
    requires t.config == s.config && t.past.heard == s.past.heard && t.past.decoded == s.past.decoded
    requires PongIds(t.past.writes) == PongIds(s.past.writes)
    requires t.reader == s.reader || (s.reader.NotStarted? && t.reader.Polling?)
    ensures Listened(t)
  {
  }

  lemma MainKeepsPongs(s: State, a: MainAction)
    requires MainEnabled(s, a)
    ensures var t := MainStep(s, a);
      && t.config == s.config && t.past.heard == s.past.heard && t.past.decoded == s.past.decoded
      && PongIds(t.past.writes) == PongIds(s.past.writes)
      && (t.reader == s.reader || (a.Greets? && t.reader.Polling?))
  {
    if a.Greets? {
      PongAppended(s.past.writes, Written(None, HelloOf(s.config), a.ok));
    }
  }

  lemma WorkerKeepsPongs(s: State, i: nat, a: WorkerAction)
    requires WorkerEnabled(s, i, a)
    ensures var t := WorkerStep(s, i, a);
      && t.config == s.config && t.past.heard == s.past.heard && t.past.decoded == s.past.decoded
      && PongIds(t.past.writes) == PongIds(s.past.writes) && t.reader == s.reader
  {
    if a.Responds? {
      var w := s.workers[i];
      PongAppended(s.past.writes, Written(Some(w.job.ticket), Reply(w.response), a.ok));
    }
  }

  lemma HeartKeepsPongs(s: State, a: HeartAction)
    requires HeartEnabled(s, a)
    ensures var t := HeartStep(s, a);
      && t.config == s.config && t.past.heard == s.past.heard && t.past.decoded == s.past.decoded
      && t.past.writes == s.past.writes && t.reader == s.reader
  {
  }

  lemma StepKeepsListened(s: State, a: Action)
    requires LifeCycle(s) && Listened(s) && Enabled(s, a)
    ensures Listened(Apply(s, a))
  {
    match a
    case Interrupt =>
    case Main(m) =>
      MainKeepsPongs(s, m);
      OthersKeepListened(s, MainStep(s, m));
    case Reader(r) => ReaderKeepsListened(s, r);
    case Worker(i, w) =>
      WorkerKeepsPongs(s, i, w);
      OthersKeepListened(s, WorkerStep(s, i, w));
    case Heart(h) =>
      HeartKeepsPongs(s, h);
      OthersKeepListened(s, HeartStep(s, h));
  }

  lemma {:induction false} RunKeepsListened(s: State, schedule: seq<Action>)
    requires Inv(s) && Listened(s)
    ensures Listened(Run(s, schedule))
    decreases |schedule|
  {
    if |schedule| == 0 {
    } else {
      if Enabled(s, schedule[0]) {
        StepKeepsListened(s, schedule[0]);
      }
      TurnKeepsInv(s, schedule[0]);
      RunKeepsListened(Turn(s, schedule[0]), schedule[1..]);
    }
  }

  lemma ReachedListened(config: Config, schedule: seq<Action>)
    requires config.Usable()
    ensures Listened(Reached(config, schedule)) && Reached(config, schedule).config == config
  {
    InitInv(config);
    RunKeepsListened(Init(config), schedule);
    ConfigIsConstant(Init(config), schedule);
  }

  /**
   The requests decoded are the requests sent, in order. Each ping has had one attempt at a pong with its identifier, in
   order, except that the last may still be about to be made. The session hears nothing after a message at fault; the
   reader fails with what is wrong with the last message, and with nothing else.
   */
  lemma MessagesAreTakenInOrder(config: Config, schedule: seq<Action>)
    requires config.Usable()
    ensures var s := Reached(config, schedule);
      var heard := s.past.heard;
      && SameRequests(s.past.decoded, Requests(config, heard))
      && PingIds(config, heard) == PongIds(s.past.writes) + NextPong(s.reader)
      && AllWelcome(config, Earlier(heard))
      && (s.reader.Failing? ==> EndsWithFault(config, heard, s.reader.failure))
      && (|heard| > 0 && !Welcome(config, heard[|heard| - 1].inbound) ==> s.reader.Failing? || s.reader.Returned?)
  {
    ReachedListened(config, schedule);
  }

  // ---------------------------------------------------------------------------------------------
  // The end of reading
  // ---------------------------------------------------------------------------------------------

  /** How many messages may still be heard once the session is stopping. */
  function Pending(r: ReaderPC): nat {
    if r.Reading? then 1 else 0
  }

  lemma StoppingStepHears(s: State, a: Action)
    requires LifeCycle(s) && ServeDone(s) && !s.main.Greeting? && Enabled(s, a)
    ensures var t := Apply(s, a);
      && ServeDone(t) && !t.main.Greeting?
      && |t.past.heard| + Pending(t.reader) <= |s.past.heard| + Pending(s.reader)
  {
    match a
    case Interrupt =>
    case Main(m) =>
    case Reader(r) => StoppingReaderHears(s, r);
    case Worker(i, w) => WorkerKeepsPongs(s, i, w);
    case Heart(h) => HeartKeepsPongs(s, h);
  }

  lemma StoppingReaderHears(s: State, a: ReaderAction)
    requires ServeDone(s) && ReaderEnabled(s, a)
    ensures var t := ReaderStep(s, a);
      && ServeDone(t) && t.main == s.main
      && |t.past.heard| + Pending(t.reader) <= |s.past.heard| + Pending(s.reader)
  {
    if a.Reads? {
      MeaningExactly(s.config, |s.past.decoded|, a.inbound, a.now);
      ReadCases(s, a.inbound, a.now);
    }
  }

  /** Once the session is stopping, at most the call of `ReadMessage` under way returns; no other is made. */
  lemma {:induction false} StoppedReadsNoMore(s: State, schedule: seq<Action>)
    requires LifeCycle(s) && ServeDone(s) && !s.main.Greeting?
    ensures |Run(s, schedule).past.heard| <= |s.past.heard| + Pending(s.reader)
    decreases |schedule|
  {
    if |schedule| == 0 {
    } else {
      var a := schedule[0];
      if Enabled(s, a) {
        StoppingStepHears(s, a);
        KeepsLifeCycle(s, a);
      }
      StoppedReadsNoMore(Turn(s, a), schedule[1..]);
    }
  }
}
