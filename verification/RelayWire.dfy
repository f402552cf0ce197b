/**
 The session on its connection. The `WriteJSON` calls of module RelaySteps are taken apart into the steps of module
 Wire: a goroutine that wants to write calls `writeFrame`, waits for its turn, puts its frame on the wire or fails, and
 only then learns how the call went. Keepalives, pongs and the close frame may come in between.
 */
module RelayWire {
  import opened Wrappers
  import opened Bytes
  import opened Frames
  import opened RelaySteps
  import opened RelayPlaces
  import opened RelayInvariants
  import opened RelayJobs
  import opened RelayCancel
  import opened RelayAnswers
  import W = Wire

  /** What `json.Marshal` makes of a message. */
  type Encoding = Message -> seq<byte>

  /** A `WriteJSON` call under way, and whether its frame is out. */
  datatype Pending = Pending(ticket: Option<nat>, message: Message, sent: bool)

  /** The session, the wire, the call of each goroutine that is under way, and the text frames written, in order. */
  datatype Link = Link(relay: State, wire: W.State, calls: seq<Option<Pending>>, texts: seq<Pending>)

  datatype LinkAction =
    | Inner(a: Action)
    | Start(g: nat, mask: Mask)
    | OnWire(w: W.Action)
    | Control(g: nat, frame: W.Outgoing)
    | End(g: nat, ok: bool)

  /** The goroutines are the main one, the reader, the heartbeat and the workers. */
  function Begin(config: Config): Link {
    Link(Init(config), W.Init(config.concurrency + 3), NoCalls(config.concurrency + 3), [])
  }

  function NoCalls(n: nat): (calls: seq<Option<Pending>>)
    ensures |calls| == n && forall i :: 0 <= i < n ==> calls[i] == None
  {
    seq(n, _ => None)
  }

  predicate WritesJson(a: Action) {
    || (a.Main? && a.m.Greets?)
    || (a.Reader? && a.r.Replies?)
    || (a.Worker? && a.w.Responds?)
  }

  /** The message that a goroutine is about to write, and the request it answers. */
  function AtWrite(s: State, g: nat): Option<(Option<nat>, Message)> {
    if g == 0 then if s.main.Greeting? then Some((None, HelloOf(s.config))) else None
    else if g == 1 then if s.reader.Replying? then Some((s.reader.ticket, s.reader.message)) else None
    else if 3 <= g < |s.workers| + 3 && s.workers[g - 3].Answering?
    then Some((Some(s.workers[g - 3].job.ticket), Reply(s.workers[g - 3].response)))
    else None
  }

  function WriteAction(g: nat, ok: bool): Action {
    if g == 0 then Main(Greets(ok)) else if g <= 2 then Reader(Replies(ok)) else Worker(g - 3, Responds(ok))
  }

  predicate LinkEnabled(encode: Encoding, l: Link, a: LinkAction) {
    match a
    case Inner(b) => Enabled(l.relay, b) && !WritesJson(b)
    case Start(g, mask) =>
      && g < |l.calls| && l.calls[g].None? && AtWrite(l.relay, g).Some?
      && W.Enabled(l.wire, W.Call(g, W.Outgoing(TEXT, encode(AtWrite(l.relay, g).value.1), mask)))
    case OnWire(w) => !w.Call? && W.Enabled(l.wire, w) && w.who < |l.calls|
    case Control(g, frame) =>
      g < |l.calls| && l.calls[g].None? && frame.opcode != TEXT && W.Enabled(l.wire, W.Call(g, frame))
    case End(g, ok) =>
      && g < |l.calls| && g < |l.wire.writers| && AtWrite(l.relay, g).Some?
      && if l.calls[g].None? then !ok else l.wire.writers[g].Outside? && (ok ==> l.calls[g].value.sent)
  }

  lemma AtWriteIsEnabled(s: State, g: nat, ok: bool)
    requires AtWrite(s, g).Some?
    ensures Enabled(s, WriteAction(g, ok))
  {
  }

  function LinkApply(encode: Encoding, l: Link, a: LinkAction): Link
    requires LinkEnabled(encode, l, a)
  {
    match a
    case Inner(b) => l.(relay := Apply(l.relay, b))
    case Start(g, mask) =>
      var (ticket, message) := AtWrite(l.relay, g).value;
      l.(wire := W.Apply(l.wire, W.Call(g, W.Outgoing(TEXT, encode(message), mask))),
         calls := l.calls[g := Some(Pending(ticket, message, false))])
    case OnWire(w) =>
      var t := l.(wire := W.Apply(l.wire, w));
      if w.Finish? && l.calls[w.who].Some? then
        var done := l.calls[w.who].value.(sent := true);
        t.(calls := l.calls[w.who := Some(done)], texts := l.texts + [done])
      else t
    case Control(g, frame) => l.(wire := W.Apply(l.wire, W.Call(g, frame)))
    case End(g, ok) =>
      AtWriteIsEnabled(l.relay, g, ok);
      l.(relay := Apply(l.relay, WriteAction(g, ok)), calls := l.calls[g := None])
  }

  function LinkRun(encode: Encoding, l: Link, schedule: seq<LinkAction>): Link
    decreases |schedule|
  {
    if |schedule| == 0 then l
    else
      var next := if LinkEnabled(encode, l, schedule[0]) then LinkApply(encode, l, schedule[0]) else l;
      LinkRun(encode, next, schedule[1..])
  }

  // ---------------------------------------------------------------------------------------------
  // Calls and frames belong together
  // ---------------------------------------------------------------------------------------------

  predicate CallFits(s: State, calls: seq<Option<Pending>>, g: nat)
    requires g < |calls|
  {
    calls[g].Some? ==> AtWrite(s, g) == Some((calls[g].value.ticket, calls[g].value.message))
  }

  /** A goroutine with a call under way stands at that write; one that is at it writes a text frame with its message. */
  predicate FrameFits(encode: Encoding, w: W.Writer, call: Option<Pending>) {
    w.Waiting? || w.Writing? ==>
      && (w.frame.opcode == TEXT <==> call.Some?)
      && (call.Some? ==> w.frame.payload == encode(call.value.message) && !call.value.sent)
  }

  predicate Fits(encode: Encoding, l: Link) {
    && |l.calls| == |l.wire.writers|
    && (forall g :: 0 <= g < |l.calls| ==> CallFits(l.relay, l.calls, g))
    && (forall g :: 0 <= g < |l.calls| ==> FrameFits(encode, l.wire.writers[g], l.calls[g]))
  }

  lemma InnerKeepsAtWrite(s: State, a: Action, g: nat)
    requires Enabled(s, a) && !WritesJson(a) && AtWrite(s, g).Some?
    ensures AtWrite(Apply(s, a), g) == AtWrite(s, g)
  {
    match a
    case Interrupt =>
    case Main(m) =>
    case Reader(r) =>
    case Worker(i, w) =>
    case Heart(h) =>
  }

  /** A write moves its own goroutine on; only the hello makes others start, and none of them is at a write before. */
  lemma WriteKeepsAtWrite(s: State, g: nat, ok: bool, h: nat)
    requires Shape(s) && AtWrite(s, g).Some? && AtWrite(s, h).Some? && g != h
    ensures Enabled(s, WriteAction(g, ok)) && AtWrite(Apply(s, WriteAction(g, ok)), h) == AtWrite(s, h)
  {
  }

  lemma StepKeepsFits(encode: Encoding, l: Link, a: LinkAction)
    requires Shape(l.relay) && Fits(encode, l) && LinkEnabled(encode, l, a)
    ensures Fits(encode, LinkApply(encode, l, a))
  {
    var t := LinkApply(encode, l, a);
    forall g | 0 <= g < |t.calls|
      ensures CallFits(t.relay, t.calls, g) && FrameFits(encode, t.wire.writers[g], t.calls[g])
    {
      StepKeepsCallFits(encode, l, a, g);
      StepKeepsFrameFits(encode, l, a, g);
    }
  }

  lemma StepKeepsFrameFits(encode: Encoding, l: Link, a: LinkAction, g: nat)
    requires Fits(encode, l) && LinkEnabled(encode, l, a) && g < |l.calls|
    ensures var t := LinkApply(encode, l, a);
      |t.calls| == |t.wire.writers| == |l.calls| && FrameFits(encode, t.wire.writers[g], t.calls[g])
  {
    assert FrameFits(encode, l.wire.writers[g], l.calls[g]);
  }

  lemma StepKeepsCallFits(encode: Encoding, l: Link, a: LinkAction, g: nat)
    requires Shape(l.relay) && Fits(encode, l) && LinkEnabled(encode, l, a) && g < |l.calls|
    ensures var t := LinkApply(encode, l, a); |t.calls| == |l.calls| && CallFits(t.relay, t.calls, g)
  {
    assert CallFits(l.relay, l.calls, g);
    if l.calls[g].Some? {
      match a {
        case Inner(b) => InnerKeepsAtWrite(l.relay, b, g);
        case End(h, ok) =>
          if h != g {
            WriteKeepsAtWrite(l.relay, h, ok, g);
          }
        case _ =>
      }
    }
  }

  // ---------------------------------------------------------------------------------------------
  // The text frames on the wire
  // ---------------------------------------------------------------------------------------------

  function TextsOf(frames: seq<W.Outgoing>): seq<seq<byte>> {
    if |frames| == 0 then []
    else
      var front, last := frames[..|frames| - 1], frames[|frames| - 1];
      TextsOf(front) + if last.opcode == TEXT then [last.payload] else []
  }

  function Encoded(encode: Encoding, texts: seq<Pending>): (r: seq<seq<byte>>)
    ensures |r| == |texts| && forall i :: 0 <= i < |r| ==> r[i] == encode(texts[i].message)
  {
    seq(|texts|, i requires 0 <= i < |texts| => encode(texts[i].message))
  }

  /** The text frames written are the messages of the calls whose frames went out, in order. */
  predicate TextsFit(encode: Encoding, l: Link) {
    TextsOf(l.wire.sent) == Encoded(encode, l.texts)
  }

  lemma StepKeepsTexts(encode: Encoding, l: Link, a: LinkAction)
    requires Fits(encode, l) && TextsFit(encode, l) && LinkEnabled(encode, l, a)
    ensures TextsFit(encode, LinkApply(encode, l, a))
  {
    if a.OnWire? && a.w.Finish? {
      var g := a.w.who;
      var frame := l.wire.writers[g].frame;
      assert FrameFits(encode, l.wire.writers[g], l.calls[g]);
      assert (l.wire.sent + [frame])[..|l.wire.sent|] == l.wire.sent;
      assert TextsOf(l.wire.sent + [frame])
          == TextsOf(l.wire.sent) + if frame.opcode == TEXT then [frame.payload] else [];
    }
  }

  // ---------------------------------------------------------------------------------------------
  // How many
  // ---------------------------------------------------------------------------------------------

  /** Text frames written for a request. */
  function InTexts(texts: seq<Pending>, t: nat): nat {
    if |texts| == 0 then 0 else InTexts(texts[..|texts| - 1], t) + One(texts[|texts| - 1].ticket == Some(t))
  }

  /** `WriteJSON` calls for a request that reported success. */
  function Delivered(writes: seq<Written>, t: nat): nat {
    if |writes| == 0 then 0
    else Delivered(writes[..|writes| - 1], t) + One(writes[|writes| - 1].ticket == Some(t) && writes[|writes| - 1].ok)
  }

  predicate IsSent(call: Option<Pending>, t: nat) {
    call.Some? && call.value.ticket == Some(t) && call.value.sent
  }

  /** Calls under way for a request whose frames are out. */
  function PendingSent(calls: seq<Option<Pending>>, t: nat): nat {
    if |calls| == 0 then 0 else One(IsSent(calls[0], t)) + PendingSent(calls[1..], t)
  }

  /** Every success has put a frame out, and every frame belongs to a call that has ended or is about to. */
  predicate Balanced(l: Link, t: nat) {
    && InTexts(l.texts, t) <= Answers(l.relay.past.writes, t) + PendingSent(l.calls, t)
    && Delivered(l.relay.past.writes, t) + PendingSent(l.calls, t) <= InTexts(l.texts, t)
  }

  lemma {:induction false} PendingUpdated(calls: seq<Option<Pending>>, g: nat, call: Option<Pending>, t: nat)
    requires g < |calls|
    ensures PendingSent(calls[g := call], t) == PendingSent(calls, t) - One(IsSent(calls[g], t)) + One(IsSent(call, t))
  {
    if g == 0 {
      assert calls[g := call][1..] == calls[1..];
    } else {
      assert calls[g := call][1..] == calls[1..][g - 1 := call];
      PendingUpdated(calls[1..], g - 1, call, t);
    }
  }

  lemma WriteIsAppended(s: State, g: nat, ok: bool)
    requires AtWrite(s, g).Some?
    ensures Enabled(s, WriteAction(g, ok))
    ensures Apply(s, WriteAction(g, ok)).past.writes
            == s.past.writes + [Written(AtWrite(s, g).value.0, AtWrite(s, g).value.1, ok)]
  {
  }

  lemma WriteIsRecorded(s: State, g: nat, ok: bool, t: nat)
    requires AtWrite(s, g).Some?
    ensures Enabled(s, WriteAction(g, ok))
    ensures var writes := Apply(s, WriteAction(g, ok)).past.writes;
      var (ticket, message) := AtWrite(s, g).value;
      && Answers(writes, t) == Answers(s.past.writes, t) + One(ticket == Some(t))
      && Delivered(writes, t) == Delivered(s.past.writes, t) + One(ticket == Some(t) && ok)
  {
    var (ticket, message) := AtWrite(s, g).value;
    var w := Written(ticket, message, ok);
    WriteIsAppended(s, g, ok);
    AnswersAppended(s.past.writes, w, t);
    assert (s.past.writes + [w])[..|s.past.writes|] == s.past.writes;
  }

  lemma InnerKeepsWrites(s: State, a: Action)
    requires Enabled(s, a) && !WritesJson(a)
    ensures Apply(s, a).past.writes == s.past.writes
  {
    match a
    case Interrupt =>
    case Main(m) =>
    case Reader(r) =>
    case Worker(i, w) =>
    case Heart(h) =>
  }

  lemma StepKeepsBalanced(encode: Encoding, l: Link, a: LinkAction, t: nat)
    requires Fits(encode, l) && Balanced(l, t) && LinkEnabled(encode, l, a)
    ensures Balanced(LinkApply(encode, l, a), t)
  {
    match a
    case Inner(b) => InnerKeepsWrites(l.relay, b);
    case Start(g, mask) => PendingUpdated(l.calls, g, LinkApply(encode, l, a).calls[g], t);
    case OnWire(w) =>
      if w.Finish? && l.calls[w.who].Some? {
        FinishKeepsBalanced(encode, l, w.who, t);
      }
    case Control(g, frame) =>
    case End(g, ok) =>
      assert CallFits(l.relay, l.calls, g);
      WriteIsRecorded(l.relay, g, ok, t);
      PendingUpdated(l.calls, g, None, t);
  }

  lemma FinishKeepsBalanced(encode: Encoding, l: Link, g: nat, t: nat)
    requires Fits(encode, l) && Balanced(l, t)
    requires LinkEnabled(encode, l, OnWire(W.Finish(g))) && l.calls[g].Some?
    ensures Balanced(LinkApply(encode, l, OnWire(W.Finish(g))), t)
  {
    var done := l.calls[g].value.(sent := true);
    assert FrameFits(encode, l.wire.writers[g], l.calls[g]);
    PendingUpdated(l.calls, g, Some(done), t);
    TextsAppended(l.texts, done, t);
  }

  lemma TextsAppended(texts: seq<Pending>, p: Pending, t: nat)
    ensures InTexts(texts + [p], t) == InTexts(texts, t) + One(p.ticket == Some(t))
  {
    assert (texts + [p])[..|texts|] == texts;
  }

  // ---------------------------------------------------------------------------------------------
  // What the text frames say
  // ---------------------------------------------------------------------------------------------

  predicate IsWritten(writes: seq<Written>, p: Pending) {
    exists k :: 0 <= k < |writes| && writes[k].ticket == p.ticket && writes[k].message == p.message
  }

  predicate IsUnderWay(calls: seq<Option<Pending>>, p: Pending) {
    exists g :: 0 <= g < |calls| && calls[g] == Some(p)
  }

  /** A frame that is out belongs to a call that has ended or to one under way. */
  predicate Sourced(l: Link, p: Pending) {
    p.sent && (IsWritten(l.relay.past.writes, p) || IsUnderWay(l.calls, p))
  }

  predicate TextsSourced(l: Link) {
    forall i :: 0 <= i < |l.texts| ==> Sourced(l, l.texts[i])
  }

  lemma FinishKeepsSourced(encode: Encoding, l: Link, g: nat, p: Pending)
    requires Fits(encode, l) && Sourced(l, p)
    requires LinkEnabled(encode, l, OnWire(W.Finish(g))) && l.calls[g].Some?
    ensures Sourced(LinkApply(encode, l, OnWire(W.Finish(g))), p)
  {
    var t := LinkApply(encode, l, OnWire(W.Finish(g)));
    assert FrameFits(encode, l.wire.writers[g], l.calls[g]);
    if IsUnderWay(l.calls, p) {
      var h :| 0 <= h < |l.calls| && l.calls[h] == Some(p);
      assert t.calls[h] == Some(p);
    }
  }

  lemma EndKeepsSourced(encode: Encoding, l: Link, g: nat, ok: bool, p: Pending)
    requires Fits(encode, l) && Sourced(l, p) && LinkEnabled(encode, l, End(g, ok))
    ensures Sourced(LinkApply(encode, l, End(g, ok)), p)
  {
    var t := LinkApply(encode, l, End(g, ok));
    var (ticket, message) := AtWrite(l.relay, g).value;
    var writes := l.relay.past.writes;
    WriteIsAppended(l.relay, g, ok);
    if IsWritten(writes, p) {
      var k :| 0 <= k < |writes| && writes[k].ticket == p.ticket && writes[k].message == p.message;
      assert t.relay.past.writes[k] == writes[k];
    } else {
      var h :| 0 <= h < |l.calls| && l.calls[h] == Some(p);
      if h == g {
        assert CallFits(l.relay, l.calls, g);
        assert t.relay.past.writes[|writes|] == Written(p.ticket, p.message, ok);
      } else {
        assert t.calls[h] == Some(p);
      }
    }
  }

  lemma StartKeepsSourced(encode: Encoding, l: Link, g: nat, mask: Mask, p: Pending)
    requires Sourced(l, p) && LinkEnabled(encode, l, Start(g, mask))
    ensures Sourced(LinkApply(encode, l, Start(g, mask)), p)
  {
    if IsUnderWay(l.calls, p) {
      var h :| 0 <= h < |l.calls| && l.calls[h] == Some(p);
      assert LinkApply(encode, l, Start(g, mask)).calls[h] == Some(p);
    }
  }

  lemma KeepsSourced(encode: Encoding, l: Link, a: LinkAction, p: Pending)
    requires Fits(encode, l) && Sourced(l, p) && LinkEnabled(encode, l, a)
    ensures Sourced(LinkApply(encode, l, a), p)
  {
    match a
    case Inner(b) => InnerKeepsWrites(l.relay, b);
    case Start(g, mask) => StartKeepsSourced(encode, l, g, mask, p);
    case OnWire(w) =>
      if w.Finish? && l.calls[w.who].Some? {
        FinishKeepsSourced(encode, l, w.who, p);
      }
    case Control(g, frame) =>
    case End(g, ok) => EndKeepsSourced(encode, l, g, ok, p);
  }

  lemma StepKeepsSourced(encode: Encoding, l: Link, a: LinkAction)
    requires Fits(encode, l) && TextsSourced(l) && LinkEnabled(encode, l, a)
    ensures TextsSourced(LinkApply(encode, l, a))
  {
    var t := LinkApply(encode, l, a);
    forall i | 0 <= i < |t.texts|
      ensures Sourced(t, t.texts[i])
    {
      if i < |l.texts| {
        assert t.texts[i] == l.texts[i];
        KeepsSourced(encode, l, a, l.texts[i]);
      } else {
        assert t.calls[a.w.who] == Some(t.texts[i]);
      }
    }
  }

  /** A message for a request is a response under its identifier: a refusal, or what `execute` makes of its call. */
  predicate SaysSo(h: Past, ticket: Option<nat>, message: Message) {
    && MessageOk(h.decoded, ticket, message)
    && (ticket.Some? ==>
          if ticket.value in h.accepted then Truthful(h, ticket.value, message.response)
          else IsRefusal(message.response))
  }

  lemma WriterSaysSo(s: State, g: nat)
    requires Inv(s) && Tells(s) && AtWrite(s, g).Some?
    ensures SaysSo(s.past, AtWrite(s, g).value.0, AtWrite(s, g).value.1)
  {
    if g >= 3 {
      AnswerIsOk(s, g - 3);
      assert WorkerTells(s.past, s.workers[g - 3]);
    }
  }

  lemma WrittenSaysSo(s: State, k: nat)
    requires Inv(s) && Tells(s) && k < |s.past.writes|
    ensures SaysSo(s.past, s.past.writes[k].ticket, s.past.writes[k].message)
  {
    assert WriteTells(s.past, s.past.writes[k]);
  }

  lemma TextSaysSo(encode: Encoding, l: Link, i: nat)
    requires LinkInv(encode, l) && i < |l.texts|
    ensures SaysSo(l.relay.past, l.texts[i].ticket, l.texts[i].message)
  {
    var p, writes := l.texts[i], l.relay.past.writes;
    assert Sourced(l, p);
    if IsWritten(writes, p) {
      var k :| 0 <= k < |writes| && writes[k].ticket == p.ticket && writes[k].message == p.message;
      WrittenSaysSo(l.relay, k);
    } else {
      var g :| 0 <= g < |l.calls| && l.calls[g] == Some(p);
      assert CallFits(l.relay, l.calls, g);
      WriterSaysSo(l.relay, g);
    }
  }

  // ---------------------------------------------------------------------------------------------
  // All runs
  // ---------------------------------------------------------------------------------------------

  ghost predicate LinkInv(encode: Encoding, l: Link) {
    && Inv(l.relay) && W.Inv(l.wire)
    && Fits(encode, l) && TextsFit(encode, l)
    && Tells(l.relay) && TextsSourced(l)
    && forall t: nat :: Balanced(l, t)
  }

  lemma BeginHolds(encode: Encoding, config: Config)
    requires config.Usable()
    ensures LinkInv(encode, Begin(config))
  {
    InitInv(config);
    forall t: nat
      ensures Balanced(Begin(config), t)
    {
      NothingPending(NoCalls(config.concurrency + 3), t);
    }
  }

  lemma {:induction false} NothingPending(calls: seq<Option<Pending>>, t: nat)
    requires forall i :: 0 <= i < |calls| ==> calls[i] == None
    ensures PendingSent(calls, t) == 0
  {
    if |calls| > 0 {
      NothingPending(calls[1..], t);
    }
  }

  /** The parts of a link go on by their own steps. */
  lemma PartsKeepInv(encode: Encoding, l: Link, a: LinkAction)
    requires Inv(l.relay) && Tells(l.relay) && W.Inv(l.wire) && LinkEnabled(encode, l, a)
    ensures var t := LinkApply(encode, l, a); Inv(t.relay) && Tells(t.relay) && W.Inv(t.wire)
  {
    match a
    case Inner(b) =>
      StepKeepsInv(l.relay, b);
      StepKeepsTells(l.relay, b);
    case Start(g, mask) =>
      W.StepKeepsInv(l.wire, W.Call(g, W.Outgoing(TEXT, encode(AtWrite(l.relay, g).value.1), mask)));
    case OnWire(w) => W.StepKeepsInv(l.wire, w);
    case Control(g, frame) => W.StepKeepsInv(l.wire, W.Call(g, frame));
    case End(g, ok) =>
      AtWriteIsEnabled(l.relay, g, ok);
      StepKeepsInv(l.relay, WriteAction(g, ok));
      StepKeepsTells(l.relay, WriteAction(g, ok));
  }

  lemma StepKeepsLink(encode: Encoding, l: Link, a: LinkAction)
    requires LinkInv(encode, l) && LinkEnabled(encode, l, a)
    ensures LinkInv(encode, LinkApply(encode, l, a))
  {
    PartsKeepInv(encode, l, a);
    StepKeepsFits(encode, l, a);
    StepKeepsTexts(encode, l, a);
    StepKeepsSourced(encode, l, a);
    forall t: nat
      ensures Balanced(LinkApply(encode, l, a), t)
    {
      assert Balanced(l, t);
      StepKeepsBalanced(encode, l, a, t);
    }
  }

  lemma {:induction false} RunKeepsLink(encode: Encoding, l: Link, schedule: seq<LinkAction>)
    requires LinkInv(encode, l)
    ensures LinkInv(encode, LinkRun(encode, l, schedule))
    decreases |schedule|
  {
    if |schedule| == 0 {
    } else if LinkEnabled(encode, l, schedule[0]) {
      StepKeepsLink(encode, l, schedule[0]);
      RunKeepsLink(encode, LinkApply(encode, l, schedule[0]), schedule[1..]);
    } else {
      RunKeepsLink(encode, l, schedule[1..]);
    }
  }

  // ---------------------------------------------------------------------------------------------
  // What the gateway sees
  // ---------------------------------------------------------------------------------------------

  /** A call under way for a request is made by the goroutine that holds it. */
  lemma {:induction false} CallersHold(calls: seq<Option<Pending>>, ws: seq<WorkerPC>, t: nat)
    requires forall i :: 0 <= i < |calls| && calls[i].Some? ==>
               i < |ws| && ws[i].Answering? && calls[i].value.ticket == Some(ws[i].job.ticket)
    ensures PendingSent(calls, t) <= WithWorkers(ws, t)
  {
    if |calls| > 0 {
      if |ws| > 0 {
        CallersHold(calls[1..], ws[1..], t);
      } else {
        NothingPending(calls, t);
      }
    }
  }

  lemma PendingFrom(calls: seq<Option<Pending>>, g: nat, t: nat)
    requires g < |calls|
    ensures PendingSent(calls[g..], t) == One(IsSent(calls[g], t)) + PendingSent(calls[g + 1..], t)
  {
    assert calls[g..][1..] == calls[g + 1..];
  }

  lemma PendingIsHeld(encode: Encoding, l: Link, t: nat)
    requires Fits(encode, l) && |l.calls| >= 3
    ensures PendingSent(l.calls, t) <= One(ReaderHolds(l.relay.reader, t)) + WithWorkers(l.relay.workers, t)
  {
    var calls := l.calls;
    assert CallFits(l.relay, calls, 0) && CallFits(l.relay, calls, 1) && CallFits(l.relay, calls, 2);
    forall i | 0 <= i < |calls[3..]| && calls[3..][i].Some?
      ensures i < |l.relay.workers| && l.relay.workers[i].Answering?
        && calls[3..][i].value.ticket == Some(l.relay.workers[i].job.ticket)
    {
      assert CallFits(l.relay, calls, i + 3);
    }
    CallersHold(calls[3..], l.relay.workers, t);
    PendingFrom(calls, 0, t);
    PendingFrom(calls, 1, t);
    PendingFrom(calls, 2, t);
    assert calls[0..] == calls;
  }

  /** The payloads of the text frames that a receiver decodes. */
  function Payloads(frames: seq<Frame>): seq<seq<byte>> {
    if |frames| == 0 then []
    else
      var front, last := frames[..|frames| - 1], frames[|frames| - 1];
      Payloads(front) + if last.opcode == TEXT then [last.payload] else []
  }

  lemma {:induction false} PayloadsArePlain(frames: seq<W.Outgoing>)
    ensures Payloads(W.Plains(frames)) == TextsOf(frames)
  {
    if |frames| > 0 {
      PayloadsArePlain(frames[..|frames| - 1]);
      W.PlainsOfLast(frames);
      assert W.Plains(frames)[..|frames| - 1] == W.Plains(frames[..|frames| - 1]);
    }
  }

  lemma {:induction false} CallsAreCounted(encode: Encoding, l: Link, schedule: seq<LinkAction>)
    requires |l.calls| >= 3
    ensures |LinkRun(encode, l, schedule).calls| >= 3
    decreases |schedule|
  {
    if |schedule| > 0 {
      var a := schedule[0];
      CallsAreCounted(encode, if LinkEnabled(encode, l, a) then LinkApply(encode, l, a) else l, schedule[1..]);
    }
  }

  /**
   Whatever goroutines write at the same time, in whatever pieces: as long as no write breaks off inside a frame, and
   whenever none is under way, the text frames that the gateway decodes are the encodings of exactly the messages whose
   frames went out. Among them is at most one for each request, and one for each `WriteJSON` that succeeded; it is a
   response under that request's identifier, and for an accepted request it is what `execute` makes of that request and
   of what the `Forward` call made for it returned.
   */
  lemma GatewaySeesResponses(encode: Encoding, config: Config, schedule: seq<LinkAction>)
    requires config.Usable()
    ensures var l := LinkRun(encode, Begin(config), schedule);
      && (l.wire.damage.None? && l.wire.mutex.None? ==> Payloads(W.DecodeAll(l.wire.wire)) == Encoded(encode, l.texts))
      && (forall t: nat :: Delivered(l.relay.past.writes, t) <= InTexts(l.texts, t) <= 1)
      && (forall i :: 0 <= i < |l.texts| ==> SaysSo(l.relay.past, l.texts[i].ticket, l.texts[i].message))
  {
    BeginHolds(encode, config);
    RunKeepsLink(encode, Begin(config), schedule);
    CallsAreCounted(encode, Begin(config), schedule);
    LinkIsSeen(encode, LinkRun(encode, Begin(config), schedule));
  }

  lemma LinkIsSeen(encode: Encoding, l: Link)
    requires LinkInv(encode, l) && |l.calls| >= 3
    ensures l.wire.damage.None? && l.wire.mutex.None? ==> Payloads(W.DecodeAll(l.wire.wire)) == Encoded(encode, l.texts)
    ensures forall t: nat :: Delivered(l.relay.past.writes, t) <= InTexts(l.texts, t) <= 1
    ensures forall i :: 0 <= i < |l.texts| ==> SaysSo(l.relay.past, l.texts[i].ticket, l.texts[i].message)
  {
    GatewayDecodes(encode, l);
    forall t: nat
      ensures Delivered(l.relay.past.writes, t) <= InTexts(l.texts, t) <= 1
    {
      OneResponse(encode, l, t);
    }
    forall i | 0 <= i < |l.texts|
      ensures SaysSo(l.relay.past, l.texts[i].ticket, l.texts[i].message)
    {
      TextSaysSo(encode, l, i);
    }
  }

  lemma GatewayDecodes(encode: Encoding, l: Link)
    requires W.Inv(l.wire) && TextsFit(encode, l)
    ensures l.wire.damage.None? && l.wire.mutex.None? ==> Payloads(W.DecodeAll(l.wire.wire)) == Encoded(encode, l.texts)
  {
    if l.wire.damage.None? && l.wire.mutex.None? {
      DecodedWhenFree(l.wire);
      PayloadsArePlain(l.wire.sent);
    }
  }

  lemma OneResponse(encode: Encoding, l: Link, t: nat)
    requires LinkInv(encode, l) && |l.calls| >= 3
    ensures Delivered(l.relay.past.writes, t) <= InTexts(l.texts, t) <= 1
  {
    assert Balanced(l, t);
    PendingIsHeld(encode, l, t);
    assert Places(l.relay, t) <= 1;
  }

  lemma DecodedWhenFree(s: W.State)
    requires W.Inv(s) && s.damage.None? && s.mutex.None?
    ensures W.DecodeAll(s.wire) == W.Plains(s.sent)
  {
    W.DecodeAllOfBytes(s.sent, []);
  }
}
