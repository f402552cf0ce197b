/** What every step of every schedule keeps, and the proofs that it does. */
module RelayInvariants {
  import opened Wrappers
  import opened Protocol
  import opened RelaySteps
  import opened RelayPlaces

  /** Either no request was decoded and none is in hand, or one was and it is in hand under the next ticket. */
  lemma ReceiveCases(config: Config, ticket: nat, inbound: Inbound, now: int)
    ensures var r := Receive(config, ticket, inbound, now);
      || (r.requests == [] && (r.next.Failing? || r.next.LookingUp? || IsPong(r.next)))
      || (|r.requests| == 1 && r.next == Admit(config, ticket, r.requests[0], now))
  {
  }

  predicate IsPong(r: ReaderPC) {
    r.Replying? && r.ticket.None? && r.message.Pong?
  }

  /** A decoded request is refused under its ticket, or becomes a job under it. */
  lemma AdmitCases(config: Config, ticket: nat, request: Request, now: int)
    ensures var r := Admit(config, ticket, request, now);
      || (r.Replying? && r.ticket == Some(ticket))
      || (r.Checking? && r.job.ticket == ticket && r.job.request == request)
  {
  }

  lemma ReadCases(s: State, inbound: Inbound, now: int)
    ensures var r := Receive(s.config, |s.past.decoded|, inbound, now);
      || (r.requests == [] && (r.next.Failing? || r.next.LookingUp? || IsPong(r.next)))
      || (|r.requests| == 1 && r.next.Replying? && r.next.ticket == Some(|s.past.decoded|))
      || (|r.requests| == 1 && r.next.Checking?
          && r.next.job.ticket == |s.past.decoded| && r.next.job.request == r.requests[0])
  {
    ReceiveCases(s.config, |s.past.decoded|, inbound, now);
    var r := Receive(s.config, |s.past.decoded|, inbound, now);
    if |r.requests| == 1 {
      AdmitCases(s.config, |s.past.decoded|, r.requests[0], now);
    }
  }

  // ---------------------------------------------------------------------------------------------
  // Life cycle: channels, flags and the phases of the shutdown
  // ---------------------------------------------------------------------------------------------

  /** Before the hello is out, and forever if it fails, there is nothing but the main goroutine. */
  predicate Alone(s: State) {
    && s.heart.Resting? && s.workers == [] && s.shared.jobs == [] && s.past.decoded == [] && s.past.accepted == []
    && s.past.heard == [] && s.past.rivals == map[] && s.past.pings == []
    && s.past.registered == {} && s.past.dequeued == [] && s.past.forwarded == [] && s.past.outcomes == map[]
    && s.shared.cancellations == map[] && s.past.dropped.None?
    && s.shared.readErrors == [] && s.shared.writeErrors == []
    && !s.shared.jobsClosed
    && s.shared.canceled == {} && s.past.targeted == {}
    && ((s.main.Greeting? && s.past.writes == [])
        || (s.main.Finished? && |s.past.writes| == 1
            && s.past.writes[0].ticket.None? && s.past.writes[0].message.Hello?))
  }

  predicate Shape(s: State) {
    && s.config.Usable()
    && (s.reader.NotStarted? ==> Alone(s))
    && (!s.reader.NotStarted? ==> !s.heart.Resting? && |s.workers| == s.config.concurrency && Rank(s.main) <= 8)
    && |s.shared.jobs| <= s.config.queueSize
    && |s.shared.readErrors| <= 1 && |s.shared.writeErrors| <= 1
  }

  /** The reader reports at most one error, as its last act; until then its channel is empty. */
  predicate ReaderErrors(s: State) {
    && (!s.reader.Returned? ==> s.shared.readErrors == [])
    && (s.reader.Returned? && s.main.Selecting? ==> |s.shared.readErrors| == 1 || ServeDone(s))
  }

  predicate Phases(s: State) {
    && (Rank(s.main) <= 7 ==> s.result.Some?)
    && (s.shared.closed <==> Rank(s.main) <= 5)
    && (s.shared.closed ==> s.shared.stopped)
    && (!s.reader.NotStarted? ==>
        && (Rank(s.main) <= 6 ==> s.shared.stopped)
        && (Rank(s.main) <= 4 ==> s.reader.Returned?)
        && (s.shared.jobsClosed <==> Rank(s.main) <= 2)
        && (Rank(s.main) <= 1 ==> AllExited(s.workers))
        && (Rank(s.main) == 0 ==> s.heart.Ended?))
    && (forall i :: 0 <= i < |s.workers| && s.workers[i].Exited? ==> s.shared.jobsClosed && s.shared.jobs == [])
  }

  predicate AllExited(ws: seq<WorkerPC>) {
    forall i :: 0 <= i < |ws| ==> ws[i].Exited?
  }

  /** A request is left behind at most once: the session is stopping, and the reader is on its way out. */
  predicate Dropping(s: State) {
    && (s.past.dropped.Some? ==> ServeDone(s) && (s.reader == Abandoning(s.past.dropped.value) || s.reader.Returned?))
    && (s.reader.Abandoning? ==> s.past.dropped == Some(s.reader.job))
  }

  predicate LifeCycle(s: State) {
    Shape(s) && ReaderErrors(s) && Phases(s) && Dropping(s)
  }

  lemma MainKeepsLifeCycle(s: State, a: MainAction)
    requires LifeCycle(s) && MainEnabled(s, a)
    ensures LifeCycle(MainStep(s, a))
  {
    MainKeepsShape(s, a);
    MainKeepsPhases(s, a);
  }

  lemma MainKeepsShape(s: State, a: MainAction)
    requires LifeCycle(s) && MainEnabled(s, a)
    ensures Shape(MainStep(s, a)) && Dropping(MainStep(s, a))
  {
  }

  lemma MainKeepsPhases(s: State, a: MainAction)
    requires LifeCycle(s) && MainEnabled(s, a)
    ensures ReaderErrors(MainStep(s, a)) && Phases(MainStep(s, a))
  {
  }

  lemma ReaderKeepsShape(s: State, a: ReaderAction)
    requires LifeCycle(s) && ReaderEnabled(s, a)
    ensures Shape(ReaderStep(s, a)) && Dropping(ReaderStep(s, a))
  {
    if a.Reads? {
      ReadCases(s, a.inbound, a.now);
    }
  }

  lemma ReaderKeepsPhases(s: State, a: ReaderAction)
    requires LifeCycle(s) && ReaderEnabled(s, a)
    ensures ReaderErrors(ReaderStep(s, a)) && Phases(ReaderStep(s, a))
  {
    if a.Reads? {
      ReadCases(s, a.inbound, a.now);
    }
  }

  lemma WorkerKeepsLifeCycle(s: State, i: nat, a: WorkerAction)
    requires LifeCycle(s) && WorkerEnabled(s, i, a)
    ensures LifeCycle(WorkerStep(s, i, a))
  {
    var t := WorkerStep(s, i, a);
    assert forall j :: 0 <= j < |s.workers| && j != i ==> t.workers[j] == s.workers[j];
  }

  lemma HeartKeepsLifeCycle(s: State, a: HeartAction)
    requires LifeCycle(s) && HeartEnabled(s, a)
    ensures LifeCycle(HeartStep(s, a))
  {
  }

  lemma KeepsLifeCycle(s: State, a: Action)
    requires LifeCycle(s) && Enabled(s, a)
    ensures LifeCycle(Apply(s, a))
  {
    match a
    case Interrupt =>
    case Main(m) => MainKeepsLifeCycle(s, m);
    case Reader(r) =>
      ReaderKeepsShape(s, r);
      ReaderKeepsPhases(s, r);
    case Worker(i, w) => WorkerKeepsLifeCycle(s, i, w);
    case Heart(h) => HeartKeepsLifeCycle(s, h);
  }

  // ---------------------------------------------------------------------------------------------
  // Conservation: every decoded request is in exactly one place
  // ---------------------------------------------------------------------------------------------

  ghost predicate Conserved(s: State) {
    forall t: nat :: Places(s, t) == One(t < |s.past.decoded|)
  }

  lemma DecodingMoves(s: State, inbound: Inbound, now: int, t: nat)
    requires s.reader.Reading?
    ensures var s' := ReaderStep(s, Reads(inbound, now));
      && Places(s', t) == Places(s, t) + One(|s'.past.decoded| > |s.past.decoded| && t == |s.past.decoded|)
      && |s.past.decoded| <= |s'.past.decoded| <= |s.past.decoded| + 1
  {
    ReadCases(s, inbound, now);
  }

  /** A step moves a request from place to place; only decoding adds one. */
  lemma ReaderMoves(s: State, a: ReaderAction, t: nat)
    requires LifeCycle(s) && ReaderEnabled(s, a)
    ensures var s' := ReaderStep(s, a);
      && Places(s', t) == Places(s, t) + One(|s'.past.decoded| > |s.past.decoded| && t == |s.past.decoded|)
      && |s.past.decoded| <= |s'.past.decoded| <= |s.past.decoded| + 1
  {
    match a
    case Reads(inbound, now) => DecodingMoves(s, inbound, now, t);
    case Sends => SendingMoves(s, t);
    case Replies(ok) => ReplyingMoves(s, ok, t);
    case _ => ReaderMovesInHand(s, a, t);
  }

  lemma SendingMoves(s: State, t: nat)
    requires ReaderEnabled(s, Sends)
    ensures Places(ReaderStep(s, Sends), t) == Places(s, t) && ReaderStep(s, Sends).past.decoded == s.past.decoded
  {
    InQueueAppended(s.shared.jobs, s.reader.job, t);
  }

  lemma ReplyingMoves(s: State, ok: bool, t: nat)
    requires ReaderEnabled(s, Replies(ok))
    ensures Places(ReaderStep(s, Replies(ok)), t) == Places(s, t)
    ensures ReaderStep(s, Replies(ok)).past.decoded == s.past.decoded
  {
    var w, s' := Written(s.reader.ticket, s.reader.message, ok), ReaderStep(s, Replies(ok));
    assert s'.past.writes == s.past.writes + [w] && s'.past.dropped == s.past.dropped;
    assert s'.shared.jobs == s.shared.jobs && s'.workers == s.workers;
    assert ReaderHolds(s.reader, t) == (w.ticket == Some(t)) && !ReaderHolds(s'.reader, t);
    AnswersAppended(s.past.writes, w, t);
  }

  lemma ReaderMovesInHand(s: State, a: ReaderAction, t: nat)
    requires LifeCycle(s) && ReaderEnabled(s, a)
    requires !a.Reads? && !a.Sends? && !a.Replies?
    ensures Places(ReaderStep(s, a), t) == Places(s, t) && ReaderStep(s, a).past.decoded == s.past.decoded
  {
    var s' := ReaderStep(s, a);
    assert One(ReaderHolds(s'.reader, t)) + One(LeftBehind(s'.past.dropped, t))
        == One(ReaderHolds(s.reader, t)) + One(LeftBehind(s.past.dropped, t));
    assert s'.shared.jobs == s.shared.jobs && s'.workers == s.workers && s'.past.writes == s.past.writes;
  }

  lemma WorkerMoves(s: State, i: nat, a: WorkerAction, t: nat)
    requires WorkerEnabled(s, i, a)
    ensures Places(WorkerStep(s, i, a), t) == Places(s, t) && WorkerStep(s, i, a).past.decoded == s.past.decoded
  {
    match a {
      case Takes => WorkerTakesOne(s, i, t);
      case Responds(ok) => WorkerAnswersOne(s, i, ok, t);
      case _ => WorkerMovesInHand(s, i, a, t);
    }
  }

  lemma WorkerMovesInHand(s: State, i: nat, a: WorkerAction, t: nat)
    requires WorkerEnabled(s, i, a) && !a.Takes? && !a.Responds?
    ensures Places(WorkerStep(s, i, a), t) == Places(s, t) && WorkerStep(s, i, a).past.decoded == s.past.decoded
  {
    var w, s' := NextWorker(s, i, a), WorkerStep(s, i, a);
    assert WorkerHolds(w, t) == WorkerHolds(s.workers[i], t);
    assert s'.shared.jobs == s.shared.jobs && s'.past.writes == s.past.writes && s'.past.dropped == s.past.dropped;
    WithWorkersUpdated(s.workers, i, w, t);
  }

  lemma WorkerTakesOne(s: State, i: nat, t: nat)
    requires WorkerEnabled(s, i, Takes)
    ensures Places(WorkerStep(s, i, Takes), t) == Places(s, t)
  {
    WithWorkersUpdated(s.workers, i, Dispatching(s.shared.jobs[0]), t);
  }

  lemma WorkerAnswersOne(s: State, i: nat, ok: bool, t: nat)
    requires WorkerEnabled(s, i, Responds(ok))
    ensures Places(WorkerStep(s, i, Responds(ok)), t) == Places(s, t)
  {
    var w := s.workers[i];
    WithWorkersUpdated(s.workers, i, NextWorker(s, i, Responds(ok)), t);
    AnswersAppended(s.past.writes, Written(Some(w.job.ticket), Reply(w.response), ok), t);
  }

  lemma MainMoves(s: State, a: MainAction, t: nat)
    requires Shape(s) && MainEnabled(s, a)
    ensures Places(MainStep(s, a), t) == Places(s, t) && MainStep(s, a).past.decoded == s.past.decoded
  {
    if a.Greets? {
      GreetingMoves(s, a, t);
    }
  }

  lemma GreetingMoves(s: State, a: MainAction, t: nat)
    requires Shape(s) && s.main.Greeting? && a.Greets?
    ensures Places(MainStep(s, a), t) == Places(s, t)
  {
    var s' := MainStep(s, a);
    assert Rank(s.main) == 9;
    AnswersAppended(s.past.writes, s'.past.writes[0], t);
    assert s'.past.writes == s.past.writes + [s'.past.writes[0]];
    NoneWithIdle(s'.workers, t);
  }

  lemma KeepsConserved(s: State, a: Action)
    requires LifeCycle(s) && Conserved(s) && Enabled(s, a)
    ensures Conserved(Apply(s, a))
  {
    forall t: nat
      ensures Places(Apply(s, a), t) == One(t < |Apply(s, a).past.decoded|)
    {
      StepMoves(s, a, t);
    }
  }

  lemma StepMoves(s: State, a: Action, t: nat)
    requires LifeCycle(s) && Enabled(s, a) && Places(s, t) == One(t < |s.past.decoded|)
    ensures Places(Apply(s, a), t) == One(t < |Apply(s, a).past.decoded|)
  {
    match a
    case Interrupt =>
    case Main(m) => MainMoves(s, m, t);
    case Reader(r) => ReaderMoves(s, r, t);
    case Worker(i, w) => WorkerMoves(s, i, w, t);
    case Heart(h) => HeartMoves(s, h, t);
  }

  lemma HeartMoves(s: State, a: HeartAction, t: nat)
    requires HeartEnabled(s, a)
    ensures Places(HeartStep(s, a), t) == Places(s, t) && HeartStep(s, a).past.decoded == s.past.decoded
  {
  }
}
