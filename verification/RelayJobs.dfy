/** What jobs, responses and the written messages are made of, and the order in which requests move. */
module RelayJobs {
  import opened Wrappers
  import opened Protocol
  import opened Execution
  import opened RelaySteps
  import opened RelayPlaces
  import opened RelayInvariants

  // ---------------------------------------------------------------------------------------------
  // Jobs are what was decoded, checked and given a deadline
  // ---------------------------------------------------------------------------------------------

  function Max(a: int, b: int): int {
    if a > b then a else b
  }

  /** What must hold of a request that is going to be forwarded. */
  predicate Dispatchable(config: Config, job: Job) {
    && Acceptable(job.request, job.started, config.maxRequestBytes)
    && job.started < job.deadline <= job.started + Max(5 * MINUTE, config.defaultTimeout)
    && job.deadline == (if job.request.deadlineMs != 0 then job.request.deadlineMs * MILLISECOND
                        else job.started + config.defaultTimeout)
  }

  predicate JobOk(config: Config, decoded: seq<Request>, job: Job) {
    job.ticket < |decoded| && job.request == decoded[job.ticket] && Dispatchable(config, job)
  }

  /** The identifier under which a request is answered. */
  function VisibleId(request: Request): string {
    if ValidId(request.id) then request.id else "invalid"
  }

  /** The one message that may be written for a request is a response under its identifier. */
  predicate MessageOk(decoded: seq<Request>, ticket: Option<nat>, message: Message) {
    match ticket
    case None => message.Hello? || message.Pong?
    case Some(t) => t < |decoded| && message.Reply? && message.response.id == VisibleId(decoded[t])
  }

  predicate ReaderOk(config: Config, decoded: seq<Request>, r: ReaderPC) {
    && ((r.Checking? || r.Registering? || r.Offering? || r.Unregistering? || r.Withdrawing? || r.Abandoning?)
        ==> JobOk(config, decoded, r.job))
    && (r.Replying? ==> MessageOk(decoded, r.ticket, r.message))
  }

  predicate WorkerOk(config: Config, decoded: seq<Request>, w: WorkerPC) {
    && (!w.Idle? && !w.Exited? ==> JobOk(config, decoded, w.job))
    && (w.Deleting? || w.Answering? ==> w.response.id == w.job.request.id)
  }

  predicate JobsOk(s: State) {
    && ReaderOk(s.config, s.past.decoded, s.reader)
    && (forall i :: 0 <= i < |s.shared.jobs| ==> JobOk(s.config, s.past.decoded, s.shared.jobs[i]))
    && (forall i :: 0 <= i < |s.workers| ==> WorkerOk(s.config, s.past.decoded, s.workers[i]))
    && (s.past.dropped.Some? ==> JobOk(s.config, s.past.decoded, s.past.dropped.value))
    && (forall i :: 0 <= i < |s.past.writes| ==>
          MessageOk(s.past.decoded, s.past.writes[i].ticket, s.past.writes[i].message))
  }

  lemma AdmittedIsOk(config: Config, decoded: seq<Request>, request: Request, now: int)
    requires config.Usable()
    ensures ReaderOk(config, decoded + [request], Admit(config, |decoded|, request, now))
  {
    AcceptedExactlyWhen(request, now, config.maxRequestBytes);
  }

  lemma DecodingKeepsOk(s: State, more: seq<Request>)
    requires JobsOk(s)
    ensures JobsOk(s.(past := s.past.(decoded := s.past.decoded + more)))
  {
  }

  lemma ReaderKeepsJobs(s: State, a: ReaderAction)
    requires Shape(s) && JobsOk(s) && ReaderEnabled(s, a)
    ensures JobsOk(ReaderStep(s, a))
  {
    if a.Reads? {
      var r := Receive(s.config, |s.past.decoded|, a.inbound, a.now);
      DecodingKeepsOk(s, r.requests);
      ReceiveCases(s.config, |s.past.decoded|, a.inbound, a.now);
      if |r.requests| == 1 {
        AdmittedIsOk(s.config, s.past.decoded, r.requests[0], a.now);
        assert r.requests == [r.requests[0]];
      }
    } else if a.Sends? || a.Replies? {
    } else {
      ReaderKeepsJobsInHand(s, a);
    }
  }

  lemma NextReaderIsOk(s: State, a: ReaderAction)
    requires JobsOk(s) && ReaderEnabled(s, a)
    requires !a.Reads? && !a.Sends? && !a.Replies?
    ensures ReaderOk(s.config, s.past.decoded, ReaderStep(s, a).reader)
  {
    match a {
      case Checks =>
        RefusalIsOk(s.config, s.past.decoded, s.reader.job, "duplicate_request", "request id is already active");
      case Withdraws => RefusalIsOk(s.config, s.past.decoded, s.reader.job, "busy", "local companion queue is full");
      case _ =>
    }
  }

  lemma RefusalIsOk(config: Config, decoded: seq<Request>, job: Job, code: string, text: string)
    requires JobOk(config, decoded, job)
    ensures MessageOk(decoded, Some(job.ticket), Refusal(job.request, code, text))
  {
  }

  lemma ReaderKeepsJobsInHand(s: State, a: ReaderAction)
    requires JobsOk(s) && ReaderEnabled(s, a)
    requires !a.Reads? && !a.Sends? && !a.Replies?
    ensures JobsOk(ReaderStep(s, a))
  {
    NextReaderIsOk(s, a);
    var t := ReaderStep(s, a);
    assert t.shared.jobs == s.shared.jobs && t.workers == s.workers && t.config == s.config;
    assert t.past.writes == s.past.writes && t.past.decoded == s.past.decoded;
  }

  lemma ExecuteKeepsId(request: Request, outcome: Result<LocalApi.Reply, LocalApi.ForwardError>)
    requires ValidId(request.id)
    ensures Execute(request, outcome).id == request.id
  {
  }

  lemma NextWorkerIsOk(s: State, i: nat, a: WorkerAction)
    requires JobsOk(s) && WorkerEnabled(s, i, a)
    ensures WorkerOk(s.config, s.past.decoded, NextWorker(s, i, a))
  {
    var w := s.workers[i];
    assert WorkerOk(s.config, s.past.decoded, w);
    if a.Resumes? {
      ExecuteKeepsId(w.job.request, a.outcome);
    }
  }

  lemma AnswerIsOk(s: State, i: nat)
    requires JobsOk(s) && i < |s.workers| && s.workers[i].Answering?
    ensures MessageOk(s.past.decoded, Some(s.workers[i].job.ticket), Reply(s.workers[i].response))
  {
    assert WorkerOk(s.config, s.past.decoded, s.workers[i]);
  }

  lemma WorkerKeepsJobs(s: State, i: nat, a: WorkerAction)
    requires JobsOk(s) && WorkerEnabled(s, i, a)
    ensures JobsOk(WorkerStep(s, i, a))
  {
    NextWorkerIsOk(s, i, a);
    var workers := s.workers[i := NextWorker(s, i, a)];
    assert forall j :: 0 <= j < |workers| ==> WorkerOk(s.config, s.past.decoded, workers[j]);
    if a.Responds? {
      AnswerIsOk(s, i);
    } else if a.Takes? {
      assert forall j :: 0 <= j < |s.shared.jobs[1..]| ==> s.shared.jobs[1..][j] == s.shared.jobs[j + 1];
    }
  }

  lemma MainKeepsJobs(s: State, a: MainAction)
    requires Shape(s) && JobsOk(s) && MainEnabled(s, a)
    ensures JobsOk(MainStep(s, a))
  {
    if a.Greets? {
      GreetingKeepsJobs(s, a.ok);
    }
  }

  lemma GreetingKeepsJobs(s: State, ok: bool)
    requires Shape(s) && JobsOk(s) && s.main.Greeting?
    ensures JobsOk(MainStep(s, Greets(ok)))
  {
    var t := MainStep(s, Greets(ok));
    assert t.past.writes == s.past.writes + [t.past.writes[|s.past.writes|]];
    assert forall i :: 0 <= i < |t.workers| ==> WorkerOk(t.config, t.past.decoded, t.workers[i]);
  }

  lemma HeartKeepsJobs(s: State, a: HeartAction)
    requires JobsOk(s) && HeartEnabled(s, a)
    ensures JobsOk(HeartStep(s, a))
  {
  }

  lemma KeepsJobs(s: State, a: Action)
    requires Shape(s) && JobsOk(s) && Enabled(s, a)
    ensures JobsOk(Apply(s, a))
  {
    match a
    case Interrupt =>
    case Main(m) => MainKeepsJobs(s, m);
    case Reader(r) => ReaderKeepsJobs(s, r);
    case Worker(i, w) => WorkerKeepsJobs(s, i, w);
    case Heart(h) => HeartKeepsJobs(s, h);
  }

  // ---------------------------------------------------------------------------------------------
  // Order: first decoded, first accepted, first dequeued
  // ---------------------------------------------------------------------------------------------

  predicate Increasing(ts: seq<nat>) {
    forall i, j :: 0 <= i < j < |ts| ==> ts[i] < ts[j]
  }

  predicate AllBelow(ts: seq<nat>, bound: int) {
    forall i :: 0 <= i < |ts| ==> ts[i] < bound
  }

  /** The reader has a request that it may yet queue; it is the last one decoded. */
  predicate Undecided(r: ReaderPC) {
    r.Checking? || r.Registering? || r.Offering?
  }

  predicate Ordered(s: State) {
    && s.past.accepted == s.past.dequeued + Tickets(s.shared.jobs)
    && Increasing(s.past.accepted)
    && AllBelow(s.past.accepted, |s.past.decoded| - One(Undecided(s.reader)))
    && (Undecided(s.reader) ==> s.reader.job.ticket == |s.past.decoded| - 1)
  }

  lemma ReaderKeepsOrdered(s: State, a: ReaderAction)
    requires Ordered(s) && ReaderEnabled(s, a)
    ensures Ordered(ReaderStep(s, a))
  {
    if a.Reads? {
      ReadCases(s, a.inbound, a.now);
    } else if a.Sends? {
      TicketsAppended(s.shared.jobs, s.reader.job);
      assert s.past.accepted + [s.reader.job.ticket]
          == s.past.dequeued + (Tickets(s.shared.jobs) + [s.reader.job.ticket]);
    } else {
      ReaderKeepsOrderedInHand(s, a);
    }
  }

  lemma ReaderKeepsOrderedInHand(s: State, a: ReaderAction)
    requires Ordered(s) && ReaderEnabled(s, a)
    requires !a.Reads? && !a.Sends?
    ensures Ordered(ReaderStep(s, a))
  {
    var t := ReaderStep(s, a);
    assert t.past.accepted == s.past.accepted && t.past.dequeued == s.past.dequeued;
    assert t.shared.jobs == s.shared.jobs && t.past.decoded == s.past.decoded;
    assert Undecided(t.reader) ==> Undecided(s.reader) && t.reader.job == s.reader.job;
  }

  lemma WorkerKeepsOrdered(s: State, i: nat, a: WorkerAction)
    requires Ordered(s) && WorkerEnabled(s, i, a)
    ensures Ordered(WorkerStep(s, i, a))
  {
    if a.Takes? {
      TicketsTaken(s.shared.jobs);
      assert (s.past.dequeued + [s.shared.jobs[0].ticket]) + Tickets(s.shared.jobs[1..])
          == s.past.dequeued + Tickets(s.shared.jobs);
    }
  }

  lemma MainKeepsOrdered(s: State, a: MainAction)
    requires Shape(s) && Ordered(s) && MainEnabled(s, a)
    ensures Ordered(MainStep(s, a))
  {
    var t := MainStep(s, a);
    assert t.past.accepted == s.past.accepted && t.past.dequeued == s.past.dequeued;
    assert t.shared.jobs == s.shared.jobs && t.past.decoded == s.past.decoded;
    if a.Greets? {
      assert s.past.accepted == [] && !Undecided(t.reader);
    } else {
      assert t.reader == s.reader;
    }
  }

  lemma HeartKeepsOrdered(s: State, a: HeartAction)
    requires Ordered(s) && HeartEnabled(s, a)
    ensures Ordered(HeartStep(s, a))
  {
  }

  lemma KeepsOrdered(s: State, a: Action)
    requires Shape(s) && Ordered(s) && Enabled(s, a)
    ensures Ordered(Apply(s, a))
  {
    match a
    case Interrupt =>
    case Main(m) => MainKeepsOrdered(s, m);
    case Reader(r) => ReaderKeepsOrdered(s, r);
    case Worker(i, w) => WorkerKeepsOrdered(s, i, w);
    case Heart(h) => HeartKeepsOrdered(s, h);
  }
}
