/** Building blocks for runs: a state of the session that listens can be led on to receive and queue a request. */
module RelayRuns {
  import opened Wrappers
  import opened Protocol
  import opened RelaySteps

  function Models(id: string): Request {
    Request("request", id, "GET", "/v1/models", 0, Body(0, false, NullValue))
  }

  function ModelsJob(config: Config, ticket: nat, id: string): Job {
    Job(ticket, Models(id), 0, config.defaultTimeout)
  }

  function Asking(id: string): Inbound {
    Payload(0, Some(Envelope("request", Some(Models(id)), None, None)))
  }

  lemma AskIsReceived(config: Config, ticket: nat, id: string)
    requires config.Usable() && ValidId(id)
    ensures Receive(config, ticket, Asking(id), 0) == Received(Checking(ModelsJob(config, ticket, id)), [Models(id)])
  {
    assert TrimSpace("GET") == "GET";
    assert ToUpper("GET") == "GET";
    assert Acceptable(Models(id), 0, config.maxRequestBytes);
    AcceptedExactlyWhen(Models(id), 0, config.maxRequestBytes);
  }

  /** The reader polls for a message, the queue is empty and nothing is stopping. */
  predicate Listening(s: State) {
    && s.config.Usable() && s.reader.Polling? && s.shared.jobs == []
    && !s.shared.interrupted && !s.shared.stopped && !s.shared.jobsClosed
  }

  lemma Go(s: State, t: State, schedule: seq<Action>, a: Action)
    requires Run(s, schedule) == t && Enabled(t, a)
    ensures Run(s, schedule + [a]) == Apply(t, a)
    decreases |schedule|
  {
    if |schedule| == 0 {
      assert schedule + [a] == [a] && [a][1..] == [];
    } else {
      assert (schedule + [a])[1..] == schedule[1..] + [a];
      Go(Turn(s, schedule[0]), t, schedule[1..], a);
    }
  }

  /** The history after a request has been read. */
  function Asked(s: State, id: string): Past {
    s.past.(heard := s.past.heard + [Heard(Asking(id), 0)], decoded := s.past.decoded + [Models(id)])
  }

  /** The state in which a request with a fresh identifier has been read and registered. */
  function Registered(s: State, id: string): State {
    var job := ModelsJob(s.config, |s.past.decoded|, id);
    s.(reader := Offering(job), shared := s.shared.(cancellations := s.shared.cancellations[id := job.ticket]),
       past := Asked(s, id).(registered := s.past.registered + {job.ticket}))
  }

  /** From any run that listens, a longer one in which a request is about to be offered to the workers. */
  lemma CanRegister(start: State, schedule: seq<Action>, id: string) returns (longer: seq<Action>)
    requires Listening(Run(start, schedule)) && ValidId(id) && id !in Run(start, schedule).shared.cancellations
    ensures Run(start, longer) == Registered(Run(start, schedule), id)
  {
    var s := Run(start, schedule);
    var job := ModelsJob(s.config, |s.past.decoded|, id);
    AskIsReceived(s.config, |s.past.decoded|, id);
    longer := schedule;
    Go(start, s, longer, Reader(Polls));
    longer := longer + [Reader(Polls)];
    Go(start, s.(reader := Reading), longer, Reader(Reads(Asking(id), 0)));
    longer := longer + [Reader(Reads(Asking(id), 0))];
    var read := s.(reader := Checking(job), past := Asked(s, id));
    Go(start, read, longer, Reader(Checks));
    longer := longer + [Reader(Checks)];
    Go(start, read.(reader := Registering(job)), longer, Reader(Registers));
    longer := longer + [Reader(Registers)];
  }

  /** One in which it has been queued. */
  lemma CanQueue(start: State, schedule: seq<Action>, id: string) returns (longer: seq<Action>)
    requires Listening(Run(start, schedule)) && ValidId(id) && id !in Run(start, schedule).shared.cancellations
    ensures var s, t := Run(start, schedule), Run(start, longer);
      var job := ModelsJob(s.config, |s.past.decoded|, id);
      && t == Registered(s, id).(reader := Polling, shared := t.shared, past := t.past)
      && t.shared == Registered(s, id).shared.(jobs := [job])
      && t.past == Registered(s, id).past.(accepted := s.past.accepted + [job.ticket])
  {
    longer := CanRegister(start, schedule, id);
    Go(start, Run(start, longer), longer, Reader(Sends));
    longer := longer + [Reader(Sends)];
    var job := Registered(Run(start, schedule), id).reader.job;
    assert [] + [job] == [job];
  }

  /** And one in which a worker that was idle has received it. */
  lemma CanTake(start: State, schedule: seq<Action>, id: string, i: nat) returns (longer: seq<Action>)
    requires Listening(Run(start, schedule)) && ValidId(id) && id !in Run(start, schedule).shared.cancellations
    requires i < |Run(start, schedule).workers| && Run(start, schedule).workers[i].Idle?
    ensures var s, t := Run(start, schedule), Run(start, longer);
      && Listening(t) && t.config == s.config
      && t.workers == s.workers[i := Dispatching(ModelsJob(s.config, |s.past.decoded|, id))]
      && t.shared.cancellations.Keys == s.shared.cancellations.Keys + {id}
      && t.past.forwarded == s.past.forwarded
      && t.past.decoded == s.past.decoded + [Models(id)] && t.main == s.main
  {
    longer := CanQueue(start, schedule, id);
    Go(start, Run(start, longer), longer, Worker(i, Takes));
    longer := longer + [Worker(i, Takes)];
  }
}
