/**
 Runs that show where the session promises less than one might read into its documentation: an identifier is free again
 before its response is written, a request may be left without any response, and a request cancelled in the queue is
 still forwarded. They exist whatever the options of the session are.
 */
module RelayWitness {
  import opened Wrappers
  import opened Protocol
  import opened RelaySteps
  import opened RelayTheorems
  import opened RelayRuns

  const FORGET := Payload(0, Some(Envelope("cancel", None, Some(Cancel("cancel", "a")), None)))

  lemma ForgetIsReceived(config: Config, ticket: nat)
    requires config.Usable()
    ensures Receive(config, ticket, FORGET, 0) == Received(LookingUp("a"), [])
  {
    assert "request" != "cancel" by { assert |"request"| != |"cancel"|; }
  }

  /** A request can be left without a response: the session stops while the reader offers it to the workers. */
  lemma SomeRequestIsLeftBehind(config: Config)
    requires config.Usable()
    ensures exists schedule :: Reached(config, schedule).past.dropped.Some?
  {
    var start := Init(config);
    assert [Main(Greets(true))][1..] == [];
    var schedule := CanRegister(start, [Main(Greets(true))], "a");
    Go(start, Run(start, schedule), schedule, Interrupt);
    schedule := schedule + [Interrupt];
    Go(start, Run(start, schedule), schedule, Reader(Quits));
    schedule := schedule + [Reader(Quits)];
    assert Reached(config, schedule).past.dropped.Some?;
  }

  /** A request that is queued, and whose cancel function has been called. */
  lemma CanCancel(config: Config) returns (schedule: seq<Action>)
    requires config.Usable()
    ensures var s := Reached(config, schedule);
      && 0 in s.shared.canceled && s.shared.jobs == [ModelsJob(config, 0, "a")]
      && |s.workers| == config.concurrency && s.workers[0] == Idle
  {
    var start := Init(config);
    assert [Main(Greets(true))][1..] == [];
    schedule := CanQueue(start, [Main(Greets(true))], "a");
    var s := Run(start, schedule);
    ForgetIsReceived(config, 1);
    Go(start, s, schedule, Reader(Polls));
    schedule := schedule + [Reader(Polls)];
    Go(start, s.(reader := Reading), schedule, Reader(Reads(FORGET, 0)));
    schedule := schedule + [Reader(Reads(FORGET, 0))];
    var heard := s.past.(heard := s.past.heard + [Heard(FORGET, 0)]);
    assert s.past.decoded + [] == s.past.decoded;
    Go(start, s.(reader := LookingUp("a"), past := heard), schedule, Reader(LooksUp));
    schedule := schedule + [Reader(LooksUp)];
    Go(start, Run(start, schedule), schedule, Reader(Cancels));
    schedule := schedule + [Reader(Cancels)];
  }

  /** A request that was cancelled while it was queued is still handed to `Forward`. */
  lemma SomeCancelledRequestIsForwarded(config: Config)
    requires config.Usable()
    ensures exists schedule :: var s := Reached(config, schedule);
      |s.workers| > 0 && s.workers[0] == Forwarding(ModelsJob(config, 0, "a")) && 0 in s.shared.canceled
  {
    var start := Init(config);
    var schedule := CanCancel(config);
    Go(start, Run(start, schedule), schedule, Worker(0, Takes));
    schedule := schedule + [Worker(0, Takes)];
    Go(start, Run(start, schedule), schedule, Worker(0, Calls));
    schedule := schedule + [Worker(0, Calls)];
    assert Reached(config, schedule).workers[0] == Forwarding(ModelsJob(config, 0, "a"));
  }

  /** A worker that has deleted a registration and is about to write the response. */
  lemma CanDelete(config: Config) returns (schedule: seq<Action>)
    requires config.Usable()
    ensures var s := Reached(config, schedule);
      && Listening(s) && s.config == config && "a" !in s.shared.cancellations && s.past.decoded == [Models("a")]
      && |s.workers| == config.concurrency && s.workers[0].Answering? && s.workers[0].job == ModelsJob(config, 0, "a")
  {
    var start := Init(config);
    assert [Main(Greets(true))][1..] == [];
    schedule := CanTake(start, [Main(Greets(true))], "a", 0);
    var answer := Worker(0, Resumes(Err(LocalApi.Plain(LocalApi.TextCause("")))));
    Go(start, Run(start, schedule), schedule, Worker(0, Calls));
    schedule := schedule + [Worker(0, Calls)];
    Go(start, Run(start, schedule), schedule, answer);
    schedule := schedule + [answer];
    Go(start, Run(start, schedule), schedule, Worker(0, Deletes));
    schedule := schedule + [Worker(0, Deletes)];
  }

  /** A second request can be queued under an identifier whose response has not been written yet. */
  lemma SomeIdentifierIsReusedEarly(config: Config)
    requires config.Usable()
    ensures exists schedule :: var s := Reached(config, schedule);
      && |s.workers| > 0 && s.workers[0].Answering? && s.workers[0].job.ticket == 0
      && s.shared.jobs == [ModelsJob(config, 1, "a")] && s.workers[0].job.request.id == "a"
  {
    var start := Init(config);
    var schedule := CanDelete(config);
    schedule := CanQueue(start, schedule, "a");
    var s := Reached(config, schedule);
    assert s.workers[0].Answering? && s.shared.jobs == [ModelsJob(config, 1, "a")];
  }
}
