/** What holds in every reachable state of every session, and when `Serve` has returned. */
module RelayTheorems {
  import opened RelaySteps
  import opened RelayPlaces
  import opened RelayInvariants
  import opened RelayJobs
  import opened RelayTable
  import opened RelayCancel
  import opened RelayShutdown

  /** Any state that some schedule reaches. */
  function Reached(config: Config, schedule: seq<Action>): State {
    Run(Init(config), schedule)
  }

  lemma ReachedInv(config: Config, schedule: seq<Action>)
    requires config.Usable()
    ensures Inv(Reached(config, schedule))
  {
    InitInv(config);
    RunKeepsInv(Init(config), schedule);
  }

  // ---------------------------------------------------------------------------------------------
  // Requests
  // ---------------------------------------------------------------------------------------------

  /**
   Every decoded request is in exactly one place: in the reader's hand, queued, with one worker, answered by exactly one
   write, or left behind. One request at most is left behind, only when the session is stopping and the reader is gone
   or going.
   */
  lemma RequestsAreConserved(config: Config, schedule: seq<Action>)
    requires config.Usable()
    ensures var s := Reached(config, schedule);
      && (forall t: nat :: Places(s, t) == One(t < |s.past.decoded|))
      && (s.past.dropped.Some? ==> ServeDone(s) && (s.reader == Abandoning(s.past.dropped.value) || s.reader.Returned?))
  {
    ReachedInv(config, schedule);
  }

  /**
   When `Serve` has returned, every request it decoded has had exactly one write attempt, except the one that may have
   been left behind, which has had none; and every written response carries the identifier of its request.
   */
  lemma EveryRequestIsAnsweredOnce(config: Config, schedule: seq<Action>)
    requires config.Usable()
    ensures var s := Reached(config, schedule);
      && (s.main.Finished? ==>
            && Clean(s)
            && forall t: nat ::
                 t < |s.past.decoded| ==> Answers(s.past.writes, t) == One(!LeftBehind(s.past.dropped, t)))
      && (forall i :: 0 <= i < |s.past.writes| ==>
            MessageOk(s.past.decoded, s.past.writes[i].ticket, s.past.writes[i].message))
  {
    ReachedInv(config, schedule);
    var s := Reached(config, schedule);
    if s.main.Finished? {
      FinishedIsClean(s);
      forall t: nat | t < |s.past.decoded|
        ensures Answers(s.past.writes, t) == One(!LeftBehind(s.past.dropped, t))
      {
        NoneWithIdle(s.workers, t);
        assert Places(s, t) == 1;
      }
    }
  }

  /** A request that was accepted into the queue is never the one left behind: it gets its response attempt. */
  lemma AcceptedIsAnswered(config: Config, schedule: seq<Action>, k: nat)
    requires config.Usable()
    requires k < |Reached(config, schedule).past.accepted|
    ensures var s := Reached(config, schedule);
      var t := s.past.accepted[k];
      || Answers(s.past.writes, t) == 1
      || (InQueue(s.shared.jobs, t) + WithWorkers(s.workers, t) == 1 && !s.main.Finished?)
  {
    ReachedInv(config, schedule);
    InitInv(config);
    AcceptedStaysUnheld(Init(config), schedule, k);
    HandedOverIsSomewhere(Reached(config, schedule), Reached(config, schedule).past.accepted[k]);
  }

  lemma HandedOverIsSomewhere(s: State, t: nat)
    requires LifeCycle(s) && Conserved(s) && HandedOver(s, t) && t < |s.past.decoded|
    ensures Answers(s.past.writes, t) == 1
            || (InQueue(s.shared.jobs, t) + WithWorkers(s.workers, t) == 1 && !s.main.Finished?)
  {
    assert Places(s, t) == 1;
    if s.main.Finished? {
      FinishedIsClean(s);
      NoneWithIdle(s.workers, t);
    }
  }

  /** Accepted requests are neither in the reader's hand nor left behind, at any later time. */
  ghost predicate AcceptedHandedOver(s: State) {
    forall k :: 0 <= k < |s.past.accepted| ==> HandedOver(s, s.past.accepted[k])
  }

  predicate HandedOver(s: State, t: nat) {
    !ReaderHolds(s.reader, t) && !LeftBehind(s.past.dropped, t)
  }

  lemma {:induction false} AcceptedStaysUnheld(s: State, schedule: seq<Action>, k: nat)
    requires Inv(s) && AcceptedHandedOver(s)
    requires k < |Run(s, schedule).past.accepted|
    ensures HandedOver(Run(s, schedule), Run(s, schedule).past.accepted[k])
    decreases |schedule|
  {
    if |schedule| > 0 {
      var a := schedule[0];
      TurnKeepsInv(s, a);
      if Enabled(s, a) {
        StepKeepsHandedOver(s, a);
      }
      AcceptedStaysUnheld(Turn(s, a), schedule[1..], k);
    }
  }

  lemma StepKeepsHandedOver(s: State, a: Action)
    requires Inv(s) && AcceptedHandedOver(s) && Enabled(s, a)
    ensures AcceptedHandedOver(Apply(s, a))
  {
    assert forall k :: 0 <= k < |s.past.accepted| ==> HandedOver(s, s.past.accepted[k]);
    match a
    case Interrupt =>
    case Main(m) => MainKeepsHandedOver(s, m);
    case Reader(r) => ReaderKeepsHandedOver(s, r);
    case Worker(i, w) =>
      WorkerLeavesReader(s, i, w);
      OthersKeepHandedOver(s, WorkerStep(s, i, w));
    case Heart(h) =>
      HeartLeavesReader(s, h);
      OthersKeepHandedOver(s, HeartStep(s, h));
  }

  lemma OthersKeepHandedOver(s: State, t: State)
    requires AcceptedHandedOver(s)
    requires t.reader == s.reader && t.past.accepted == s.past.accepted && t.past.dropped == s.past.dropped
    ensures AcceptedHandedOver(t)
  {
    assert forall k :: 0 <= k < |s.past.accepted| ==> HandedOver(s, s.past.accepted[k]);
  }

  lemma MainKeepsHandedOver(s: State, a: MainAction)
    requires Shape(s) && AcceptedHandedOver(s) && MainEnabled(s, a)
    ensures AcceptedHandedOver(MainStep(s, a))
  {
    var s' := MainStep(s, a);
    assert s'.past.accepted == s.past.accepted && s'.past.dropped == s.past.dropped;
    assert a.Greets? || s'.reader == s.reader;
  }

  lemma ReaderKeepsHandedOver(s: State, a: ReaderAction)
    requires Inv(s) && AcceptedHandedOver(s) && ReaderEnabled(s, a)
    ensures AcceptedHandedOver(ReaderStep(s, a))
  {
    var s' := ReaderStep(s, a);
    forall k | 0 <= k < |s'.past.accepted|
      ensures HandedOver(s', s'.past.accepted[k])
    {
      if k < |s.past.accepted| {
        assert HandedOver(s, s.past.accepted[k]);
        ReaderKeepsOneHandedOver(s, a, s.past.accepted[k]);
      } else {
        SentIsHandedOver(s);
      }
    }
  }

  lemma ReaderKeepsOneHandedOver(s: State, a: ReaderAction, t: nat)
    requires ReaderEnabled(s, a) && HandedOver(s, t) && t < |s.past.decoded|
    ensures HandedOver(ReaderStep(s, a), t)
  {
    if a.Reads? {
      ReadCases(s, a.inbound, a.now);
    }
  }

  lemma SentIsHandedOver(s: State)
    requires Inv(s) && s.reader.Offering?
    ensures !LeftBehind(s.past.dropped, s.reader.job.ticket)
  {
    assert Places(s, s.reader.job.ticket) <= 1;
  }

  // ---------------------------------------------------------------------------------------------
  // Forwarding
  // ---------------------------------------------------------------------------------------------

  /**
   The workers receive requests in the order in which they were decoded and accepted, each once: the requests received
   and the queue together are the accepted ones, and their tickets strictly increase. When `Serve` has returned, every
   accepted request has been received, whether it had been cancelled in the queue or not.
   */
  lemma DequeuedInOrder(config: Config, schedule: seq<Action>)
    requires config.Usable()
    ensures var s := Reached(config, schedule);
      && s.past.accepted == s.past.dequeued + Tickets(s.shared.jobs)
      && Increasing(s.past.dequeued)
      && AllBelow(s.past.dequeued, |s.past.decoded|)
      && (s.main.Finished? ==> s.past.dequeued == s.past.accepted)
  {
    ReachedInv(config, schedule);
    var s := Reached(config, schedule);
    if s.main.Finished? {
      FinishedIsClean(s);
    }
    forall i, j | 0 <= i < j < |s.past.dequeued|
      ensures s.past.dequeued[i] < s.past.dequeued[j]
    {
      assert s.past.accepted[i] < s.past.accepted[j];
    }
    forall i | 0 <= i < |s.past.dequeued|
      ensures s.past.dequeued[i] < |s.past.decoded|
    {
      assert s.past.accepted[i] < |s.past.decoded|;
    }
  }

  /**
   Whatever reaches `Forward` is a request the reader decoded, with an allowlisted method and path, a valid identifier,
   a body within the limit and a deadline that lay ahead when it was read, by at most five minutes or the default.
   */
  lemma OnlyDispatchableIsForwarded(config: Config, schedule: seq<Action>, i: nat)
    requires config.Usable()
    requires i < |Reached(config, schedule).workers| && Reached(config, schedule).workers[i].Forwarding?
    ensures var s := Reached(config, schedule);
      var job := s.workers[i].job;
      && job.ticket < |s.past.decoded| && job.request == s.past.decoded[job.ticket]
      && Dispatchable(config, job)
  {
    ReachedInv(config, schedule);
    ConfigIsConstant(Init(config), schedule);
    var s := Reached(config, schedule);
    assert WorkerOk(s.config, s.past.decoded, s.workers[i]);
  }

  lemma {:induction false} ConfigIsConstant(s: State, schedule: seq<Action>)
    ensures Run(s, schedule).config == s.config
    decreases |schedule|
  {
    if |schedule| > 0 {
      if Enabled(s, schedule[0]) {
        StepKeepsConfig(s, schedule[0]);
      }
      ConfigIsConstant(Turn(s, schedule[0]), schedule[1..]);
    }
  }

  lemma StepKeepsConfig(s: State, a: Action)
    requires Enabled(s, a)
    ensures Apply(s, a).config == s.config
  {
    match a
    case Interrupt =>
    case Main(m) => MainKeepsConfig(s, m);
    case Reader(r) => ReaderKeepsConfig(s, r);
    case Worker(i, w) => WorkerLeavesReader(s, i, w);
    case Heart(h) => HeartLeavesReader(s, h);
  }

  lemma MainKeepsConfig(s: State, a: MainAction)
    requires MainEnabled(s, a)
    ensures MainStep(s, a).config == s.config
  {
  }

  lemma ReaderKeepsConfig(s: State, a: ReaderAction)
    requires ReaderEnabled(s, a)
    ensures ReaderStep(s, a).config == s.config
  {
  }

  // ---------------------------------------------------------------------------------------------
  // Channels
  // ---------------------------------------------------------------------------------------------

  /**
   The queue is never closed while its sender may send, the reader's report of an error never blocks, and a `busy`
   answer is given exactly when the queue is full, no more and no less, and the session is not stopping.
   */
  lemma ChannelsAreSafe(config: Config, schedule: seq<Action>)
    requires config.Usable()
    ensures var s := Reached(config, schedule);
      && (s.shared.jobsClosed ==> s.reader.Returned?)
      && (s.reader.Failing? ==> s.shared.readErrors == [] && Enabled(s, Reader(Fails)))
      && (s.reader.Offering? ==>
            (Enabled(s, Reader(FindsFull)) <==> |s.shared.jobs| == s.config.queueSize && !ServeDone(s)))
      && (s.reader.Offering? ==>
            Enabled(s, Reader(Sends)) || Enabled(s, Reader(Quits)) || Enabled(s, Reader(FindsFull)))
  {
    ReachedInv(config, schedule);
  }

  /**
   Once the connection is closed, any continuation by honest steps is finite, and one that cannot be continued has
   returned from `Serve` with an error, an empty queue and every goroutine finished.
   */
  lemma SessionsEnd(config: Config, schedule: seq<Action>, closing: seq<Action>)
    requires config.Usable()
    requires Reached(config, schedule).shared.closed && AllHonest(Reached(config, schedule), closing)
    ensures var s := Reached(config, schedule);
      var t := Run(s, closing);
      && |closing| <= WorkLeft(s)
      && ((forall a :: !Due(t, a)) ==> t.main.Finished? && Clean(t))
  {
    ReachedInv(config, schedule);
    var s := Reached(config, schedule);
    ShutdownTerminates(s, closing);
    RunKeepsInv(s, closing);
    if Run(s, closing).main.Finished? {
      FinishedIsClean(Run(s, closing));
    }
  }

  // ---------------------------------------------------------------------------------------------
  // The table and cancel messages
  // ---------------------------------------------------------------------------------------------

  /**
   The table's identifiers are exactly those of the registered requests, which are pairwise different, and each leads to
   its own cancel function. When `Serve` has returned, only a request left behind is still in it.
   */
  lemma TableIsExact(config: Config, schedule: seq<Action>)
    requires config.Usable()
    ensures var s := Reached(config, schedule);
      && (forall id: string, t: nat :: Maps(s.shared.cancellations, id, t) <==> Claims(s, id, t))
      && (forall id: string, t: nat, u: nat :: Claims(s, id, t) && Claims(s, id, u) ==> t == u)
      && (s.main.Finished? ==>
            forall id: string, t: nat :: Maps(s.shared.cancellations, id, t) ==> LeftBehind(s.past.dropped, t))
  {
    ReachedInv(config, schedule);
    var s := Reached(config, schedule);
    forall id: string, t: nat, u: nat | Claims(s, id, t) && Claims(s, id, u)
      ensures t == u
    {
      assert Maps(s.shared.cancellations, id, t) && Maps(s.shared.cancellations, id, u);
    }
    if s.main.Finished? {
      FinishedIsClean(s);
      forall id: string, t: nat | Maps(s.shared.cancellations, id, t)
        ensures LeftBehind(s.past.dropped, t)
      {
        assert Claims(s, id, t);
        NoneWithIdle(s.workers, t);
      }
    }
  }

  /**
   A request passes the check of its identifier exactly when no registered request has it; otherwise the one that has it
   is the one it is recorded to clash with.
   */
  lemma DuplicateExactlyWhen(config: Config, schedule: seq<Action>)
    requires config.Usable() && Reached(config, schedule).reader.Checking?
    ensures var s := Reached(config, schedule);
      var u, job := Apply(s, Reader(Checks)), s.reader.job;
      && (u.reader.Registering? <==> forall t: nat :: !Claims(s, job.request.id, t))
      && (!u.reader.Registering? ==>
            job.ticket in u.past.rivals && Claims(s, job.request.id, u.past.rivals[job.ticket]))
  {
    ReachedInv(config, schedule);
    var s := Reached(config, schedule);
    var id := s.reader.job.request.id;
    if id in s.shared.cancellations {
      assert Maps(s.shared.cancellations, id, s.shared.cancellations[id]);
      assert Claims(s, id, s.shared.cancellations[id]);
    }
    forall t: nat | Claims(s, id, t)
      ensures id in s.shared.cancellations
    {
      assert Maps(s.shared.cancellations, id, t);
    }
  }

  /**
   The identifier of a request that a worker has not yet answered is registered exactly until the worker deletes it,
   which it does before it writes: while the response is being written, the identifier may be used again.
   */
  lemma IdIsHeldExactlyUntilDelete(config: Config, schedule: seq<Action>, i: nat)
    requires config.Usable() && i < |Reached(config, schedule).workers|
    requires var w := Reached(config, schedule).workers[i];
      w.Dispatching? || w.Forwarding? || w.Deleting? || w.Answering?
    ensures var s := Reached(config, schedule);
      var job := s.workers[i].job;
      Maps(s.shared.cancellations, job.request.id, job.ticket) <==> !s.workers[i].Answering?
  {
    ReachedInv(config, schedule);
    var s := Reached(config, schedule);
    var job := s.workers[i].job;
    assert WorkerOk(s.config, s.past.decoded, s.workers[i]);
    if s.workers[i].Answering? {
      AnsweringIsNotRegistered(s.workers, i);
      assert Places(s, job.ticket) == 1;
      assert !Claims(s, job.request.id, job.ticket);
    } else {
      WorkerIsRegistered(s.workers, i);
      HolderIsInTable(s, job);
    }
  }

  lemma {:induction false} AnsweringIsNotRegistered(ws: seq<WorkerPC>, i: nat)
    requires i < |ws| && ws[i].Answering?
    ensures RegisteredWithWorkers(ws, ws[i].job.ticket) < WithWorkers(ws, ws[i].job.ticket)
  {
    if i == 0 {
      RegisteredAreHeld(ws[1..], ws[0].job.ticket);
    } else {
      AnsweringIsNotRegistered(ws[1..], i - 1);
    }
  }

  predicate NotByReader(schedule: seq<Action>) {
    forall i :: 0 <= i < |schedule| ==> !schedule[i].Reader?
  }

  lemma {:induction false} ReaderStaysPut(s: State, schedule: seq<Action>)
    requires NotByReader(schedule) && !s.main.Greeting?
    ensures var t := Run(s, schedule);
      t.reader == s.reader && t.past.decoded == s.past.decoded && !t.main.Greeting?
    decreases |schedule|
  {
    if |schedule| > 0 {
      var a := schedule[0];
      assert !a.Reader?;
      if Enabled(s, a) {
        OthersLeaveReader(s, a);
      }
      ReaderStaysPut(Turn(s, a), schedule[1..]);
    }
  }

  lemma OthersLeaveReader(s: State, a: Action)
    requires Enabled(s, a) && !a.Reader? && !s.main.Greeting?
    ensures Apply(s, a).reader == s.reader && Apply(s, a).past.decoded == s.past.decoded && !Apply(s, a).main.Greeting?
  {
    match a
    case Interrupt =>
    case Main(m) => MainLeavesReader(s, m);
    case Worker(i, w) => WorkerLeavesReader(s, i, w);
    case Heart(h) => HeartLeavesReader(s, h);
  }

  lemma MainLeavesReader(s: State, a: MainAction)
    requires MainEnabled(s, a) && !s.main.Greeting?
    ensures var t := MainStep(s, a);
      t.reader == s.reader && t.past.decoded == s.past.decoded && !t.main.Greeting?
      && t.past.accepted == s.past.accepted && t.past.dropped == s.past.dropped
  {
  }

  lemma WorkerLeavesReader(s: State, i: nat, a: WorkerAction)
    requires WorkerEnabled(s, i, a)
    ensures var t := WorkerStep(s, i, a);
      && t.reader == s.reader && t.past.decoded == s.past.decoded && t.main == s.main
      && t.past.accepted == s.past.accepted && t.past.dropped == s.past.dropped && t.config == s.config
  {
  }

  lemma HeartLeavesReader(s: State, a: HeartAction)
    requires HeartEnabled(s, a)
    ensures var t := HeartStep(s, a);
      && t.reader == s.reader && t.past.decoded == s.past.decoded && t.main == s.main
      && t.past.accepted == s.past.accepted && t.past.dropped == s.past.dropped && t.config == s.config
  {
  }

  /**
   A cancel message calls the cancel function of the request that was registered under its identifier when it was looked
   up, or none, whatever the other goroutines do in between. The call changes nothing else, and since that request was
   decoded before, it is not a later one that reuses the identifier.
   */
  lemma CancelHitsItsTarget(config: Config, schedule: seq<Action>, between: seq<Action>)
    requires config.Usable() && Reached(config, schedule).reader.LookingUp? && NotByReader(between)
    ensures var s := Reached(config, schedule);
      var t := Run(Apply(s, Reader(LooksUp)), between);
      var target := Target(s, s.reader.id);
      && t.reader == Cancelling(target)
      && Apply(t, Reader(Cancels))
         == t.(reader := Polling, shared := t.shared.(canceled := t.shared.canceled + Singleton(target)))
      && (target.Some? ==>
            target.value < |s.past.decoded| == |t.past.decoded| && s.past.decoded[target.value].id == s.reader.id)
      && (target.None? <==> forall u: nat :: !Claims(s, s.reader.id, u))
  {
    ReachedInv(config, schedule);
    CaptureIsKept(Reached(config, schedule), between);
    TargetIsKnown(Reached(config, schedule), Reached(config, schedule).reader.id);
  }

  lemma CaptureIsKept(s: State, between: seq<Action>)
    requires s.reader.LookingUp? && !s.main.Greeting? && NotByReader(between)
    ensures var t := Run(Apply(s, Reader(LooksUp)), between);
      && t.reader == Cancelling(Target(s, s.reader.id))
      && t.past.decoded == s.past.decoded
  {
    ReaderStaysPut(Apply(s, Reader(LooksUp)), between);
  }

  lemma TargetIsKnown(s: State, id: string)
    requires Inv(s)
    ensures var target := Target(s, id);
      && (target.Some? ==> target.value < |s.past.decoded| && s.past.decoded[target.value].id == id)
      && (target.None? <==> forall u: nat :: !Claims(s, id, u))
  {
    if id in s.shared.cancellations {
      TableIsKnown(s, id);
      assert Maps(s.shared.cancellations, id, s.shared.cancellations[id]);
      assert Claims(s, id, s.shared.cancellations[id]);
    }
    forall u: nat | Claims(s, id, u)
      ensures id in s.shared.cancellations
    {
      assert Maps(s.shared.cancellations, id, u);
    }
  }

  /**
   Until the shutdown calls every cancel function, that of a request that is queued, or with a worker that has not yet
   written its response, has been called only if a cancel message was aimed at the request.
   */
  lemma OnlyTargetsAreCancelled(config: Config, schedule: seq<Action>, t: nat)
    requires config.Usable()
    ensures var s := Reached(config, schedule);
      Rank(s.main) >= Rank(CancellingAll) && t in s.shared.canceled
      && InQueue(s.shared.jobs, t) + WithWorkers(s.workers, t) > 0
      ==> t in s.past.targeted
  {
    ReachedInv(config, schedule);
    var s := Reached(config, schedule);
    assert InQueue(s.shared.jobs, t) + WithWorkers(s.workers, t) > 0 ==> Pursued(s, t);
  }
}
