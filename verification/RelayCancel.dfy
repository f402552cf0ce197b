/**
 Whose cancel function is called: only that of a request a cancel message was aimed at, until the shutdown calls all.
 */
module RelayCancel {
  import opened Wrappers
  import opened RelaySteps
  import opened RelayPlaces
  import opened RelayInvariants
  import opened RelayJobs
  import opened RelayTable

  /** A request that may still be forwarded or is being forwarded or answered by a worker. */
  predicate Pursued(s: State, t: nat) {
    (Undecided(s.reader) && s.reader.job.ticket == t) || InQueue(s.shared.jobs, t) + WithWorkers(s.workers, t) > 0
  }

  /** A worker cancels its request's context only after the write. */
  predicate ReleasedAreAnswered(s: State) {
    forall i :: 0 <= i < |s.workers| && AfterWrite(s.workers[i]) ==> Answers(s.past.writes, s.workers[i].job.ticket) > 0
  }

  predicate AfterWrite(w: WorkerPC) {
    w.ReportingFor? || w.StoppingFor? || w.Releasing?
  }

  predicate Known(s: State) {
    && (forall t :: t in s.shared.canceled ==> t < |s.past.decoded|)
    && (forall t :: t in s.past.targeted ==> t < |s.past.decoded|)
    && (s.reader.Cancelling? && s.reader.target.Some? ==> s.reader.target.value in s.past.targeted)
  }

  /**
   Until the main goroutine calls all, a pursued request's cancel function is called only if a cancel message was
   aimed at it.
   */
  predicate Aimed(s: State) {
    Rank(s.main) >= 4 ==> forall t :: t in s.shared.canceled && Pursued(s, t) ==> t in s.past.targeted
  }

  predicate CancelsOk(s: State) {
    ReleasedAreAnswered(s) && Known(s) && Aimed(s)
  }

  ghost predicate Inv(s: State) {
    Sound(s) && Ordered(s) && CancelsOk(s)
  }

  lemma TableIsKnown(s: State, id: string)
    requires Sound(s) && id in s.shared.cancellations
    ensures s.shared.cancellations[id] < |s.past.decoded| && s.past.decoded[s.shared.cancellations[id]].id == id
  {
    assert Maps(s.shared.cancellations, id, s.shared.cancellations[id]);
  }

  // ---------------------------------------------------------------------------------------------
  // The worker's cancel comes after its write
  // ---------------------------------------------------------------------------------------------

  lemma WorkerKeepsReleased(s: State, i: nat, a: WorkerAction)
    requires ReleasedAreAnswered(s) && WorkerEnabled(s, i, a)
    ensures ReleasedAreAnswered(WorkerStep(s, i, a))
  {
    var t := WorkerStep(s, i, a);
    forall j | 0 <= j < |t.workers| && AfterWrite(t.workers[j])
      ensures Answers(t.past.writes, t.workers[j].job.ticket) > 0
    {
      if a.Responds? {
        AnswersAppended(s.past.writes, t.past.writes[|s.past.writes|], t.workers[j].job.ticket);
      }
      if j == i {
        assert a.Responds? || AfterWrite(s.workers[i]);
      }
    }
  }

  lemma ReaderKeepsReleased(s: State, a: ReaderAction)
    requires ReleasedAreAnswered(s) && ReaderEnabled(s, a)
    ensures ReleasedAreAnswered(ReaderStep(s, a))
  {
    var t := ReaderStep(s, a);
    assert t.workers == s.workers;
    forall j | 0 <= j < |t.workers| && AfterWrite(t.workers[j])
      ensures Answers(t.past.writes, t.workers[j].job.ticket) > 0
    {
      if a.Replies? {
        AnswersAppended(s.past.writes, t.past.writes[|s.past.writes|], t.workers[j].job.ticket);
      } else {
        assert t.past.writes == s.past.writes;
      }
    }
  }

  // ---------------------------------------------------------------------------------------------
  // Cancelled and targeted requests have been decoded
  // ---------------------------------------------------------------------------------------------

  lemma ReaderKeepsKnown(s: State, a: ReaderAction)
    requires Sound(s) && Known(s) && ReaderEnabled(s, a)
    ensures Known(ReaderStep(s, a))
  {
    match a {
      case Reads(inbound, now) => ReadCases(s, inbound, now);
      case LooksUp =>
        if s.reader.id in s.shared.cancellations {
          TableIsKnown(s, s.reader.id);
        }
      case Withdraws => assert JobOk(s.config, s.past.decoded, s.reader.job);
      case Abandons => assert JobOk(s.config, s.past.decoded, s.reader.job);
      case _ =>
    }
  }

  lemma WorkerKeepsKnown(s: State, i: nat, a: WorkerAction)
    requires Sound(s) && Known(s) && WorkerEnabled(s, i, a)
    ensures Known(WorkerStep(s, i, a))
  {
    if a.Releases? {
      assert WorkerOk(s.config, s.past.decoded, s.workers[i]);
    }
  }

  lemma MainKeepsKnown(s: State, a: MainAction)
    requires Sound(s) && Known(s) && MainEnabled(s, a)
    ensures Known(MainStep(s, a))
  {
    if a.CancelsAll? {
      forall t | t in s.shared.cancellations.Values
        ensures t < |s.past.decoded|
      {
        var id :| id in s.shared.cancellations && s.shared.cancellations[id] == t;
        TableIsKnown(s, id);
      }
    }
  }

  // ---------------------------------------------------------------------------------------------
  // Cancelled requests were aimed at
  // ---------------------------------------------------------------------------------------------

  /** A request in the reader's hand after the hand-over was refused, left behind or answered is pursued no more. */
  lemma NotPursued(s: State, t: nat)
    requires Conserved(s)
    requires Answers(s.past.writes, t) > 0 || LeftBehind(s.past.dropped, t)
             || (ReaderHolds(s.reader, t) && !Undecided(s.reader))
    ensures !Pursued(s, t)
  {
    assert Places(s, t) <= 1;
  }

  lemma ReaderKeepsAimed(s: State, a: ReaderAction)
    requires Sound(s) && Known(s) && Aimed(s) && ReaderEnabled(s, a)
    ensures Aimed(ReaderStep(s, a))
  {
    var s' := ReaderStep(s, a);
    if Rank(s.main) >= 4 {
      forall t | t in s'.shared.canceled && Pursued(s', t)
        ensures t in s'.past.targeted
      {
        ReaderAims(s, a, t);
      }
    }
  }

  lemma ReaderAims(s: State, a: ReaderAction, t: nat)
    requires Sound(s) && Known(s) && Aimed(s) && Rank(s.main) >= 4 && ReaderEnabled(s, a)
    requires t in ReaderStep(s, a).shared.canceled && Pursued(ReaderStep(s, a), t)
    ensures t in ReaderStep(s, a).past.targeted
  {
    match a {
      case Reads(inbound, now) => ReadCases(s, inbound, now);
      case Sends => InQueueAppended(s.shared.jobs, s.reader.job, t);
      case Withdraws => NotPursuedHere(s, t);
      case Abandons => NotPursuedHere(s, t);
      case _ => ReaderAimsInHand(s, a, t);
    }
  }

  lemma NotPursuedHere(s: State, t: nat)
    requires Sound(s) && (s.reader.Withdrawing? || s.reader.Abandoning?)
    ensures s.reader.job.ticket == t ==> InQueue(s.shared.jobs, t) + WithWorkers(s.workers, t) == 0
  {
    if s.reader.job.ticket == t {
      NotPursued(s, t);
    }
  }

  lemma ReaderAimsInHand(s: State, a: ReaderAction, t: nat)
    requires Known(s) && Aimed(s) && Rank(s.main) >= 4 && ReaderEnabled(s, a)
    requires !a.Reads? && !a.Sends? && !a.Withdraws? && !a.Abandons?
    requires t in ReaderStep(s, a).shared.canceled && Pursued(ReaderStep(s, a), t)
    ensures t in ReaderStep(s, a).past.targeted
  {
    ReaderPursues(s, a, t);
    if a.Cancels? {
      assert s.reader.target == Some(t) || t in s.shared.canceled;
    } else {
      assert ReaderStep(s, a).shared.canceled == s.shared.canceled;
    }
  }

  /** The reader pursues nothing new but what it decodes. */
  lemma ReaderPursues(s: State, a: ReaderAction, t: nat)
    requires ReaderEnabled(s, a) && Pursued(ReaderStep(s, a), t)
    requires !a.Reads? && !a.Sends?
    ensures Pursued(s, t)
  {
    var s' := ReaderStep(s, a);
    assert s'.shared.jobs == s.shared.jobs && s'.workers == s.workers;
    assert Undecided(s'.reader) ==> Undecided(s.reader) && s'.reader.job == s.reader.job;
  }

  lemma WorkerKeepsAimed(s: State, i: nat, a: WorkerAction)
    requires Sound(s) && ReleasedAreAnswered(s) && Aimed(s) && WorkerEnabled(s, i, a)
    ensures Aimed(WorkerStep(s, i, a))
  {
    var s' := WorkerStep(s, i, a);
    if Rank(s.main) >= 4 {
      forall t | t in s'.shared.canceled && Pursued(s', t)
        ensures t in s'.past.targeted
      {
        WorkerPursues(s, i, a, t);
        if a.Releases? && t == s.workers[i].job.ticket {
          NotPursued(s, t);
        }
      }
    }
  }

  /** A worker's step starts no new pursuit. */
  lemma WorkerPursues(s: State, i: nat, a: WorkerAction, t: nat)
    requires WorkerEnabled(s, i, a) && Pursued(WorkerStep(s, i, a), t)
    ensures Pursued(s, t)
  {
    WithWorkersUpdated(s.workers, i, NextWorker(s, i, a), t);
  }

  lemma MainKeepsAimed(s: State, a: MainAction)
    requires LifeCycle(s) && Aimed(s) && MainEnabled(s, a)
    ensures Aimed(MainStep(s, a))
  {
  }

  lemma MainKeepsReleased(s: State, a: MainAction)
    requires Shape(s) && ReleasedAreAnswered(s) && MainEnabled(s, a)
    ensures ReleasedAreAnswered(MainStep(s, a))
  {
  }

  lemma HeartKeepsCancels(s: State, a: HeartAction)
    requires CancelsOk(s) && HeartEnabled(s, a)
    ensures CancelsOk(HeartStep(s, a))
  {
  }

  lemma KeepsCancels(s: State, a: Action)
    requires Sound(s) && CancelsOk(s) && Enabled(s, a)
    ensures CancelsOk(Apply(s, a))
  {
    match a
    case Interrupt =>
    case Main(m) =>
      MainKeepsReleased(s, m);
      MainKeepsKnown(s, m);
      MainKeepsAimed(s, m);
    case Reader(r) =>
      ReaderKeepsReleased(s, r);
      ReaderKeepsKnown(s, r);
      ReaderKeepsAimed(s, r);
    case Worker(i, w) =>
      WorkerKeepsReleased(s, i, w);
      WorkerKeepsKnown(s, i, w);
      WorkerKeepsAimed(s, i, w);
    case Heart(h) => HeartKeepsCancels(s, h);
  }

  // ---------------------------------------------------------------------------------------------
  // All of it, over all runs
  // ---------------------------------------------------------------------------------------------

  lemma InitInv(config: Config)
    requires config.Usable()
    ensures Inv(Init(config))
  {
    StartsConserved(config);
    StartsAgreeing(config);
    StartsOrdered(config);
    assert LifeCycle(Init(config)) && JobsOk(Init(config));
  }

  lemma StartsConserved(config: Config)
    ensures Conserved(Init(config))
  {
    forall t: nat
      ensures Places(Init(config), t) == One(t < |Init(config).past.decoded|)
    {
    }
  }

  lemma StartsAgreeing(config: Config)
    ensures Agrees(Init(config))
  {
    forall id: string, t: nat
      ensures Maps(Init(config).shared.cancellations, id, t) <==> Claims(Init(config), id, t)
    {
    }
  }

  lemma StartsOrdered(config: Config)
    ensures Ordered(Init(config)) && CancelsOk(Init(config))
  {
    assert Tickets([]) == [];
  }

  lemma StepKeepsInv(s: State, a: Action)
    requires Inv(s) && Enabled(s, a)
    ensures Inv(Apply(s, a))
  {
    KeepsLifeCycle(s, a);
    KeepsConserved(s, a);
    KeepsJobs(s, a);
    KeepsAgrees(s, a);
    KeepsOrdered(s, a);
    KeepsCancels(s, a);
  }

  lemma TurnKeepsInv(s: State, a: Action)
    requires Inv(s)
    ensures Inv(Turn(s, a))
  {
    if Enabled(s, a) {
      StepKeepsInv(s, a);
    }
  }

  /** Every schedule of every session keeps every invariant. */
  lemma {:induction false} RunKeepsInv(s: State, schedule: seq<Action>)
    requires Inv(s)
    ensures Inv(Run(s, schedule))
    decreases |schedule|
  {
    if |schedule| == 0 {
    } else {
      TurnKeepsInv(s, schedule[0]);
      RunKeepsInv(Turn(s, schedule[0]), schedule[1..]);
    }
  }
}
