/**
 The shutdown of a session: it can always go on, it takes a bounded number of steps, and it ends with everything
 finished. It rests on three assumptions about calls this model does not see into: after `Close` the connection's
 reads and pings fail, and `Forward` returns once its context is done.
 */
module RelayShutdown {
  import opened Wrappers
  import opened RelaySteps
  import opened RelayPlaces
  import opened RelayInvariants

  /** What a closed connection may still do. */
  predicate Honest(a: Action) {
    && (a.Reader? && a.r.Reads? ==> a.r.inbound.ReadError?)
    && (a.Heart? && a.h.Pings? ==> !a.h.ok)
  }

  predicate ContextDone(s: State, job: Job) {
    ServeDone(s) || job.ticket in s.shared.canceled
  }

  /** Steps that come of themselves: no signal is needed, and a call of `Forward` is over if its context is. */
  predicate Due(s: State, a: Action) {
    && Enabled(s, a) && Honest(a) && !a.Interrupt?
    && (a.Worker? && a.w.Resumes? ==> ContextDone(s, s.workers[a.who].job))
  }

  function ReaderWork(r: ReaderPC): nat {
    match r
    case NotStarted => 0
    case Returned => 0
    case Polling => 1
    case Failing(_) => 1
    case Abandoning(_) => 1
    case Reading => 2
    case StoppingReader => 2
    case Cancelling(_) => 2
    case Reporting => 3
    case LookingUp(_) => 3
    case Replying(_, _) => 4
    case Withdrawing(_) => 5
    case Unregistering(_) => 6
    case Offering(_) => 10
    case Registering(_) => 11
    case Checking(_) => 12
  }

  function WorkerWork(w: WorkerPC): nat {
    match w
    case Exited => 0
    case Idle => 1
    case Releasing(_) => 2
    case StoppingFor(_) => 3
    case ReportingFor(_) => 4
    case Answering(_, _) => 5
    case Deleting(_, _) => 6
    case Forwarding(_) => 7
    case Dispatching(_) => 8
  }

  function WorkersWork(ws: seq<WorkerPC>): nat {
    if |ws| == 0 then 0 else WorkerWork(ws[0]) + WorkersWork(ws[1..])
  }

  function HeartWork(h: HeartPC): nat {
    match h
    case Resting => 0
    case Ended => 0
    case StoppingHeart => 1
    case ReportingPing => 2
    case Pinging => 3
    case Waiting => 4
  }

  /** A bound on the steps that are left. A queued job is worth more than what it adds to a worker. */
  function WorkLeft(s: State): nat {
    Rank(s.main) + ReaderWork(s.reader) + WorkersWork(s.workers) + 8 * |s.shared.jobs| + HeartWork(s.heart)
    + One(!s.shared.interrupted)
  }

  lemma {:induction false} WorkersWorkUpdated(ws: seq<WorkerPC>, i: nat, w: WorkerPC)
    requires i < |ws|
    ensures WorkersWork(ws[i := w]) == WorkersWork(ws) - WorkerWork(ws[i]) + WorkerWork(w)
  {
    if i == 0 {
      assert ws[i := w][1..] == ws[1..];
    } else {
      assert ws[i := w][1..] == ws[1..][i - 1 := w];
      WorkersWorkUpdated(ws[1..], i - 1, w);
    }
  }

  lemma ReaderUsesUpWork(s: State, a: ReaderAction)
    requires LifeCycle(s) && s.shared.closed && ReaderEnabled(s, a) && Honest(Reader(a))
    ensures WorkLeft(ReaderStep(s, a)) < WorkLeft(s) && ReaderStep(s, a).shared.closed
  {
    if a.Reads? {
      assert Receive(s.config, |s.past.decoded|, a.inbound, a.now) == Received(Failing(ReadFailed), []);
    }
    var t := ReaderStep(s, a);
    assert ReaderWork(t.reader) + 8 * |t.shared.jobs| < ReaderWork(s.reader) + 8 * |s.shared.jobs|;
  }

  lemma WorkerUsesUpWork(s: State, i: nat, a: WorkerAction)
    requires s.shared.closed && WorkerEnabled(s, i, a)
    ensures WorkLeft(WorkerStep(s, i, a)) < WorkLeft(s) && WorkerStep(s, i, a).shared.closed
  {
    WorkersWorkUpdated(s.workers, i, NextWorker(s, i, a));
  }

  lemma MainUsesUpWork(s: State, a: MainAction)
    requires s.shared.closed && !s.main.Greeting? && MainEnabled(s, a)
    ensures WorkLeft(MainStep(s, a)) < WorkLeft(s) && MainStep(s, a).shared.closed
  {
  }

  lemma HeartUsesUpWork(s: State, a: HeartAction)
    requires s.shared.closed && HeartEnabled(s, a) && Honest(Heart(a))
    ensures WorkLeft(HeartStep(s, a)) < WorkLeft(s) && HeartStep(s, a).shared.closed
  {
  }

  /** Once the connection is closed every step of any goroutine, in any order, brings the end nearer. */
  lemma StepUsesUpWork(s: State, a: Action)
    requires LifeCycle(s) && s.shared.closed && Enabled(s, a) && Honest(a)
    ensures WorkLeft(Apply(s, a)) < WorkLeft(s) && Apply(s, a).shared.closed
  {
    match a
    case Interrupt =>
    case Main(m) => MainUsesUpWork(s, m);
    case Reader(r) => ReaderUsesUpWork(s, r);
    case Worker(i, w) => WorkerUsesUpWork(s, i, w);
    case Heart(h) => HeartUsesUpWork(s, h);
  }

  // ---------------------------------------------------------------------------------------------
  // There is always a next step
  // ---------------------------------------------------------------------------------------------

  function NextReaderAction(s: State): ReaderAction {
    match s.reader
    case Polling => Polls
    case Reading => Reads(ReadError, 0)
    case Failing(_) => Fails
    case Checking(_) => Checks
    case Registering(_) => Registers
    case Offering(_) => Quits
    case Unregistering(_) => Unregisters
    case Withdrawing(_) => Withdraws
    case Abandoning(_) => Abandons
    case LookingUp(_) => LooksUp
    case Cancelling(_) => Cancels
    case Replying(_, _) => Replies(false)
    case Reporting => Reports
    case StoppingReader => StopsSession
    case _ => Polls
  }

  function NextWorkerAction(s: State, w: WorkerPC): WorkerAction {
    match w
    case Idle => if |s.shared.jobs| > 0 then Takes else Exits
    case Dispatching(_) => Calls
    case Forwarding(_) => Resumes(Err(LocalApi.Plain(LocalApi.TextCause(""))))
    case Deleting(_, _) => Deletes
    case Answering(_, _) => Responds(false)
    case ReportingFor(_) => ReportsFailure
    case StoppingFor(_) => StopsServing
    case Releasing(_) => Releases
    case Exited => Exits
  }

  function NextHeartAction(h: HeartPC): HeartAction {
    match h
    case Waiting => Ends
    case Pinging => Pings(false)
    case ReportingPing => ReportsPing
    case _ => StopsAll
  }

  lemma ReaderIsDue(s: State)
    requires LifeCycle(s) && s.shared.closed && !s.reader.Returned? && !s.reader.NotStarted?
    ensures Due(s, Reader(NextReaderAction(s)))
  {
  }

  lemma WorkerIsDue(s: State, i: nat)
    requires LifeCycle(s) && s.shared.closed && s.shared.jobsClosed && i < |s.workers| && !s.workers[i].Exited?
    ensures Due(s, Worker(i, NextWorkerAction(s, s.workers[i])))
  {
  }

  lemma HeartIsDue(s: State)
    requires LifeCycle(s) && s.shared.closed && !s.heart.Ended? && !s.heart.Resting?
    ensures Due(s, Heart(NextHeartAction(s.heart)))
  {
  }

  /** A closing session is never stuck: some goroutine has a step that comes of itself. */
  lemma NeverStuck(s: State)
    requires LifeCycle(s) && s.shared.closed && !s.main.Finished?
    ensures exists a :: Due(s, a)
  {
    if !s.reader.Returned? {
      ReaderIsDue(s);
    } else {
      match s.main
      case JoiningReader => assert Due(s, Main(JoinsReader));
      case CancellingAll => assert Due(s, Main(CancelsAll));
      case ClosingJobs => assert Due(s, Main(ClosesJobs));
      case JoiningWorkers =>
        if AllExited(s.workers) {
          assert Due(s, Main(JoinsWorkers));
        } else {
          var i :| 0 <= i < |s.workers| && !s.workers[i].Exited?;
          WorkerIsDue(s, i);
        }
      case JoiningHeart =>
        if s.heart.Ended? {
          assert Due(s, Main(Returns));
        } else {
          HeartIsDue(s);
        }
      case _ => assert false;
    }
  }

  /** Before that, a session whose reader has returned, or which has been stopped, has a way into its shutdown. */
  lemma ShutdownBegins(s: State)
    requires LifeCycle(s) && s.main.Selecting? && (s.reader.Returned? || ServeDone(s))
    ensures exists pick :: Enabled(s, Main(Selects(pick)))
  {
    if ServeDone(s) {
      assert Enabled(s, Main(Selects(OnStop)));
    } else {
      assert Enabled(s, Main(Selects(OnReadError)));
    }
  }

  // ---------------------------------------------------------------------------------------------
  // The end
  // ---------------------------------------------------------------------------------------------

  /** Every choice is a possible step of a closed connection. */
  predicate AllHonest(s: State, schedule: seq<Action>)
    decreases |schedule|
  {
    || |schedule| == 0
    || (Enabled(s, schedule[0]) && Honest(schedule[0]) && AllHonest(Apply(s, schedule[0]), schedule[1..]))
  }

  /**
   From the moment the connection is closed, no schedule has more steps than the work that is left, and wherever a
   schedule stops short of the end there is a step to go on with. So every run ends, with `Serve` returned.
   */
  lemma {:induction false} ShutdownTerminates(s: State, schedule: seq<Action>)
    requires LifeCycle(s) && s.shared.closed && AllHonest(s, schedule)
    ensures |schedule| <= WorkLeft(s)
    ensures Run(s, schedule).main.Finished? || exists a :: Due(Run(s, schedule), a)
    decreases |schedule|
  {
    if |schedule| == 0 {
      if !s.main.Finished? {
        NeverStuck(s);
      }
    } else {
      var t := Apply(s, schedule[0]);
      StepUsesUpWork(s, schedule[0]);
      KeepsLifeCycle(s, schedule[0]);
      ShutdownTerminates(t, schedule[1..]);
    }
  }

  /** What a returned session leaves behind: an error to report, no goroutine and no queued job. */
  predicate Clean(s: State) {
    && s.result.Some?
    && s.shared.jobs == []
    && (s.reader.Returned? || s.reader.NotStarted?)
    && AllExited(s.workers)
    && (s.heart.Ended? || s.heart.Resting?)
  }

  lemma FinishedIsClean(s: State)
    requires LifeCycle(s) && s.main.Finished?
    ensures Clean(s)
  {
    if !s.reader.NotStarted? {
      assert s.workers[0].Exited?;
    }
  }
}
