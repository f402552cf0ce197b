/**
 The session as an object: the variables that `Serve` and its goroutines share, updated in place, one method for the
 steps of each goroutine. Between any two steps, of whichever goroutines, the object is valid.
 */
module RelaySession {
  import opened Wrappers
  import opened Protocol
  import opened Execution
  import opened RelaySteps
  import opened RelayTable
  import opened RelayCancel
  import opened RelayShutdown
  import opened RelayTheorems

  /** The options of `Serve`, whose unset fields `defaults` fills in. */
  class Options {
    var deviceId: string
    var deviceName: string
    var maxRequestBytes: int
    var maxResponseBytes: int
    var concurrency: int
    var queueSize: int
    var heartbeat: int
    var defaultTimeout: int

    constructor (deviceId: string, deviceName: string, maxRequestBytes: int, maxResponseBytes: int, concurrency: int,
                 queueSize: int, heartbeat: int, defaultTimeout: int)
      ensures this.deviceId == deviceId && this.deviceName == deviceName
      ensures this.maxRequestBytes == maxRequestBytes && this.maxResponseBytes == maxResponseBytes
      ensures this.concurrency == concurrency && this.queueSize == queueSize
      ensures this.heartbeat == heartbeat && this.defaultTimeout == defaultTimeout
    {
      this.deviceId, this.deviceName := deviceId, deviceName;
      this.maxRequestBytes, this.maxResponseBytes := maxRequestBytes, maxResponseBytes;
      this.concurrency, this.queueSize := concurrency, queueSize;
      this.heartbeat, this.defaultTimeout := heartbeat, defaultTimeout;
    }

    /** A positive setting is kept, any other replaced by its default; afterwards the options are usable. */
    method Defaults()
      modifies this`maxRequestBytes, this`maxResponseBytes, this`concurrency, this`queueSize
      modifies this`heartbeat, this`defaultTimeout
      ensures maxRequestBytes == if old(maxRequestBytes) > 0 then old(maxRequestBytes) else 8 * 1024 * 1024
      ensures maxResponseBytes == if old(maxResponseBytes) > 0 then old(maxResponseBytes) else 16 * 1024 * 1024
      ensures concurrency == if old(concurrency) > 0 then old(concurrency) else 4
      ensures queueSize == if old(queueSize) > 0 then old(queueSize) else 16
      ensures heartbeat == if old(heartbeat) > 0 then old(heartbeat) else 20_000 * MILLISECOND
      ensures defaultTimeout == if old(defaultTimeout) > 0 then old(defaultTimeout) else 2 * MINUTE
      ensures concurrency > 0 && queueSize > 0 && Settings().Usable()
    {
      if maxRequestBytes <= 0 {
        maxRequestBytes := 8 * 1024 * 1024;
      }
      if maxResponseBytes <= 0 {
        maxResponseBytes := 16 * 1024 * 1024;
      }
      if concurrency <= 0 {
        concurrency := 4;
      }
      if queueSize <= 0 {
        queueSize := 16;
      }
      if heartbeat <= 0 {
        heartbeat := 20_000 * MILLISECOND;
      }
      if defaultTimeout <= 0 {
        defaultTimeout := 2 * MINUTE;
      }
    }

    function Settings(): Config
      requires concurrency > 0 && queueSize > 0
      reads this
    {
      Config(deviceId, deviceName, maxRequestBytes, maxResponseBytes, concurrency, queueSize, defaultTimeout)
    }
  }

  /**
   What the goroutines rely on: a report finds its channel empty, the queue is open while it may be sent to, identifiers
   found free are still free, and what is to be taken out of the table is one's own.
   */
  predicate Owned(s: State) {
    && (s.reader.Failing? ==> s.shared.readErrors == [])
    && (s.reader.Offering? ==> !s.shared.jobsClosed)
    && (s.reader.Registering? ==> s.reader.job.request.id !in s.shared.cancellations)
    && (s.reader.Unregistering? ==> Maps(s.shared.cancellations, s.reader.job.request.id, s.reader.job.ticket))
    && (forall i :: 0 <= i < |s.workers| && s.workers[i].Deleting? ==>
          Maps(s.shared.cancellations, s.workers[i].job.request.id, s.workers[i].job.ticket))
    && (s.main.ClosingJobs? ==> s.reader.Returned?)
  }

  lemma ValidIsOwned(s: State)
    requires Inv(s)
    ensures Owned(s)
  {
    if s.reader.Unregistering? {
      HolderIsInTable(s, s.reader.job);
    }
    forall i | 0 <= i < |s.workers| && s.workers[i].Deleting?
      ensures Maps(s.shared.cancellations, s.workers[i].job.request.id, s.workers[i].job.ticket)
    {
      WorkerDeletesEntry(s, i, "", 0);
    }
  }

  /** The reader's steps use only what is owned, and change the table only in the entry of its own request. */
  lemma ReaderUsesItsOwn(s: State, a: ReaderAction)
    requires ReaderEnabled(s, a) && Owned(s)
    ensures var d := RelaySteps.ReaderStep(s, a).shared;
      && (d.cancellations != s.shared.cancellations ==> a.Registers? || a.Unregisters?)
      && (a.Fails? ==> d.readErrors == [s.reader.failure])
      && (a.Sends? ==> |d.jobs| <= s.config.queueSize && !d.jobsClosed)
  {
  }

  predicate HandlesRequest(a: ReaderAction) {
    a.Checks? || a.Registers? || a.Sends? || a.Quits? || a.FindsFull? || a.Unregisters? || a.Withdraws? || a.Abandons?
  }

  class Session {
    const config: Config
    var shared: Shared
    var reader: ReaderPC
    var workers: seq<WorkerPC>
    var heart: HeartPC
    var main: MainPC
    var result: Option<Failure>
    var past: Past

    function Snapshot(): State
      reads this
    {
      State(config, shared, reader, workers, heart, main, result, past)
    }

    /** Everything that is kept by every step of every goroutine. */
    ghost predicate Valid()
      reads this
    {
      Inv(Snapshot())
    }

    constructor (config: Config)
      requires config.Usable()
      ensures this.config == config && Snapshot() == Init(config) && Valid()
    {
      this.config := config;
      shared := Shared([], false, map[], {}, [], [], false, false, false);
      reader, workers, heart, main, result := NotStarted, [], Resting, Greeting, None;
      past := Past([], [], map[], {}, [], [], [], map[], [], None, {}, []);
      new;
      InitInv(config);
    }

    /**
     The main goroutine goes one step down the path of the shutdown. The queue is closed only when its one sender has
     returned.
     */
    method MainStep(a: MainAction)
      requires MainEnabled(Snapshot(), a) && !a.Greets? && Owned(Snapshot())
      modifies this`main, this`result, this`shared
      ensures Snapshot() == RelaySteps.MainStep(old(Snapshot()), a)
      ensures a.CancelsAll? ==> forall id :: id in shared.cancellations ==> shared.cancellations[id] in shared.canceled
      ensures a.ClosesJobs? ==> shared.jobsClosed && reader.Returned?
    {
      match a {
        case Selects(OnInterrupt) => main, result := Stopping, Some(Interrupted);
        case Selects(OnReadError) =>
          main, result := Stopping, Some(shared.readErrors[0]);
          shared := shared.(readErrors := shared.readErrors[1..]);
        case Selects(OnWriteError) =>
          main, result := Stopping, Some(shared.writeErrors[0]);
          shared := shared.(writeErrors := shared.writeErrors[1..]);
        case Selects(OnStop) => main, result := Stopping, Some(ServeStopped);
        case Stops => main, shared := Closing, shared.(stopped := true);
        case Closes => main, shared := JoiningReader, shared.(closed := true);
        case JoinsReader => main := CancellingAll;
        case CancelsAll =>
          shared := shared.(canceled := shared.canceled + shared.cancellations.Values);
          main := ClosingJobs;
        case ClosesJobs => main, shared := JoiningWorkers, shared.(jobsClosed := true);
        case JoinsWorkers => main := JoiningHeart;
        case Returns => main := Finished;
      }
    }

    /** The hello is the first thing written; without it no goroutine starts, with it all of them do. */
    method Greet(ok: bool)
      requires main.Greeting?
      modifies this`main, this`result, this`reader, this`workers, this`heart, this`past, this`shared
      ensures Snapshot() == RelaySteps.Greet(old(Snapshot()), ok)
    {
      past := past.(writes := past.writes + [Written(None, HelloOf(config), ok)]);
      if !ok {
        main, result, shared := Finished, Some(WriteFailed), shared.(closed := true, stopped := true);
        return;
      }
      main, reader, workers, heart := Selecting, Polling, IdleWorkers(config.concurrency), Waiting;
    }

    /**
     The reader never touches a worker, and changes the table only in the entry of its own request. What it takes out of
     the table was its own, what it reports finds the channel empty, and what it queues fits.
     */
    method ReaderStep(a: ReaderAction)
      requires ReaderEnabled(Snapshot(), a) && Owned(Snapshot())
      modifies this`reader, this`past, this`shared
      ensures Snapshot() == RelaySteps.ReaderStep(old(Snapshot()), a)
      ensures shared.cancellations != old(shared.cancellations) ==> a.Registers? || a.Unregisters?
      ensures a.Registers? ==> old(reader.job.request.id !in shared.cancellations)
      ensures a.Unregisters? ==> old(Maps(shared.cancellations, reader.job.request.id, reader.job.ticket))
      ensures a.Fails? ==> shared.readErrors == [old(reader.failure)]
      ensures a.Sends? ==> |shared.jobs| <= config.queueSize && !shared.jobsClosed
    {
      ReaderUsesItsOwn(Snapshot(), a);
      match a {
        case Polls => reader := if shared.interrupted || shared.stopped then Returned else Reading;
        case Reads(inbound, now) => TakeMessage(inbound, now);
        case Fails => reader, shared := Returned, shared.(readErrors := shared.readErrors + [reader.failure]);
        case LooksUp =>
          var target := None;
          if reader.id in shared.cancellations {
            target := Some(shared.cancellations[reader.id]);
            past := past.(targeted := past.targeted + {shared.cancellations[reader.id]});
          }
          reader := Cancelling(target);
        case Cancels =>
          if reader.target.Some? {
            shared := shared.(canceled := shared.canceled + {reader.target.value});
          }
          reader := Polling;
        case Replies(ok) =>
          past := past.(writes := past.writes + [Written(reader.ticket, reader.message, ok)]);
          reader := if ok then Polling else Reporting;
        case Reports =>
          shared := shared.(writeErrors := TrySend(shared.writeErrors, WriteFailed));
          reader := StoppingReader;
        case StopsSession => reader, shared := Polling, shared.(stopped := true);
        case _ => HandleRequest(a);
      }
    }

    /** A message is decoded and validated before anything shared is touched. */
    method TakeMessage(inbound: Inbound, now: int)
      requires reader.Reading?
      modifies this`reader, this`past
      ensures Snapshot() == RelaySteps.ReaderStep(old(Snapshot()), Reads(inbound, now))
    {
      var received := Receive(config, |past.decoded|, inbound, now);
      past := past.(heard := past.heard + [Heard(inbound, now)], decoded := past.decoded + received.requests);
      reader := received.next;
    }

    /** The path of a request in the reader's hand, from the check of its identifier on. */
    method HandleRequest(a: ReaderAction)
      requires ReaderEnabled(Snapshot(), a) && HandlesRequest(a)
      modifies this`reader, this`past, this`shared
      ensures Snapshot() == RelaySteps.ReaderStep(old(Snapshot()), a)
    {
      var job := reader.job;
      match a {
        case Checks =>
          if job.request.id in shared.cancellations {
            past := past.(rivals := past.rivals[job.ticket := shared.cancellations[job.request.id]]);
            var duplicate := Refusal(job.request, "duplicate_request", "request id is already active");
            reader := Replying(duplicate, Some(job.ticket));
          } else {
            reader := Registering(job);
          }
        case Registers =>
          shared := shared.(cancellations := shared.cancellations[job.request.id := job.ticket]);
          past := past.(registered := past.registered + {job.ticket});
          reader := Offering(job);
        case Sends =>
          shared := shared.(jobs := shared.jobs + [job]);
          past := past.(accepted := past.accepted + [job.ticket]);
          reader := Polling;
        case Quits => reader, past := Abandoning(job), past.(dropped := Some(job));
        case FindsFull => reader := Unregistering(job);
        case Unregisters =>
          shared := shared.(cancellations := shared.cancellations - {job.request.id});
          reader := Withdrawing(job);
        case Withdraws =>
          shared := shared.(canceled := shared.canceled + {job.ticket});
          reader := Replying(Refusal(job.request, "busy", "local companion queue is full"), Some(job.ticket));
        case Abandons => reader, shared := Returned, shared.(canceled := shared.canceled + {job.ticket});
      }
    }

    /**
     A worker never touches another worker or the reader. It takes the oldest job, the one entry it deletes is that of
     its own job, and it writes at most one response, under the identifier of that job.
     */
    method WorkerStep(i: nat, a: WorkerAction)
      requires WorkerEnabled(Snapshot(), i, a) && Owned(Snapshot())
      modifies this`workers, this`past, this`shared
      ensures Snapshot() == RelaySteps.WorkerStep(old(Snapshot()), i, a)
      ensures forall j :: 0 <= j < |workers| && j != i ==> workers[j] == old(workers)[j]
      ensures a.Takes? ==> old(shared.jobs) == [workers[i].job] + shared.jobs
      ensures shared.cancellations != old(shared.cancellations) ==> a.Deletes?
      ensures a.Deletes? ==> old(Maps(shared.cancellations, workers[i].job.request.id, workers[i].job.ticket))
      ensures a.Responds? ==>
                var w := old(workers[i]);
                past.writes == old(past.writes) + [Written(Some(w.job.ticket), Reply(w.response), a.ok)]
    {
      var w := workers[i];
      match a {
        case Takes =>
          w := Dispatching(shared.jobs[0]);
          past := past.(dequeued := past.dequeued + [w.job.ticket]);
          shared := shared.(jobs := shared.jobs[1..]);
        case Calls =>
          past := past.(forwarded := past.forwarded + [w.job.ticket]);
          w := Forwarding(w.job);
        case Resumes(outcome) =>
          var response := ExecuteJob(w.job.request, outcome);
          past := past.(outcomes := past.outcomes[w.job.ticket := outcome]);
          w := Deleting(w.job, response);
        case Deletes =>
          shared := shared.(cancellations := shared.cancellations - {w.job.request.id});
          w := Answering(w.job, w.response);
        case Responds(ok) =>
          past := past.(writes := past.writes + [Written(Some(w.job.ticket), Reply(w.response), ok)]);
          w := if ok then Releasing(w.job) else ReportingFor(w.job);
        case ReportsFailure =>
          shared := shared.(writeErrors := TrySend(shared.writeErrors, WriteFailed));
          w := StoppingFor(w.job);
        case StopsServing =>
          shared := shared.(stopped := true);
          w := Releasing(w.job);
        case Releases =>
          shared := shared.(canceled := shared.canceled + {w.job.ticket});
          w := Idle;
        case Exits => w := Exited;
      }
      workers := workers[i := w];
    }

    /** The heartbeat only reports and stops. */
    method HeartStep(a: HeartAction)
      requires HeartEnabled(Snapshot(), a)
      modifies this`heart, this`shared, this`past
      ensures Snapshot() == RelaySteps.HeartStep(old(Snapshot()), a)
      ensures heart.Ended? ==> shared.interrupted || shared.stopped
    {
      match a {
        case Ticks => heart := Pinging;
        case Pings(ok) =>
          past := past.(pings := past.pings + [ok]);
          heart := if ok then Waiting else ReportingPing;
        case ReportsPing =>
          shared := shared.(writeErrors := TrySend(shared.writeErrors, WriteFailed));
          heart := StoppingHeart;
        case StopsAll => heart, shared := Ended, shared.(stopped := true);
        case Ends => heart := Ended;
      }
    }

    /** One step of anyone, which finds the object valid, relies on what it owns, and leaves the object valid. */
    method Step(a: Action)
      requires Valid() && Enabled(Snapshot(), a)
      modifies this
      ensures Valid() && Snapshot() == Apply(old(Snapshot()), a)
    {
      ValidIsOwned(Snapshot());
      StepKeepsInv(Snapshot(), a);
      Move(a);
    }

    method Move(a: Action)
      requires Enabled(Snapshot(), a) && Owned(Snapshot())
      modifies this
      ensures Snapshot() == Apply(old(Snapshot()), a)
    {
      match a {
        case Interrupt => shared := shared.(interrupted := true);
        case Main(Greets(ok)) => Greet(ok);
        case Main(m) => MainStep(m);
        case Reader(r) => ReaderStep(r);
        case Worker(i, w) => WorkerStep(i, w);
        case Heart(h) => HeartStep(h);
      }
    }

    /** A session under any scheduler. */
    method Serve(schedule: seq<Action>)
      requires Valid() && Snapshot() == Init(config)
      modifies this
      ensures Valid() && Snapshot() == Reached(config, schedule)
      ensures main.Finished? ==> Clean(Snapshot())
    {
      for k := 0 to |schedule|
        invariant Valid() && Reached(config, schedule) == Run(Snapshot(), schedule[k..])
      {
        assert schedule[k..][1..] == schedule[k + 1..];
        if Enabled(Snapshot(), schedule[k]) {
          Step(schedule[k]);
        }
      }
      if main.Finished? {
        FinishedIsClean(Snapshot());
      }
    }
  }
}
