/**
 One relay session (`Serve`) as the steps of its goroutines: a reader, a fixed number of workers, a heartbeat and the
 main goroutine that shuts everything down. One step is one lock section, one channel operation, one call on the
 connection, or the start or the return of a `Forward` call; the scheduler and the environment choose among the steps
 that are possible.
 */
module RelaySteps {
  import opened Wrappers
  import opened Protocol
  import LocalApi
  import opened Execution

  datatype Config = Config(
    deviceId: string, deviceName: string,
    maxRequestBytes: int, maxResponseBytes: int,
    concurrency: nat, queueSize: nat,
    defaultTimeout: int)
  {
    /** What the defaults establish, whatever options were given. */
    predicate Usable() {
      maxRequestBytes > 0 && maxResponseBytes > 0 && concurrency > 0 && queueSize > 0 && defaultTimeout > 0
    }
  }

  /**
   A registered request. Its ticket says how many requests the reader decoded before it, and names its cancel
   function.
   */
  datatype Job = Job(ticket: nat, request: Request, started: int, deadline: int)

  datatype Message =
    | Hello(deviceId: string, deviceName: string, maxRequestBytes: int, maxResponseBytes: int, concurrency: nat)
    | Reply(response: Response)
    | Pong(id: string)

  /** One `WriteJSON` call, the request it answers, and whether it succeeded. */
  datatype Written = Written(ticket: Option<nat>, message: Message, ok: bool)

  /** The typed decodings of a message; none where `json.Unmarshal` fails. */
  datatype Envelope = Envelope(kind: string, request: Option<Request>, cancel: Option<Cancel>, ping: Option<string>)

  /** What `ReadMessage` returns. */
  datatype Inbound = ReadError | Payload(length: nat, envelope: Option<Envelope>)

  /** One return of `ReadMessage`, and the clock reading for it. */
  datatype Heard = Heard(inbound: Inbound, now: int)

  datatype Failure =
    | Interrupted | ServeStopped | ReadFailed | WriteFailed
    | MessageTooLarge | InvalidJson | InvalidRequest | InvalidCancel | InvalidPing | Unsupported(kind: string)

  datatype ReaderPC =
    | NotStarted
    | Polling                                       // select on serveCtx.Done
    | Reading                                       // ReadMessage
    | Failing(failure: Failure)                     // readErrors <- err
    | Checking(job: Job)                            // lock: is the identifier registered?
    | Registering(job: Job)                         // lock: register it
    | Offering(job: Job)                            // select on jobs, serveCtx.Done, default
    | Unregistering(job: Job)                       // lock: take it back, the queue was full
    | Withdrawing(job: Job)                         // cancel()
    | Abandoning(job: Job)                          // cancel(), then return
    | LookingUp(id: string)                         // lock: find the cancel function
    | Cancelling(target: Option<nat>)               // call it
    | Replying(message: Message, ticket: Option<nat>)
    | Reporting                                     // the select in write
    | StoppingReader                                // stop() in write
    | Returned

  datatype WorkerPC =
    | Idle                                          // range jobs
    | Dispatching(job: Job)                         // received, at the call of Forward
    | Forwarding(job: Job)                          // in the call of Forward
    | Deleting(job: Job, response: Response)        // lock: delete the registration
    | Answering(job: Job, response: Response)       // write
    | ReportingFor(job: Job)
    | StoppingFor(job: Job)
    | Releasing(job: Job)                           // work.cancel()
    | Exited

  datatype HeartPC = Resting | Waiting | Pinging | ReportingPing | StoppingHeart | Ended

  datatype MainPC =
    | Greeting                                      // WriteJSON(hello)
    | Selecting
    | Stopping
    | Closing
    | JoiningReader
    | CancellingAll
    | ClosingJobs
    | JoiningWorkers
    | JoiningHeart
    | Finished

  /** What the goroutines share. */
  datatype Shared = Shared(
    jobs: seq<Job>, jobsClosed: bool,
    cancellations: map<string, nat>,
    canceled: set<nat>,
    readErrors: seq<Failure>, writeErrors: seq<Failure>,
    interrupted: bool, stopped: bool, closed: bool)

  /** The result of one `Forward` call. */
  type Outcome = Result<LocalApi.Reply, LocalApi.ForwardError>

  /**
   What has happened: what `ReadMessage` returned; the requests decoded; by ticket, the request that each refused as a
   duplicate clashed with, those ever registered, accepted into the queue, received from it, passed to `Forward`, and
   what each call returned; the calls of `WriteJSON`; the request left behind on shutdown; the requests that cancel
   messages were aimed at; and how the calls of `WritePing` went.
   */
  datatype Past = Past(
    heard: seq<Heard>, decoded: seq<Request>,
    rivals: map<nat, nat>, registered: set<nat>, accepted: seq<nat>, dequeued: seq<nat>, forwarded: seq<nat>,
    outcomes: map<nat, Outcome>, writes: seq<Written>, dropped: Option<Job>, targeted: set<nat>, pings: seq<bool>)

  datatype State = State(
    config: Config, shared: Shared,
    reader: ReaderPC, workers: seq<WorkerPC>, heart: HeartPC, main: MainPC, result: Option<Failure>,
    past: Past)

  datatype Pick = OnInterrupt | OnReadError | OnWriteError | OnStop

  datatype MainAction =
    | Greets(ok: bool) | Selects(pick: Pick) | Stops | Closes | JoinsReader | CancelsAll | ClosesJobs | JoinsWorkers
    | Returns

  datatype ReaderAction =
    | Polls | Reads(inbound: Inbound, now: int) | Fails | Checks | Registers
    | Sends | Quits | FindsFull | Unregisters | Withdraws | Abandons
    | LooksUp | Cancels | Replies(ok: bool) | Reports | StopsSession

  datatype WorkerAction =
    | Takes | Calls | Resumes(outcome: Outcome) | Deletes
    | Responds(ok: bool) | ReportsFailure | StopsServing | Releases | Exits

  datatype HeartAction = Ticks | Pings(ok: bool) | ReportsPing | StopsAll | Ends

  datatype Action =
    | Interrupt
    | Main(m: MainAction)
    | Reader(r: ReaderAction)
    | Worker(who: nat, w: WorkerAction)
    | Heart(h: HeartAction)

  function Init(config: Config): State {
    State(config, Shared([], false, map[], {}, [], [], false, false, false), NotStarted, [], Resting, Greeting, None,
          Past([], [], map[], {}, [], [], [], map[], [], None, {}, []))
  }

  /** `serveCtx` is done once it is stopped or its parent is. */
  predicate ServeDone(s: State) {
    s.shared.interrupted || s.shared.stopped
  }

  predicate Enabled(s: State, a: Action) {
    match a
    case Interrupt => !s.shared.interrupted
    case Main(m) => MainEnabled(s, m)
    case Reader(r) => ReaderEnabled(s, r)
    case Worker(i, w) => WorkerEnabled(s, i, w)
    case Heart(h) => HeartEnabled(s, h)
  }

  function Apply(s: State, a: Action): State
    requires Enabled(s, a)
  {
    match a
    case Interrupt => s.(shared := s.shared.(interrupted := true))
    case Main(m) => MainStep(s, m)
    case Reader(r) => ReaderStep(s, r)
    case Worker(i, w) => WorkerStep(s, i, w)
    case Heart(h) => HeartStep(s, h)
  }

  /** A capacity-one error channel, written by a select with a default. */
  function TrySend(channel: seq<Failure>, failure: Failure): seq<Failure> {
    if |channel| == 0 then [failure] else channel
  }

  // ---------------------------------------------------------------------------------------------
  // The main goroutine
  // ---------------------------------------------------------------------------------------------

  function HelloOf(c: Config): Message {
    Hello(c.deviceId, c.deviceName, c.maxRequestBytes, c.maxResponseBytes, c.concurrency)
  }

  function IdleWorkers(n: nat): (ws: seq<WorkerPC>)
    ensures |ws| == n && forall i :: 0 <= i < n ==> ws[i] == Idle
  {
    seq(n, _ => Idle)
  }

  predicate MainEnabled(s: State, a: MainAction) {
    match a
    case Greets(_) => s.main.Greeting?
    case Selects(pick) =>
      && s.main.Selecting?
      && (match pick
          case OnInterrupt => s.shared.interrupted
          case OnReadError => |s.shared.readErrors| > 0
          case OnWriteError => |s.shared.writeErrors| > 0
          case OnStop => ServeDone(s))
    case Stops => s.main.Stopping?
    case Closes => s.main.Closing?
    case JoinsReader => s.main.JoiningReader? && s.reader.Returned?
    case CancelsAll => s.main.CancellingAll?
    case ClosesJobs => s.main.ClosingJobs?
    case JoinsWorkers => s.main.JoiningWorkers? && forall i :: 0 <= i < |s.workers| ==> s.workers[i].Exited?
    case Returns => s.main.JoiningHeart? && s.heart.Ended?
  }

  function MainStep(s: State, a: MainAction): State
    requires MainEnabled(s, a)
  {
    if a.Greets? then Greet(s, a.ok) else s.(main := NextMain(a), shared := MainShares(s, a), result := ResultOf(s, a))
  }

  /** The hello, and if it goes out the start of all other goroutines. */
  function Greet(s: State, ok: bool): State {
    var past := s.past.(writes := s.past.writes + [Written(None, HelloOf(s.config), ok)]);
    if ok then
      s.(main := Selecting, reader := Polling, workers := IdleWorkers(s.config.concurrency), heart := Waiting,
         past := past)
    else
      s.(main := Finished, result := Some(WriteFailed), shared := s.shared.(closed := true, stopped := true),
         past := past)
  }

  function NextMain(a: MainAction): MainPC {
    match a
    case Greets(_) => Selecting
    case Selects(_) => Stopping
    case Stops => Closing
    case Closes => JoiningReader
    case JoinsReader => CancellingAll
    case CancelsAll => ClosingJobs
    case ClosesJobs => JoiningWorkers
    case JoinsWorkers => JoiningHeart
    case Returns => Finished
  }

  function MainShares(s: State, a: MainAction): Shared
    requires MainEnabled(s, a)
  {
    var d := s.shared;
    match a
    case Selects(OnReadError) => d.(readErrors := d.readErrors[1..])
    case Selects(OnWriteError) => d.(writeErrors := d.writeErrors[1..])
    case Stops => d.(stopped := true)
    case Closes => d.(closed := true)
    case CancelsAll => d.(canceled := d.canceled + d.cancellations.Values)
    case ClosesJobs => d.(jobsClosed := true)
    case _ => d
  }

  function ResultOf(s: State, a: MainAction): Option<Failure>
    requires MainEnabled(s, a)
  {
    match a
    case Selects(OnInterrupt) => Some(Interrupted)
    case Selects(OnReadError) => Some(s.shared.readErrors[0])
    case Selects(OnWriteError) => Some(s.shared.writeErrors[0])
    case Selects(OnStop) => Some(ServeStopped)
    case _ => s.result
  }

  // ---------------------------------------------------------------------------------------------
  // The reader
  // ---------------------------------------------------------------------------------------------

  predicate ReaderEnabled(s: State, a: ReaderAction) {
    match a
    case Polls => s.reader.Polling?
    case Reads(_, _) => s.reader.Reading?
    case Fails => s.reader.Failing? && |s.shared.readErrors| < 1
    case Checks => s.reader.Checking?
    case Registers => s.reader.Registering?
    case Sends => s.reader.Offering? && !s.shared.jobsClosed && |s.shared.jobs| < s.config.queueSize
    case Quits => s.reader.Offering? && ServeDone(s)
    case FindsFull => s.reader.Offering? && !ServeDone(s) && |s.shared.jobs| >= s.config.queueSize
    case Unregisters => s.reader.Unregistering?
    case Withdraws => s.reader.Withdrawing?
    case Abandons => s.reader.Abandoning?
    case LooksUp => s.reader.LookingUp?
    case Cancels => s.reader.Cancelling?
    case Replies(_) => s.reader.Replying?
    case Reports => s.reader.Reporting?
    case StopsSession => s.reader.StoppingReader?
  }

  /** A step moves the reader on, acts on what is shared, and adds to the history. */
  function ReaderStep(s: State, a: ReaderAction): State
    requires ReaderEnabled(s, a)
  {
    s.(reader := NextReader(s, a), shared := ReaderShares(s, a), past := ReaderRecords(s, a))
  }

  function NextReader(s: State, a: ReaderAction): ReaderPC
    requires ReaderEnabled(s, a)
  {
    match a
    case Polls => if ServeDone(s) then Returned else Reading
    case Reads(inbound, now) => Receive(s.config, |s.past.decoded|, inbound, now).next
    case Fails => Returned
    case Checks =>
      var job := s.reader.job;
      if job.request.id in s.shared.cancellations
      then Replying(Refusal(job.request, "duplicate_request", "request id is already active"), Some(job.ticket))
      else Registering(job)
    case Registers => Offering(s.reader.job)
    case Sends => Polling
    case Quits => Abandoning(s.reader.job)
    case FindsFull => Unregistering(s.reader.job)
    case Unregisters => Withdrawing(s.reader.job)
    case Withdraws =>
      Replying(Refusal(s.reader.job.request, "busy", "local companion queue is full"), Some(s.reader.job.ticket))
    case Abandons => Returned
    case LooksUp => Cancelling(Target(s, s.reader.id))
    case Cancels => Polling
    case Replies(ok) => if ok then Polling else Reporting
    case Reports => StoppingReader
    case StopsSession => Polling
  }

  function ReaderShares(s: State, a: ReaderAction): Shared
    requires ReaderEnabled(s, a)
  {
    var d := s.shared;
    match a
    case Fails => d.(readErrors := d.readErrors + [s.reader.failure])
    case Registers => d.(cancellations := d.cancellations[s.reader.job.request.id := s.reader.job.ticket])
    case Sends => d.(jobs := d.jobs + [s.reader.job])
    case Unregisters => d.(cancellations := d.cancellations - {s.reader.job.request.id})
    case Withdraws => d.(canceled := d.canceled + {s.reader.job.ticket})
    case Abandons => d.(canceled := d.canceled + {s.reader.job.ticket})
    case Cancels => d.(canceled := d.canceled + Singleton(s.reader.target))
    case Reports => d.(writeErrors := TrySend(d.writeErrors, WriteFailed))
    case StopsSession => d.(stopped := true)
    case _ => d
  }

  function ReaderRecords(s: State, a: ReaderAction): Past
    requires ReaderEnabled(s, a)
  {
    var h := s.past;
    match a
    case Reads(inbound, now) =>
      h.(heard := h.heard + [Heard(inbound, now)],
         decoded := h.decoded + Receive(s.config, |h.decoded|, inbound, now).requests)
    case Checks =>
      var rival := Target(s, s.reader.job.request.id);
      if rival.Some? then h.(rivals := h.rivals[s.reader.job.ticket := rival.value]) else h
    case Registers => h.(registered := h.registered + {s.reader.job.ticket})
    case Sends => h.(accepted := h.accepted + [s.reader.job.ticket])
    case Quits => h.(dropped := Some(s.reader.job))
    case LooksUp => h.(targeted := h.targeted + Singleton(Target(s, s.reader.id)))
    case Replies(ok) => h.(writes := h.writes + [Written(s.reader.ticket, s.reader.message, ok)])
    case _ => h
  }

  /** The request registered under an identifier, if there is one. */
  function Target(s: State, id: string): Option<nat> {
    if id in s.shared.cancellations then Some(s.shared.cancellations[id]) else None
  }

  function Singleton(ticket: Option<nat>): set<nat> {
    match ticket
    case None => {}
    case Some(t) => {t}
  }

  function Refusal(request: Request, code: string, text: string): Message {
    Reply(ErrorResponse(request.id, code, text))
  }

  /** Where the reader goes with a message, and the request it has decoded, if any. */
  datatype Received = Received(next: ReaderPC, requests: seq<Request>)

  /** From the return of `ReadMessage` to the first lock: decoding and validation. */
  function Receive(config: Config, ticket: nat, inbound: Inbound, now: int): Received {
    match inbound
    case ReadError => Received(Failing(ReadFailed), [])
    case Payload(length, envelope) =>
      if length > config.maxRequestBytes + 4096 then Received(Failing(MessageTooLarge), [])
      else if envelope.None? then Received(Failing(InvalidJson), [])
      else
        var e := envelope.value;
        if e.kind == "request" then
          if e.request.None? then Received(Failing(InvalidRequest), [])
          else Received(Admit(config, ticket, e.request.value, now), [e.request.value])
        else if e.kind == "cancel" then
          if e.cancel.None? || ValidateCancel(e.cancel.value).Some? then Received(Failing(InvalidCancel), [])
          else Received(LookingUp(e.cancel.value.id), [])
        else if e.kind == "ping" then
          if e.ping.None? then Received(Failing(InvalidPing), []) else Received(Replying(Pong(e.ping.value), None), [])
        else Received(Failing(Unsupported(e.kind)), [])
  }

  function Admit(config: Config, ticket: nat, request: Request, now: int): ReaderPC {
    var refusal := ValidateRequest(request, now, config.maxRequestBytes);
    if refusal.Some? then Replying(Refusal(request, "bad_request", refusal.value), Some(ticket))
    else Checking(Job(ticket, request, now, Deadline(request, now, config.defaultTimeout)))
  }

  function Deadline(request: Request, started: int, defaultTimeout: int): int {
    if request.deadlineMs != 0 then request.deadlineMs * MILLISECOND else started + defaultTimeout
  }

  // ---------------------------------------------------------------------------------------------
  // The workers
  // ---------------------------------------------------------------------------------------------

  predicate WorkerEnabled(s: State, i: nat, a: WorkerAction) {
    && i < |s.workers|
    && var w := s.workers[i];
      match a
      case Takes => w.Idle? && |s.shared.jobs| > 0
      case Calls => w.Dispatching?
      case Resumes(_) => w.Forwarding?
      case Deletes => w.Deleting?
      case Responds(_) => w.Answering?
      case ReportsFailure => w.ReportingFor?
      case StopsServing => w.StoppingFor?
      case Releases => w.Releasing?
      case Exits => w.Idle? && |s.shared.jobs| == 0 && s.shared.jobsClosed
  }

  function WorkerStep(s: State, i: nat, a: WorkerAction): State
    requires WorkerEnabled(s, i, a)
  {
    s.(workers := s.workers[i := NextWorker(s, i, a)], shared := WorkerShares(s, i, a), past := WorkerRecords(s, i, a))
  }

  function NextWorker(s: State, i: nat, a: WorkerAction): WorkerPC
    requires WorkerEnabled(s, i, a)
  {
    var w := s.workers[i];
    match a
    case Takes => Dispatching(s.shared.jobs[0])
    case Calls => Forwarding(w.job)
    case Resumes(outcome) => Deleting(w.job, Execute(w.job.request, outcome))
    case Deletes => Answering(w.job, w.response)
    case Responds(ok) => if ok then Releasing(w.job) else ReportingFor(w.job)
    case ReportsFailure => StoppingFor(w.job)
    case StopsServing => Releasing(w.job)
    case Releases => Idle
    case Exits => Exited
  }

  function WorkerShares(s: State, i: nat, a: WorkerAction): Shared
    requires WorkerEnabled(s, i, a)
  {
    var d, w := s.shared, s.workers[i];
    match a
    case Takes => d.(jobs := d.jobs[1..])
    case Deletes => d.(cancellations := d.cancellations - {w.job.request.id})
    case ReportsFailure => d.(writeErrors := TrySend(d.writeErrors, WriteFailed))
    case StopsServing => d.(stopped := true)
    case Releases => d.(canceled := d.canceled + {w.job.ticket})
    case _ => d
  }

  function WorkerRecords(s: State, i: nat, a: WorkerAction): Past
    requires WorkerEnabled(s, i, a)
  {
    var h, w := s.past, s.workers[i];
    match a
    case Takes => h.(dequeued := h.dequeued + [s.shared.jobs[0].ticket])
    case Calls => h.(forwarded := h.forwarded + [w.job.ticket])
    case Resumes(outcome) => h.(outcomes := h.outcomes[w.job.ticket := outcome])
    case Responds(ok) => h.(writes := h.writes + [Written(Some(w.job.ticket), Reply(w.response), ok)])
    case _ => h
  }

  // ---------------------------------------------------------------------------------------------
  // The heartbeat
  // ---------------------------------------------------------------------------------------------

  predicate HeartEnabled(s: State, a: HeartAction) {
    match a
    case Ticks => s.heart.Waiting?
    case Pings(_) => s.heart.Pinging?
    case ReportsPing => s.heart.ReportingPing?
    case StopsAll => s.heart.StoppingHeart?
    case Ends => s.heart.Waiting? && ServeDone(s)
  }

  function HeartStep(s: State, a: HeartAction): State
    requires HeartEnabled(s, a)
  {
    s.(heart := NextHeart(a), shared := HeartShares(s.shared, a), past := HeartRecords(s.past, a))
  }

  function NextHeart(a: HeartAction): HeartPC {
    match a
    case Ticks => Pinging
    case Pings(ok) => if ok then Waiting else ReportingPing
    case ReportsPing => StoppingHeart
    case StopsAll => Ended
    case Ends => Ended
  }

  function HeartShares(d: Shared, a: HeartAction): Shared {
    match a
    case ReportsPing => d.(writeErrors := TrySend(d.writeErrors, WriteFailed))
    case StopsAll => d.(stopped := true)
    case _ => d
  }

  function HeartRecords(h: Past, a: HeartAction): Past {
    match a
    case Pings(ok) => h.(pings := h.pings + [ok])
    case _ => h
  }

  // ---------------------------------------------------------------------------------------------
  // Runs
  // ---------------------------------------------------------------------------------------------

  /** One choice of the scheduler; a step that is not possible changes nothing. */
  function Turn(s: State, a: Action): State {
    if Enabled(s, a) then Apply(s, a) else s
  }

  function Run(s: State, schedule: seq<Action>): State
    decreases |schedule|
  {
    if |schedule| == 0 then s else Run(Turn(s, schedule[0]), schedule[1..])
  }

  /** The main goroutine's way to go. */
  function Rank(main: MainPC): nat {
    match main
    case Greeting => 9
    case Selecting => 8
    case Stopping => 7
    case Closing => 6
    case JoiningReader => 5
    case CancellingAll => 4
    case ClosingJobs => 3
    case JoiningWorkers => 2
    case JoiningHeart => 1
    case Finished => 0
  }
}
