/** Why a session ends: a failed write stops it, and `Serve` returns what brought it to an end. */
module RelayOutcome {
  import opened Wrappers
  import opened RelaySteps
  import opened RelayInvariants
  import opened RelayCancel
  import opened RelayTheorems
  import opened RelayGreeting
  import opened RelayReading

  /** No write and no ping has failed. */
  predicate Undisturbed(h: Past) {
    (forall i :: 0 <= i < |h.writes| ==> h.writes[i].ok) && (forall i :: 0 <= i < |h.pings| ==> h.pings[i])
  }

  predicate AnyReports(ws: seq<WorkerPC>) {
    exists i :: 0 <= i < |ws| && ws[i].ReportingFor?
  }

  predicate AnyStops(ws: seq<WorkerPC>) {
    exists i :: 0 <= i < |ws| && ws[i].StoppingFor?
  }

  /** Somebody is about to report a failed write. */
  predicate Reports(s: State) {
    s.reader.Reporting? || s.heart.ReportingPing? || AnyReports(s.workers)
  }

  /** Somebody has reported one and is about to stop the session. */
  predicate Stops(s: State) {
    s.reader.StoppingReader? || s.heart.StoppingHeart? || AnyStops(s.workers)
  }

  /** A failed write is reported, unless the main goroutine is past listening, and stops the session. */
  predicate FailuresTell(s: State) {
    !Undisturbed(s.past) ==>
      && (Reports(s) || |s.shared.writeErrors| == 1 || Rank(s.main) <= 7)
      && (Reports(s) || Stops(s) || s.shared.stopped)
  }

  /** And there is no report and no stop without a reason. */
  predicate NothingElseStops(s: State) {
    Undisturbed(s.past) ==>
      && !Reports(s) && !Stops(s) && s.shared.writeErrors == []
      && (s.shared.stopped ==> Rank(s.main) <= 6)
  }

  predicate ErrorsFit(s: State) {
    && (|s.shared.writeErrors| == 1 ==> s.shared.writeErrors == [WriteFailed])
    && (|s.shared.readErrors| == 1 ==>
          s.reader.Returned? && EndsWithFault(s.config, s.past.heard, s.shared.readErrors[0]))
  }

  /** What `Serve` returns is what happened. */
  predicate ResultFits(s: State) {
    match s.result
    case None => true
    case Some(Interrupted) => s.shared.interrupted
    case Some(ServeStopped) => s.shared.interrupted || !Undisturbed(s.past)
    case Some(WriteFailed) => !Undisturbed(s.past)
    case Some(failure) => s.reader.Returned? && EndsWithFault(s.config, s.past.heard, failure)
  }

  /** A session that never got past its hello returns the failure to write it. */
  predicate HelloCounts(s: State) {
    s.main.Finished? && s.reader.NotStarted? ==> s.result == Some(WriteFailed)
  }

  predicate HeartBeats(s: State) {
    s.heart.Ended? ==> ServeDone(s)
  }

  predicate Accountable(s: State) {
    FailuresTell(s) && NothingElseStops(s) && ErrorsFit(s) && ResultFits(s) && HelloCounts(s) && HeartBeats(s)
  }

  // ---------------------------------------------------------------------------------------------
  // Every step keeps it
  // ---------------------------------------------------------------------------------------------

  lemma InterruptKeepsAccount(s: State)
    requires Accountable(s) && !s.shared.interrupted
    ensures Accountable(Apply(s, Interrupt))
  {
    var t := Apply(s, Interrupt);
    assert t.workers == s.workers && t.past == s.past;
  }

  lemma GreetingKeepsAccount(s: State, ok: bool)
    requires LifeCycle(s) && Accountable(s) && s.main.Greeting?
    ensures Accountable(MainStep(s, Greets(ok)))
  {
    var t := MainStep(s, Greets(ok));
    assert Alone(s) && Undisturbed(s.past);
    WriteDisturbs(s.past, t.past, Written(None, HelloOf(s.config), ok));
    assert !AnyReports(t.workers) && !AnyStops(t.workers);
  }

  lemma MainKeepsAccount(s: State, a: MainAction)
    requires LifeCycle(s) && Accountable(s) && MainEnabled(s, a) && !a.Greets?
    ensures Accountable(MainStep(s, a))
  {
    var t := MainStep(s, a);
    assert t.workers == s.workers && t.past == s.past && t.reader == s.reader && t.heart == s.heart;
  }

  lemma WriteDisturbs(h: Past, k: Past, w: Written)
    requires k.writes == h.writes + [w] && k.pings == h.pings
    ensures Undisturbed(k) <==> Undisturbed(h) && w.ok
  {
    assert k.writes[|h.writes|] == w;
    assert forall i :: 0 <= i < |h.writes| ==> k.writes[i] == h.writes[i];
  }

  lemma PingDisturbs(h: Past, k: Past, ok: bool)
    requires k.writes == h.writes && k.pings == h.pings + [ok]
    ensures Undisturbed(k) <==> Undisturbed(h) && ok
  {
    assert k.pings[|h.pings|] == ok;
    assert forall i :: 0 <= i < |h.pings| ==> k.pings[i] == h.pings[i];
  }

  lemma ReplyingKeepsAccount(s: State, ok: bool)
    requires Accountable(s) && ReaderEnabled(s, Replies(ok))
    ensures Accountable(ReaderStep(s, Replies(ok)))
  {
    WriteDisturbs(s.past, ReaderStep(s, Replies(ok)).past, Written(s.reader.ticket, s.reader.message, ok));
  }

  lemma HearingKeepsAccount(s: State, m: Inbound, now: int)
    requires LifeCycle(s) && Accountable(s) && s.reader.Reading?
    ensures Accountable(ReaderStep(s, Reads(m, now)))
  {
    ReadCases(s, m, now);
  }

  lemma ReportingKeepsAccount(s: State, a: ReaderAction)
    requires LifeCycle(s) && Listened(s) && Accountable(s) && ReaderEnabled(s, a)
    requires a.Reports? || a.StopsSession? || a.Fails?
    ensures Accountable(ReaderStep(s, a))
  {
    var t := ReaderStep(s, a);
    assert Undisturbed(t.past) == Undisturbed(s.past) && t.workers == s.workers && t.heart == s.heart;
  }

  lemma ReaderKeepsAccount(s: State, a: ReaderAction)
    requires LifeCycle(s) && Listened(s) && Accountable(s) && ReaderEnabled(s, a)
    ensures Accountable(ReaderStep(s, a))
  {
    match a
    case Reads(m, now) => HearingKeepsAccount(s, m, now);
    case Replies(ok) => ReplyingKeepsAccount(s, ok);
    case Reports => ReportingKeepsAccount(s, a);
    case StopsSession => ReportingKeepsAccount(s, a);
    case Fails => ReportingKeepsAccount(s, a);
    case _ => ReaderKeepsAccountInHand(s, a);
  }

  lemma ReaderKeepsAccountInHand(s: State, a: ReaderAction)
    requires LifeCycle(s) && Accountable(s) && ReaderEnabled(s, a)
    requires !a.Reads? && !a.Replies? && !a.Reports? && !a.StopsSession? && !a.Fails?
    ensures Accountable(ReaderStep(s, a))
  {
    var t, d, e := ReaderStep(s, a), s.shared, ReaderStep(s, a).shared;
    assert t.workers == s.workers && t.heart == s.heart && t.main == s.main && t.result == s.result;
    assert t.past.writes == s.past.writes && t.past.pings == s.past.pings && t.past.heard == s.past.heard;
    assert e.writeErrors == d.writeErrors && e.readErrors == d.readErrors;
    assert e.stopped == d.stopped && e.interrupted == d.interrupted;
    assert !t.reader.Reporting? && !t.reader.StoppingReader? && !s.reader.Reporting? && !s.reader.StoppingReader?;
    SameFailures(s, t);
    SameEnds(s, t);
  }

  /** What the errors and the result depend on. */
  lemma SameEnds(s: State, t: State)
    requires t.config == s.config && t.past.heard == s.past.heard && Undisturbed(t.past) == Undisturbed(s.past)
    requires t.shared.writeErrors == s.shared.writeErrors && t.shared.readErrors == s.shared.readErrors
    requires t.result == s.result && t.main == s.main && t.heart == s.heart
    requires t.shared.interrupted == s.shared.interrupted && t.shared.stopped == s.shared.stopped
    requires (s.reader.Returned? ==> t.reader.Returned?) && (t.reader.NotStarted? ==> s.reader.NotStarted?)
    ensures ErrorsFit(s) ==> ErrorsFit(t)
    ensures ResultFits(s) ==> ResultFits(t)
    ensures HelloCounts(s) && HeartBeats(s) ==> HelloCounts(t) && HeartBeats(t)
  {
  }

  /** What the account of failures depends on. */
  lemma SameFailures(s: State, t: State)
    requires t.past.writes == s.past.writes && t.past.pings == s.past.pings && Reports(t) == Reports(s)
    requires Stops(t) == Stops(s) && t.main == s.main
    requires t.shared.writeErrors == s.shared.writeErrors && t.shared.stopped == s.shared.stopped
    ensures FailuresTell(s) ==> FailuresTell(t)
    ensures NothingElseStops(s) ==> NothingElseStops(t)
  {
  }

  lemma WorkerMoves(ws: seq<WorkerPC>, i: nat, w: WorkerPC)
    requires i < |ws|
    ensures w.ReportingFor? ==> AnyReports(ws[i := w])
    ensures w.StoppingFor? ==> AnyStops(ws[i := w])
    ensures AnyReports(ws) && !ws[i].ReportingFor? ==> AnyReports(ws[i := w])
    ensures AnyStops(ws) && !ws[i].StoppingFor? ==> AnyStops(ws[i := w])
    ensures AnyReports(ws[i := w]) ==> AnyReports(ws) || w.ReportingFor?
    ensures AnyStops(ws[i := w]) ==> AnyStops(ws) || w.StoppingFor?
  {
    var us := ws[i := w];
    assert us[i] == w && forall j :: 0 <= j < |ws| && j != i ==> us[j] == ws[j];
  }

  lemma RespondingKeepsAccount(s: State, i: nat, ok: bool)
    requires Accountable(s) && WorkerEnabled(s, i, Responds(ok))
    ensures Accountable(WorkerStep(s, i, Responds(ok)))
  {
    var w := s.workers[i];
    WorkerMoves(s.workers, i, NextWorker(s, i, Responds(ok)));
    WriteDisturbs(s.past, WorkerStep(s, i, Responds(ok)).past, Written(Some(w.job.ticket), Reply(w.response), ok));
  }

  lemma WorkerReportKeepsAccount(s: State, i: nat, a: WorkerAction)
    requires LifeCycle(s) && Accountable(s) && WorkerEnabled(s, i, a) && (a.ReportsFailure? || a.StopsServing?)
    ensures Accountable(WorkerStep(s, i, a))
  {
    var t := WorkerStep(s, i, a);
    WorkerMoves(s.workers, i, NextWorker(s, i, a));
    assert s.workers[i].ReportingFor? ==> AnyReports(s.workers);
    assert s.workers[i].StoppingFor? ==> AnyStops(s.workers);
    assert t.past == s.past;
  }

  lemma WorkerKeepsAccount(s: State, i: nat, a: WorkerAction)
    requires LifeCycle(s) && Accountable(s) && WorkerEnabled(s, i, a)
    ensures Accountable(WorkerStep(s, i, a))
  {
    match a
    case Responds(ok) => RespondingKeepsAccount(s, i, ok);
    case ReportsFailure => WorkerReportKeepsAccount(s, i, a);
    case StopsServing => WorkerReportKeepsAccount(s, i, a);
    case _ => WorkerKeepsAccountInHand(s, i, a);
  }

  lemma WorkerKeepsAccountInHand(s: State, i: nat, a: WorkerAction)
    requires Accountable(s) && WorkerEnabled(s, i, a)
    requires !a.Responds? && !a.ReportsFailure? && !a.StopsServing?
    ensures Accountable(WorkerStep(s, i, a))
  {
    var t, d, e := WorkerStep(s, i, a), s.shared, WorkerStep(s, i, a).shared;
    WorkerMoves(s.workers, i, NextWorker(s, i, a));
    assert t.past.writes == s.past.writes && t.past.pings == s.past.pings && t.past.heard == s.past.heard;
    assert e.writeErrors == d.writeErrors && e.readErrors == d.readErrors;
    assert e.stopped == d.stopped && e.interrupted == d.interrupted;
    SameFailures(s, t);
  }

  lemma HeartKeepsAccount(s: State, a: HeartAction)
    requires LifeCycle(s) && Accountable(s) && HeartEnabled(s, a)
    ensures Accountable(HeartStep(s, a))
  {
    if a.Pings? {
      PingDisturbs(s.past, HeartStep(s, a).past, a.ok);
    } else {
      assert HeartStep(s, a).past == s.past;
    }
  }

  lemma StepKeepsAccount(s: State, a: Action)
    requires LifeCycle(s) && Listened(s) && Accountable(s) && Enabled(s, a)
    ensures Accountable(Apply(s, a))
  {
    match a
    case Interrupt => InterruptKeepsAccount(s);
    case Main(Greets(ok)) => GreetingKeepsAccount(s, ok);
    case Main(m) => MainKeepsAccount(s, m);
    case Reader(r) => ReaderKeepsAccount(s, r);
    case Worker(i, w) => WorkerKeepsAccount(s, i, w);
    case Heart(h) => HeartKeepsAccount(s, h);
  }

  lemma {:induction false} RunKeepsAccount(s: State, schedule: seq<Action>)
    requires Inv(s) && Listened(s) && Accountable(s)
    ensures Accountable(Run(s, schedule))
    decreases |schedule|
  {
    if |schedule| == 0 {
    } else {
      if Enabled(s, schedule[0]) {
        StepKeepsAccount(s, schedule[0]);
        StepKeepsListened(s, schedule[0]);
      }
      TurnKeepsInv(s, schedule[0]);
      RunKeepsAccount(Turn(s, schedule[0]), schedule[1..]);
    }
  }

  lemma ReachedAccount(config: Config, schedule: seq<Action>)
    requires config.Usable()
    ensures Accountable(Reached(config, schedule)) && Inv(Reached(config, schedule))
    ensures Reached(config, schedule).config == config
  {
    InitInv(config);
    RunKeepsAccount(Init(config), schedule);
    ReachedInv(config, schedule);
    ConfigIsConstant(Init(config), schedule);
  }

  /**
   A write or ping that fails is reported to the main goroutine, if that is still listening, and stops the session, or
   somebody is about to do so; nothing else does before the main goroutine has chosen what to return.
   */
  lemma FailedWritesStop(config: Config, schedule: seq<Action>)
    requires config.Usable()
    ensures var s := Reached(config, schedule);
      && FailuresTell(s)
      && (|s.shared.writeErrors| == 1 || (s.shared.stopped && Rank(s.main) > 6) ==> !Undisturbed(s.past))
      && (s.heart.Ended? ==> ServeDone(s))
  {
    ReachedAccount(config, schedule);
  }

  /**
   `Serve` returns the interruption only if there was one, a write failure only if a write or a ping failed, the stop
   of the session only if there was either, and anything else only if it is what was wrong with the last message. If
   nothing was interrupted and no write failed, it returns what was wrong with the last message; if the hello could not
   be written, it returns that.
   */
  lemma ResultSaysWhy(config: Config, schedule: seq<Action>)
    requires config.Usable() && Reached(config, schedule).main.Finished?
    ensures var s := Reached(config, schedule);
      && s.result.Some? && ResultFits(s)
      && (|s.past.writes| == 1 && !s.past.writes[0].ok ==> s.result == Some(WriteFailed))
      && (Undisturbed(s.past) && !s.shared.interrupted ==> EndsWithFault(config, s.past.heard, s.result.value))
  {
    ReachedAccount(config, schedule);
    RunKeepsGreeted(Init(config), schedule);
    InitInv(config);
  }
}
