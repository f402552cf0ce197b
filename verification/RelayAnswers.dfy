/**
 What a response says about its request: a refusal by the reader means that the request was never accepted, and any
 other response is what `execute` makes of the one `Forward` call that was made for that very request.
 */
module RelayAnswers {
  import opened Wrappers
  import opened Protocol
  import opened Execution
  import opened RelaySteps
  import opened RelayPlaces
  import opened RelayInvariants
  import opened RelayJobs
  import opened RelayCancel
  import opened RelayTheorems
  import opened RelayCalls

  /** The reader's own answers to requests. */
  predicate IsRefusal(response: Response) {
    response.errorCode == "bad_request" || response.errorCode == "duplicate_request" || response.errorCode == "busy"
  }

  lemma ExecuteNeverRefuses(request: Request, outcome: Outcome)
    ensures !IsRefusal(Execute(request, outcome))
  {
    CodesDiffer();
    assert |"bad_request"| == 11 && |"duplicate_request"| == 17 && |"busy"| == 4;
    assert UNAVAILABLE[0] == 'l' && "duplicate_request"[0] == 'd';
  }

  /** The response is what `execute` makes of the request and of what `Forward` returned for it. */
  predicate Truthful(h: Past, t: nat, response: Response) {
    && t in h.accepted && t in h.forwarded && t < |h.decoded| && t in h.outcomes
    && response == Execute(h.decoded[t], h.outcomes[t])
  }

  predicate ReaderTells(h: Past, r: ReaderPC) {
    && (r.Unregistering? || r.Withdrawing? ==> r.job.ticket !in h.accepted)
    && (r.Replying? && r.ticket.Some? ==>
          r.message.Reply? && IsRefusal(r.message.response) && r.ticket.value !in h.accepted)
  }

  predicate WorkerTells(h: Past, w: WorkerPC) {
    && (!w.Idle? && !w.Exited? ==> w.job.ticket in h.accepted)
    && (w.Forwarding? ==> w.job.ticket in h.forwarded)
    && (w.Deleting? || w.Answering? ==> Truthful(h, w.job.ticket, w.response))
  }

  predicate WriteTells(h: Past, w: Written) {
    w.ticket.Some? && w.message.Reply? ==>
      if w.ticket.value in h.accepted then Truthful(h, w.ticket.value, w.message.response)
      else IsRefusal(w.message.response)
  }

  predicate WorkersTell(h: Past, ws: seq<WorkerPC>) {
    forall i :: 0 <= i < |ws| ==> WorkerTells(h, ws[i])
  }

  predicate WritesTell(h: Past, writes: seq<Written>) {
    forall i :: 0 <= i < |writes| ==> WriteTells(h, writes[i])
  }

  predicate Tells(s: State) {
    ReaderTells(s.past, s.reader) && WorkersTell(s.past, s.workers) && WritesTell(s.past, s.past.writes)
  }

  // ---------------------------------------------------------------------------------------------
  // The history grows
  // ---------------------------------------------------------------------------------------------

  /** A later history with nothing accepted in between. */
  predicate Grows(h: Past, k: Past) {
    && h.decoded <= k.decoded && k.accepted == h.accepted && h.forwarded <= k.forwarded
    && forall t :: t in h.outcomes ==> t in k.outcomes && k.outcomes[t] == h.outcomes[t]
  }

  lemma GrowingKeepsTelling(h: Past, k: Past, r: ReaderPC, ws: seq<WorkerPC>, writes: seq<Written>)
    requires Grows(h, k)
    ensures ReaderTells(h, r) ==> ReaderTells(k, r)
    ensures WorkersTell(h, ws) ==> WorkersTell(k, ws)
    ensures WritesTell(h, writes) ==> WritesTell(k, writes)
  {
    forall t: nat, response: Response | Truthful(h, t, response)
      ensures Truthful(k, t, response)
    {
    }
    if WorkersTell(h, ws) {
      forall i | 0 <= i < |ws|
        ensures WorkerTells(k, ws[i])
      {
        assert WorkerTells(h, ws[i]);
      }
    }
    if WritesTell(h, writes) {
      forall i | 0 <= i < |writes|
        ensures WriteTells(k, writes[i])
      {
        assert WriteTells(h, writes[i]);
      }
    }
  }

  lemma {:induction false} UnansweredHasNoWrite(writes: seq<Written>, t: nat, i: nat)
    requires Answers(writes, t) == 0 && i < |writes|
    ensures writes[i].ticket != Some(t)
  {
    if i < |writes| - 1 {
      UnansweredHasNoWrite(writes[..|writes| - 1], t, i);
    }
  }

  lemma {:induction false} HolderIsCounted(ws: seq<WorkerPC>, i: nat, t: nat)
    requires i < |ws| && WorkerHolds(ws[i], t)
    ensures WithWorkers(ws, t) >= 1
  {
    if i > 0 {
      HolderIsCounted(ws[1..], i - 1, t);
    }
  }

  lemma {:induction false} HoldersAreCounted(ws: seq<WorkerPC>, i: nat, j: nat, t: nat)
    requires i < j < |ws| && WorkerHolds(ws[i], t) && WorkerHolds(ws[j], t)
    ensures WithWorkers(ws, t) >= 2
  {
    if i == 0 {
      HolderIsCounted(ws[1..], j - 1, t);
    } else {
      HoldersAreCounted(ws[1..], i - 1, j - 1, t);
    }
  }

  // ---------------------------------------------------------------------------------------------
  // The reader
  // ---------------------------------------------------------------------------------------------

  /** A request that is being queued has no response yet. */
  lemma SendingTells(s: State)
    requires Inv(s) && Tells(s) && ReaderEnabled(s, Sends)
    ensures Tells(ReaderStep(s, Sends))
  {
    var t, s' := s.reader.job.ticket, ReaderStep(s, Sends);
    assert JobOk(s.config, s.past.decoded, s.reader.job);
    assert Places(s, t) == 1;
    forall i | 0 <= i < |s'.past.writes|
      ensures WriteTells(s'.past, s'.past.writes[i])
    {
      UnansweredHasNoWrite(s.past.writes, t, i);
      assert WriteTells(s.past, s.past.writes[i]);
    }
    forall i | 0 <= i < |s'.workers|
      ensures WorkerTells(s'.past, s'.workers[i])
    {
      assert WorkerTells(s.past, s.workers[i]);
    }
  }

  lemma ReadingTells(s: State, inbound: Inbound, now: int)
    requires Ordered(s)
    ensures ReaderTells(s.past, Receive(s.config, |s.past.decoded|, inbound, now).next)
  {
    assert |s.past.decoded| !in s.past.accepted;
  }

  lemma NextReaderTells(s: State, a: ReaderAction)
    requires Ordered(s) && ReaderTells(s.past, s.reader) && ReaderEnabled(s, a)
    ensures ReaderTells(s.past, NextReader(s, a))
  {
    assert Undecided(s.reader) ==> s.reader.job.ticket !in s.past.accepted;
    if a.Reads? {
      ReadingTells(s, a.inbound, a.now);
    }
  }

  lemma ReaderKeepsTells(s: State, a: ReaderAction)
    requires Inv(s) && Tells(s) && ReaderEnabled(s, a)
    ensures Tells(ReaderStep(s, a))
  {
    if a.Sends? {
      SendingTells(s);
    } else {
      NextReaderTells(s, a);
      var t := ReaderStep(s, a);
      assert Grows(s.past, t.past);
      GrowingKeepsTelling(s.past, t.past, t.reader, s.workers, s.past.writes);
      if a.Replies? {
        assert t.past.writes == s.past.writes + [t.past.writes[|s.past.writes|]];
      }
    }
  }

  // ---------------------------------------------------------------------------------------------
  // The workers
  // ---------------------------------------------------------------------------------------------

  /** When `Forward` returns, no other worker has the request, and nothing has been written for it. */
  lemma ResumingTells(s: State, i: nat, outcome: Outcome)
    requires Inv(s) && Tells(s) && WorkerEnabled(s, i, Resumes(outcome))
    ensures Tells(WorkerStep(s, i, Resumes(outcome)))
  {
    var t, s' := s.workers[i].job.ticket, WorkerStep(s, i, Resumes(outcome));
    assert WorkerOk(s.config, s.past.decoded, s.workers[i]);
    HolderIsCounted(s.workers, i, t);
    assert Places(s, t) == 1;
    assert WorkerTells(s.past, s.workers[i]);
    UnheldAreTold(s.past, s'.past, s.workers, i, s'.workers[i], t);
    UnansweredAreTold(s.past, s'.past, t);
  }

  /** And nothing about the workers that have other requests. */
  lemma UnheldAreTold(h: Past, k: Past, ws: seq<WorkerPC>, i: nat, w: WorkerPC, t: nat)
    requires WorkersTell(h, ws) && i < |ws| && WorkerHolds(ws[i], t) && WithWorkers(ws, t) <= 1 && WorkerTells(k, w)
    requires DiffersAt(h, k, t)
    ensures WorkersTell(k, ws[i := w])
  {
    forall j | 0 <= j < |ws| && j != i
      ensures WorkerTells(k, ws[j])
    {
      assert WorkerTells(h, ws[j]);
      if WorkerHolds(ws[j], t) {
        HoldersAreCounted(ws, if i < j then i else j, if i < j then j else i, t);
      }
    }
  }

  /** The histories differ in the outcome for one request at most. */
  predicate DiffersAt(h: Past, k: Past, t: nat) {
    && k == h.(outcomes := k.outcomes)
    && forall u :: u in h.outcomes && u != t ==> u in k.outcomes && k.outcomes[u] == h.outcomes[u]
  }

  /** A new outcome for an unanswered request says nothing about what has been written. */
  lemma UnansweredAreTold(h: Past, k: Past, t: nat)
    requires WritesTell(h, h.writes) && Answers(h.writes, t) == 0
    requires DiffersAt(h, k, t)
    ensures WritesTell(k, k.writes)
  {
    forall j | 0 <= j < |h.writes|
      ensures WriteTells(k, h.writes[j])
    {
      UnansweredHasNoWrite(h.writes, t, j);
      assert WriteTells(h, h.writes[j]);
    }
  }

  lemma NextWorkerTells(s: State, i: nat, a: WorkerAction)
    requires Ordered(s) && WorkerEnabled(s, i, a) && WorkerTells(s.past, s.workers[i]) && !a.Resumes?
    ensures WorkerTells(WorkerRecords(s, i, a), NextWorker(s, i, a))
  {
    if a.Takes? {
      assert s.past.accepted[|s.past.dequeued|] == Tickets(s.shared.jobs)[0];
    }
  }

  lemma WorkerKeepsTells(s: State, i: nat, a: WorkerAction)
    requires Inv(s) && Tells(s) && WorkerEnabled(s, i, a)
    ensures Tells(WorkerStep(s, i, a))
  {
    assert WorkerTells(s.past, s.workers[i]);
    if a.Resumes? {
      ResumingTells(s, i, a.outcome);
    } else {
      var t := WorkerStep(s, i, a);
      NextWorkerTells(s, i, a);
      assert Grows(s.past, t.past);
      GrowingKeepsTelling(s.past, t.past, s.reader, s.workers, s.past.writes);
      if a.Responds? {
        assert t.past.writes == s.past.writes + [t.past.writes[|s.past.writes|]];
      }
    }
  }

  // ---------------------------------------------------------------------------------------------
  // All runs
  // ---------------------------------------------------------------------------------------------

  lemma MainKeepsTells(s: State, a: MainAction)
    requires Shape(s) && Tells(s) && MainEnabled(s, a)
    ensures Tells(MainStep(s, a))
  {
    if a.Greets? {
      assert s.past.writes == [];
    }
  }

  lemma StepKeepsTells(s: State, a: Action)
    requires Inv(s) && Tells(s) && Enabled(s, a)
    ensures Tells(Apply(s, a))
  {
    match a
    case Interrupt =>
    case Main(m) => MainKeepsTells(s, m);
    case Reader(r) => ReaderKeepsTells(s, r);
    case Worker(i, w) => WorkerKeepsTells(s, i, w);
    case Heart(h) =>
  }

  lemma {:induction false} RunKeepsTells(s: State, schedule: seq<Action>)
    requires Inv(s) && Tells(s)
    ensures Tells(Run(s, schedule))
    decreases |schedule|
  {
    if |schedule| == 0 {
    } else {
      if Enabled(s, schedule[0]) {
        StepKeepsTells(s, schedule[0]);
      }
      TurnKeepsInv(s, schedule[0]);
      RunKeepsTells(Turn(s, schedule[0]), schedule[1..]);
    }
  }

  lemma WrittenIsTold(config: Config, schedule: seq<Action>, i: nat)
    requires config.Usable()
    requires i < |Reached(config, schedule).past.writes| && Reached(config, schedule).past.writes[i].ticket.Some?
    ensures var h := Reached(config, schedule).past; h.writes[i].message.Reply? && WriteTells(h, h.writes[i])
  {
    InitInv(config);
    RunKeepsTells(Init(config), schedule);
    ReachedInv(config, schedule);
    var s := Reached(config, schedule);
    assert MessageOk(s.past.decoded, s.past.writes[i].ticket, s.past.writes[i].message);
  }

  /**
   Honest refusals: a response written for a request carries one of the codes `bad_request`, `duplicate_request` and
   `busy` exactly when the request never entered the queue, at any time of any run. Such a request is never forwarded.
   */
  lemma RefusedExactlyWhenNotAccepted(config: Config, schedule: seq<Action>, i: nat)
    requires config.Usable()
    requires i < |Reached(config, schedule).past.writes| && Reached(config, schedule).past.writes[i].ticket.Some?
    ensures var h := Reached(config, schedule).past;
      var w := h.writes[i];
      && w.message.Reply?
      && (IsRefusal(w.message.response) <==> w.ticket.value !in h.accepted)
      && (IsRefusal(w.message.response) ==> w.ticket.value !in h.forwarded)
  {
    WrittenIsTold(config, schedule, i);
    ForwardedOnce(config, schedule);
    DequeuedInOrder(config, schedule);
    var h := Reached(config, schedule).past;
    var t := h.writes[i].ticket.value;
    DequeuedIsAccepted(Reached(config, schedule), t);
    if t in h.accepted {
      ExecuteNeverRefuses(h.decoded[t], h.outcomes[t]);
    }
  }

  lemma DequeuedIsAccepted(s: State, t: nat)
    requires s.past.accepted == s.past.dequeued + Tickets(s.shared.jobs)
    ensures t in s.past.dequeued ==> t in s.past.accepted
  {
  }

  /**
   No response is mixed up with another request's, even if identifiers are reused: what is written for an accepted
   request is what `execute` makes of that request and of the result of the one `Forward` call made for it.
   */
  lemma ResponseIsOfItsRequest(config: Config, schedule: seq<Action>, i: nat)
    requires config.Usable()
    requires i < |Reached(config, schedule).past.writes| && Reached(config, schedule).past.writes[i].ticket.Some?
    requires Reached(config, schedule).past.writes[i].ticket.value in Reached(config, schedule).past.accepted
    ensures var h := Reached(config, schedule).past;
      var w := h.writes[i];
      var t := w.ticket.value;
      && t < |h.decoded| && t in h.outcomes && Count(h.forwarded, t) == 1
      && w.message == Reply(Execute(h.decoded[t], h.outcomes[t]))
  {
    WrittenIsTold(config, schedule, i);
    InitInv(config);
    RunKeepsCalled(Init(config), schedule);
    DequeuedInOrder(config, schedule);
    var s := Reached(config, schedule);
    var t := s.past.writes[i].ticket.value;
    assert CalledOrAtCall(s, t);
    CountOfIncreasing(s.past.dequeued, t);
    CountIsMembership(s.past.forwarded, t);
  }
}
