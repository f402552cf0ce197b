/** Where requests are: how often a ticket occurs in the parts of a session. */
module RelayPlaces {
  import opened Wrappers
  import opened RelaySteps

  function One(b: bool): nat {
    if b then 1 else 0
  }

  /** The request in the reader's hand, until it is queued, left behind or answered. */
  predicate ReaderHolds(r: ReaderPC, t: nat) {
    match r
    case Checking(job) => job.ticket == t
    case Registering(job) => job.ticket == t
    case Offering(job) => job.ticket == t
    case Unregistering(job) => job.ticket == t
    case Withdrawing(job) => job.ticket == t
    case Replying(_, ticket) => ticket == Some(t)
    case _ => false
  }

  /** The request in a worker's hand, until the one write of its response has been attempted. */
  predicate WorkerHolds(w: WorkerPC, t: nat) {
    (w.Dispatching? || w.Forwarding? || w.Deleting? || w.Answering?) && w.job.ticket == t
  }

  predicate LeftBehind(dropped: Option<Job>, t: nat) {
    dropped.Some? && dropped.value.ticket == t
  }

  function InQueue(jobs: seq<Job>, t: nat): nat {
    if |jobs| == 0 then 0 else One(jobs[0].ticket == t) + InQueue(jobs[1..], t)
  }

  function WithWorkers(ws: seq<WorkerPC>, t: nat): nat {
    if |ws| == 0 then 0 else One(WorkerHolds(ws[0], t)) + WithWorkers(ws[1..], t)
  }

  /** How often `WriteJSON` has been called for a request. */
  function Answers(writes: seq<Written>, t: nat): nat {
    if |writes| == 0 then 0 else Answers(writes[..|writes| - 1], t) + One(writes[|writes| - 1].ticket == Some(t))
  }

  function Places(s: State, t: nat): nat {
    One(ReaderHolds(s.reader, t)) + InQueue(s.shared.jobs, t) + WithWorkers(s.workers, t)
    + Answers(s.past.writes, t) + One(LeftBehind(s.past.dropped, t))
  }

  /** The reader's request between registration and hand-over or withdrawal. */
  predicate ReaderRegistered(r: ReaderPC, t: nat) {
    (r.Offering? || r.Unregistering?) && r.job.ticket == t
  }

  /** A worker's request until the worker deletes its registration. */
  predicate WorkerRegistered(w: WorkerPC, t: nat) {
    (w.Dispatching? || w.Forwarding? || w.Deleting?) && w.job.ticket == t
  }

  function RegisteredWithWorkers(ws: seq<WorkerPC>, t: nat): nat {
    if |ws| == 0 then 0 else One(WorkerRegistered(ws[0], t)) + RegisteredWithWorkers(ws[1..], t)
  }

  /** The reader's registered request, the queued ones, those of the workers before the delete, the one left behind. */
  function Registrations(s: State, t: nat): nat {
    One(ReaderRegistered(s.reader, t)) + InQueue(s.shared.jobs, t) + RegisteredWithWorkers(s.workers, t)
    + One(LeftBehind(s.past.dropped, t))
  }

  function Tickets(jobs: seq<Job>): (ts: seq<nat>)
    ensures |ts| == |jobs|
  {
    seq(|jobs|, i requires 0 <= i < |jobs| => jobs[i].ticket)
  }

  lemma {:induction false} InQueueAppended(jobs: seq<Job>, job: Job, t: nat)
    ensures InQueue(jobs + [job], t) == InQueue(jobs, t) + One(job.ticket == t)
  {
    if |jobs| == 0 {
      assert jobs + [job] == [job];
    } else {
      assert (jobs + [job])[1..] == jobs[1..] + [job];
      InQueueAppended(jobs[1..], job, t);
    }
  }

  lemma AnswersAppended(writes: seq<Written>, w: Written, t: nat)
    ensures Answers(writes + [w], t) == Answers(writes, t) + One(w.ticket == Some(t))
  {
    assert (writes + [w])[..|writes|] == writes;
  }

  lemma {:induction false} WithWorkersUpdated(ws: seq<WorkerPC>, i: nat, w: WorkerPC, t: nat)
    requires i < |ws|
    ensures WithWorkers(ws[i := w], t) == WithWorkers(ws, t) - One(WorkerHolds(ws[i], t)) + One(WorkerHolds(w, t))
  {
    if i == 0 {
      assert ws[i := w][1..] == ws[1..];
    } else {
      assert ws[i := w][1..] == ws[1..][i - 1 := w];
      WithWorkersUpdated(ws[1..], i - 1, w, t);
    }
  }

  lemma {:induction false} RegisteredWithWorkersUpdated(ws: seq<WorkerPC>, i: nat, w: WorkerPC, t: nat)
    requires i < |ws|
    ensures RegisteredWithWorkers(ws[i := w], t)
      == RegisteredWithWorkers(ws, t) - One(WorkerRegistered(ws[i], t)) + One(WorkerRegistered(w, t))
  {
    if i == 0 {
      assert ws[i := w][1..] == ws[1..];
    } else {
      assert ws[i := w][1..] == ws[1..][i - 1 := w];
      RegisteredWithWorkersUpdated(ws[1..], i - 1, w, t);
    }
  }

  lemma {:induction false} RegisteredAreHeld(ws: seq<WorkerPC>, t: nat)
    ensures RegisteredWithWorkers(ws, t) <= WithWorkers(ws, t)
  {
    if |ws| > 0 {
      RegisteredAreHeld(ws[1..], t);
    }
  }

  lemma {:induction false} NoneWithIdle(ws: seq<WorkerPC>, t: nat)
    requires forall i :: 0 <= i < |ws| ==> ws[i].Idle? || ws[i].Exited?
    ensures WithWorkers(ws, t) == 0 && RegisteredWithWorkers(ws, t) == 0
  {
    if |ws| > 0 {
      NoneWithIdle(ws[1..], t);
    }
  }

  lemma TicketsAppended(jobs: seq<Job>, job: Job)
    ensures Tickets(jobs + [job]) == Tickets(jobs) + [job.ticket]
  {
  }

  lemma TicketsTaken(jobs: seq<Job>)
    requires |jobs| > 0
    ensures Tickets(jobs) == [jobs[0].ticket] + Tickets(jobs[1..])
  {
  }
}
