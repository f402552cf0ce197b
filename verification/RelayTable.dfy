/** Agreement of the `cancellations` table with the queue, the workers and the reader. */
module RelayTable {
  import opened RelaySteps
  import opened RelayPlaces
  import opened RelayInvariants
  import opened RelayJobs

  predicate Maps(table: map<string, nat>, id: string, t: nat) {
    id in table && table[id] == t
  }

  /** A request with that ticket and identifier is registered somewhere. */
  predicate Claims(s: State, id: string, t: nat) {
    t < |s.past.decoded| && s.past.decoded[t].id == id && Registrations(s, t) > 0
  }

  /**
   The table maps an identifier to a cancel function exactly when the request of that cancel function is registered
   under that identifier. Between the reader's check and its insertion the identifier stays free.
   */
  ghost predicate Agrees(s: State) {
    && (forall id: string, t: nat :: Maps(s.shared.cancellations, id, t) <==> Claims(s, id, t))
    && Free(s)
  }

  lemma RegistrationsAreUnique(s: State, t: nat)
    requires Conserved(s)
    ensures Registrations(s, t) <= Places(s, t) == One(t < |s.past.decoded|)
  {
    RegisteredAreHeld(s.workers, t);
  }

  /** A request that is registered with the reader or a worker is in the table under its own identifier. */
  lemma HolderIsInTable(s: State, job: Job)
    requires Conserved(s) && JobsOk(s) && Agrees(s)
    requires JobOk(s.config, s.past.decoded, job) && Registrations(s, job.ticket) > 0
    ensures Maps(s.shared.cancellations, job.request.id, job.ticket) && Registrations(s, job.ticket) == 1
  {
    RegistrationsAreUnique(s, job.ticket);
    assert Claims(s, job.request.id, job.ticket);
  }

  ghost predicate Sound(s: State) {
    LifeCycle(s) && Conserved(s) && JobsOk(s) && Agrees(s)
  }

  lemma ReaderKeepsEntry(s: State, a: ReaderAction, id: string, t: nat)
    requires Sound(s) && ReaderEnabled(s, a)
    ensures Maps(ReaderStep(s, a).shared.cancellations, id, t) <==> Claims(ReaderStep(s, a), id, t)
  {
    assert Maps(s.shared.cancellations, id, t) <==> Claims(s, id, t);
    match a {
      case Reads(inbound, now) => ReaderReadsEntry(s, inbound, now, id, t);
      case Registers => ReaderInsertsEntry(s, id, t);
      case Sends => ReaderSendsEntry(s, id, t);
      case Unregisters => ReaderRemovesEntry(s, id, t);
      case _ => ReaderKeepsEntryInHand(s, a, id, t);
    }
  }

  lemma ReaderKeepsEntryInHand(s: State, a: ReaderAction, id: string, t: nat)
    requires LifeCycle(s) && ReaderEnabled(s, a)
    requires !a.Reads? && !a.Registers? && !a.Sends? && !a.Unregisters?
    requires Maps(s.shared.cancellations, id, t) <==> Claims(s, id, t)
    ensures Maps(ReaderStep(s, a).shared.cancellations, id, t) <==> Claims(ReaderStep(s, a), id, t)
  {
    var s' := ReaderStep(s, a);
    assert Registrations(s', t) == Registrations(s, t);
  }

  lemma ReaderReadsEntry(s: State, inbound: Inbound, now: int, id: string, t: nat)
    requires Sound(s) && s.reader.Reading?
    ensures var s' := ReaderStep(s, Reads(inbound, now));
      Maps(s'.shared.cancellations, id, t) <==> Claims(s', id, t)
  {
    var s' := ReaderStep(s, Reads(inbound, now));
    ReadCases(s, inbound, now);
    RegistrationsAreUnique(s, t);
    assert Registrations(s', t) == Registrations(s, t);
    assert Maps(s.shared.cancellations, id, t) <==> Claims(s, id, t);
  }

  lemma ReaderSendsEntry(s: State, id: string, t: nat)
    requires Sound(s) && ReaderEnabled(s, Sends)
    ensures var s' := ReaderStep(s, Sends);
      Maps(s'.shared.cancellations, id, t) <==> Claims(s', id, t)
  {
    InQueueAppended(s.shared.jobs, s.reader.job, t);
    assert Registrations(ReaderStep(s, Sends), t) == Registrations(s, t);
    assert Maps(s.shared.cancellations, id, t) <==> Claims(s, id, t);
  }

  lemma ReaderInsertsEntry(s: State, id: string, t: nat)
    requires Sound(s) && s.reader.Registering?
    ensures var s' := ReaderStep(s, Registers);
      Maps(s'.shared.cancellations, id, t) <==> Claims(s', id, t)
  {
    var job := s.reader.job;
    assert JobOk(s.config, s.past.decoded, job);
    assert Maps(s.shared.cancellations, id, t) <==> Claims(s, id, t);
    assert Registrations(ReaderStep(s, Registers), t) == Registrations(s, t) + One(job.ticket == t);
  }

  lemma ReaderRemovesEntry(s: State, id: string, t: nat)
    requires Sound(s) && s.reader.Unregistering?
    ensures var s' := ReaderStep(s, Unregisters);
      Maps(s'.shared.cancellations, id, t) <==> Claims(s', id, t)
  {
    var job := s.reader.job;
    HolderIsInTable(s, job);
    assert Maps(s.shared.cancellations, id, t) <==> Claims(s, id, t);
    assert Registrations(ReaderStep(s, Unregisters), t) == Registrations(s, t) - One(job.ticket == t);
  }

  lemma WorkerKeepsEntry(s: State, i: nat, a: WorkerAction, id: string, t: nat)
    requires Sound(s) && WorkerEnabled(s, i, a)
    ensures Maps(WorkerStep(s, i, a).shared.cancellations, id, t) <==> Claims(WorkerStep(s, i, a), id, t)
  {
    if a.Deletes? {
      WorkerDeletesEntry(s, i, id, t);
    } else {
      WorkerKeepsRegistrations(s, i, a, t);
      assert Maps(s.shared.cancellations, id, t) <==> Claims(s, id, t);
    }
  }

  lemma WorkerKeepsRegistrations(s: State, i: nat, a: WorkerAction, t: nat)
    requires WorkerEnabled(s, i, a) && !a.Deletes?
    ensures var s' := WorkerStep(s, i, a);
      && Registrations(s', t) == Registrations(s, t)
      && s'.shared.cancellations == s.shared.cancellations && s'.past.decoded == s.past.decoded
  {
    RegisteredWithWorkersUpdated(s.workers, i, NextWorker(s, i, a), t);
  }

  /** A worker's delete removes its own registration and no other. */
  lemma WorkerDeletesEntry(s: State, i: nat, id: string, t: nat)
    requires Sound(s) && WorkerEnabled(s, i, Deletes)
    ensures Maps(s.shared.cancellations, s.workers[i].job.request.id, s.workers[i].job.ticket)
    ensures Maps(WorkerStep(s, i, Deletes).shared.cancellations, id, t) <==> Claims(WorkerStep(s, i, Deletes), id, t)
  {
    var job := s.workers[i].job;
    assert WorkerOk(s.config, s.past.decoded, s.workers[i]);
    WorkerIsRegistered(s.workers, i);
    HolderIsInTable(s, job);
    assert Maps(s.shared.cancellations, id, t) <==> Claims(s, id, t);
    RegisteredWithWorkersUpdated(s.workers, i, NextWorker(s, i, Deletes), t);
  }

  lemma {:induction false} WorkerIsRegistered(ws: seq<WorkerPC>, i: nat)
    requires i < |ws| && (ws[i].Dispatching? || ws[i].Forwarding? || ws[i].Deleting?)
    ensures RegisteredWithWorkers(ws, ws[i].job.ticket) > 0
  {
    if i > 0 {
      WorkerIsRegistered(ws[1..], i - 1);
    }
  }

  lemma MainKeepsEntry(s: State, a: MainAction, id: string, t: nat)
    requires Sound(s) && MainEnabled(s, a)
    ensures Maps(MainStep(s, a).shared.cancellations, id, t) <==> Claims(MainStep(s, a), id, t)
  {
    assert Maps(s.shared.cancellations, id, t) <==> Claims(s, id, t);
    if a.Greets? {
      NoneWithIdle(MainStep(s, a).workers, t);
    }
  }

  lemma HeartKeepsEntry(s: State, a: HeartAction, id: string, t: nat)
    requires Sound(s) && HeartEnabled(s, a)
    ensures Maps(HeartStep(s, a).shared.cancellations, id, t) <==> Claims(HeartStep(s, a), id, t)
  {
    assert Maps(s.shared.cancellations, id, t) <==> Claims(s, id, t);
  }

  lemma KeepsEntry(s: State, a: Action, id: string, t: nat)
    requires Sound(s) && Enabled(s, a)
    ensures Maps(Apply(s, a).shared.cancellations, id, t) <==> Claims(Apply(s, a), id, t)
  {
    match a
    case Interrupt => assert Maps(s.shared.cancellations, id, t) <==> Claims(s, id, t);
    case Main(m) => MainKeepsEntry(s, m, id, t);
    case Reader(r) => ReaderKeepsEntry(s, r, id, t);
    case Worker(i, w) => WorkerKeepsEntry(s, i, w, id, t);
    case Heart(h) => HeartKeepsEntry(s, h, id, t);
  }

  predicate Free(s: State) {
    s.reader.Registering? ==> s.reader.job.request.id !in s.shared.cancellations
  }

  /** Only the reader inserts, so an identifier it has found free is still free when it inserts. */
  lemma KeepsFree(s: State, a: Action)
    requires Shape(s) && Free(s) && Enabled(s, a)
    ensures Free(Apply(s, a))
  {
    match a
    case Interrupt =>
    case Main(m) => MainKeepsFree(s, m);
    case Reader(r) => ReaderKeepsFree(s, r);
    case Worker(i, w) => WorkerKeepsFree(s, i, w);
    case Heart(h) => HeartKeepsFree(s, h);
  }

  lemma MainKeepsFree(s: State, a: MainAction)
    requires Free(s) && MainEnabled(s, a)
    ensures Free(MainStep(s, a))
  {
  }

  lemma ReaderKeepsFree(s: State, a: ReaderAction)
    requires ReaderEnabled(s, a)
    ensures Free(ReaderStep(s, a))
  {
    if a.Reads? {
      ReadCases(s, a.inbound, a.now);
    }
  }

  lemma WorkerKeepsFree(s: State, i: nat, a: WorkerAction)
    requires Free(s) && WorkerEnabled(s, i, a)
    ensures Free(WorkerStep(s, i, a))
  {
  }

  lemma HeartKeepsFree(s: State, a: HeartAction)
    requires Free(s) && HeartEnabled(s, a)
    ensures Free(HeartStep(s, a))
  {
  }

  lemma KeepsAgrees(s: State, a: Action)
    requires Sound(s) && Enabled(s, a)
    ensures Agrees(Apply(s, a))
  {
    KeepsFree(s, a);
    forall id: string, t: nat
      ensures Maps(Apply(s, a).shared.cancellations, id, t) <==> Claims(Apply(s, a), id, t)
    {
      KeepsEntry(s, a, id, t);
    }
  }
}
