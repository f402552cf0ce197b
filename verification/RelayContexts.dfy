/** Request contexts: every one that is made for a registered request is released by the time `Serve` has returned. */
module RelayContexts {
  import opened RelaySteps
  import opened RelayPlaces
  import opened RelayInvariants
  import opened RelayTable
  import opened RelayCancel
  import opened RelayShutdown
  import opened RelayTheorems

  /** Workers that will still call the cancel function of a request. */
  function Keeping(ws: seq<WorkerPC>, t: nat): nat {
    if |ws| == 0 then 0 else One(!ws[0].Idle? && !ws[0].Exited? && ws[0].job.ticket == t) + Keeping(ws[1..], t)
  }

  predicate ReaderKeeps(r: ReaderPC, t: nat) {
    (r.Offering? || r.Unregistering? || r.Withdrawing? || r.Abandoning?) && r.job.ticket == t
  }

  /** The cancel function of a registered request has been called, or someone is going to call it. */
  predicate Accounted(s: State, t: nat) {
    t in s.past.registered ==>
      t in s.shared.canceled || ReaderKeeps(s.reader, t) || InQueue(s.shared.jobs, t) + Keeping(s.workers, t) > 0
  }

  ghost predicate Contexts(s: State) {
    && (forall t: nat :: Accounted(s, t))
    && (forall t: nat :: ReaderKeeps(s.reader, t) ==> t in s.past.registered)
    && (forall i :: 0 <= i < |s.past.accepted| ==> s.past.accepted[i] in s.past.registered)
    && (s.past.dropped.Some? ==> s.past.dropped.value.ticket in s.past.registered)
  }

  lemma {:induction false} KeepingUpdated(ws: seq<WorkerPC>, i: nat, w: WorkerPC, t: nat)
    requires i < |ws|
    ensures Keeping(ws[i := w], t) == Keeping(ws, t)
      - One(!ws[i].Idle? && !ws[i].Exited? && ws[i].job.ticket == t) + One(!w.Idle? && !w.Exited? && w.job.ticket == t)
  {
    if i == 0 {
      assert ws[i := w][1..] == ws[1..];
    } else {
      assert ws[i := w][1..] == ws[1..][i - 1 := w];
      KeepingUpdated(ws[1..], i - 1, w, t);
    }
  }

  lemma {:induction false} NoneKeeping(ws: seq<WorkerPC>, t: nat)
    requires AllExited(ws)
    ensures Keeping(ws, t) == 0
  {
    if |ws| > 0 {
      NoneKeeping(ws[1..], t);
    }
  }

  lemma ReaderKeepsAccounted(s: State, a: ReaderAction, t: nat)
    requires ReaderEnabled(s, a) && Accounted(s, t)
    ensures Accounted(ReaderStep(s, a), t)
  {
    if a.Sends? {
      InQueueAppended(s.shared.jobs, s.reader.job, t);
    }
  }

  lemma WorkerKeepsAccounted(s: State, i: nat, a: WorkerAction, t: nat)
    requires WorkerEnabled(s, i, a) && Accounted(s, t)
    ensures Accounted(WorkerStep(s, i, a), t)
  {
    KeepingUpdated(s.workers, i, NextWorker(s, i, a), t);
  }

  lemma ReaderKeepsRegistered(s: State, a: ReaderAction, t: nat)
    requires ReaderEnabled(s, a) && (ReaderKeeps(s.reader, t) ==> t in s.past.registered)
    ensures ReaderKeeps(ReaderStep(s, a).reader, t) ==> t in ReaderStep(s, a).past.registered
  {
    if a.Reads? {
      ReadCases(s, a.inbound, a.now);
    }
  }

  lemma ReaderKeepsContexts(s: State, a: ReaderAction)
    requires Contexts(s) && ReaderEnabled(s, a)
    ensures Contexts(ReaderStep(s, a))
  {
    forall t: nat
      ensures Accounted(ReaderStep(s, a), t)
      ensures ReaderKeeps(ReaderStep(s, a).reader, t) ==> t in ReaderStep(s, a).past.registered
    {
      assert Accounted(s, t);
      ReaderKeepsAccounted(s, a, t);
      ReaderKeepsRegistered(s, a, t);
    }
    if a.Sends? || a.Quits? {
      assert ReaderKeeps(s.reader, s.reader.job.ticket);
    }
  }

  lemma WorkerKeepsContexts(s: State, i: nat, a: WorkerAction)
    requires Contexts(s) && WorkerEnabled(s, i, a)
    ensures Contexts(WorkerStep(s, i, a))
  {
    forall t: nat
      ensures Accounted(WorkerStep(s, i, a), t)
    {
      assert Accounted(s, t);
      WorkerKeepsAccounted(s, i, a, t);
    }
  }

  lemma OthersKeepContexts(s: State, u: State)
    requires Contexts(s) && u.past == s.past.(pings := u.past.pings) && u.reader == s.reader && u.workers == s.workers
    requires u.shared.jobs == s.shared.jobs && s.shared.canceled <= u.shared.canceled
    ensures Contexts(u)
  {
    forall t: nat
      ensures Accounted(u, t)
    {
      assert Accounted(s, t);
    }
  }

  lemma StepKeepsContexts(s: State, a: Action)
    requires Inv(s) && Contexts(s) && Enabled(s, a)
    ensures Contexts(Apply(s, a))
  {
    match a
    case Interrupt => OthersKeepContexts(s, Apply(s, a));
    case Main(m) =>
      if !m.Greets? {
        OthersKeepContexts(s, MainStep(s, m));
      }
    case Reader(r) => ReaderKeepsContexts(s, r);
    case Worker(i, w) => WorkerKeepsContexts(s, i, w);
    case Heart(h) => OthersKeepContexts(s, HeartStep(s, h));
  }

  lemma {:induction false} RunKeepsContexts(s: State, schedule: seq<Action>)
    requires Inv(s) && Contexts(s)
    ensures Contexts(Run(s, schedule))
    decreases |schedule|
  {
    if |schedule| == 0 {
    } else {
      if Enabled(s, schedule[0]) {
        StepKeepsContexts(s, schedule[0]);
      }
      TurnKeepsInv(s, schedule[0]);
      RunKeepsContexts(Turn(s, schedule[0]), schedule[1..]);
    }
  }

  /**
   When `Serve` has returned, the cancel function of every request that was ever registered has been called, whether the
   request was answered, refused or left behind; all accepted requests are among them.
   */
  lemma ContextsAreReleased(config: Config, schedule: seq<Action>)
    requires config.Usable() && Reached(config, schedule).main.Finished?
    ensures var s := Reached(config, schedule);
      && s.past.registered <= s.shared.canceled
      && (forall i :: 0 <= i < |s.past.accepted| ==> s.past.accepted[i] in s.past.registered)
      && (s.past.dropped.Some? ==> s.past.dropped.value.ticket in s.shared.canceled)
  {
    InitInv(config);
    RunKeepsContexts(Init(config), schedule);
    ReachedInv(config, schedule);
    var s := Reached(config, schedule);
    FinishedIsClean(s);
    assert s.reader.Returned? || s.reader.NotStarted?;
    forall t: nat | t in s.past.registered
      ensures t in s.shared.canceled
    {
      assert Accounted(s, t);
      NoneKeeping(s.workers, t);
    }
  }

  /** From the point on at which the main goroutine has called them all, no registered request is left uncancelled. */
  predicate Swept(s: State) {
    Rank(s.main) <= 3 ==> forall id :: id in s.shared.cancellations ==> s.shared.cancellations[id] in s.shared.canceled
  }

  lemma StepKeepsSwept(s: State, a: Action)
    requires LifeCycle(s) && Swept(s) && Enabled(s, a)
    ensures Swept(Apply(s, a))
  {
    match a
    case Interrupt =>
    case Main(m) => MainKeepsSwept(s, m);
    case Reader(r) => ReaderKeepsSwept(s, r);
    case Worker(i, w) =>
      assert WorkerStep(s, i, w).main == s.main && s.shared.canceled <= WorkerStep(s, i, w).shared.canceled;
    case Heart(h) =>
  }

  lemma MainKeepsSwept(s: State, a: MainAction)
    requires LifeCycle(s) && Swept(s) && MainEnabled(s, a)
    ensures Swept(MainStep(s, a))
  {
  }

  lemma ReaderKeepsSwept(s: State, a: ReaderAction)
    requires LifeCycle(s) && Swept(s) && ReaderEnabled(s, a)
    ensures Swept(ReaderStep(s, a))
  {
    assert Rank(s.main) > 4;
  }

  lemma {:induction false} RunKeepsSwept(s: State, schedule: seq<Action>)
    requires LifeCycle(s) && Swept(s)
    ensures Swept(Run(s, schedule))
    decreases |schedule|
  {
    if |schedule| == 0 {
    } else {
      if Enabled(s, schedule[0]) {
        StepKeepsSwept(s, schedule[0]);
        KeepsLifeCycle(s, schedule[0]);
      }
      RunKeepsSwept(Turn(s, schedule[0]), schedule[1..]);
    }
  }

  /** Before the workers are waited for, every request that is still registered has been cancelled. */
  lemma ShutdownCancelsAll(config: Config, schedule: seq<Action>, id: string, t: nat)
    requires config.Usable() && Rank(Reached(config, schedule).main) <= 3
    requires Claims(Reached(config, schedule), id, t)
    ensures t in Reached(config, schedule).shared.canceled
  {
    InitInv(config);
    RunKeepsSwept(Init(config), schedule);
    ReachedInv(config, schedule);
    assert Maps(Reached(config, schedule).shared.cancellations, id, t);
  }
}
