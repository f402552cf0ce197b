/**
 The calls of `Forward`. Receiving a job and calling `Forward` with it are two steps of a worker, so calls may overtake
 one another; but no request is passed twice and none is lost.
 */
module RelayCalls {
  import opened RelaySteps
  import opened RelayPlaces
  import opened RelayInvariants
  import opened RelayJobs
  import opened RelayCancel
  import opened RelayShutdown
  import opened RelayTheorems

  function Count(ts: seq<nat>, t: nat): nat {
    if |ts| == 0 then 0 else Count(ts[..|ts| - 1], t) + One(ts[|ts| - 1] == t)
  }

  /** Workers that have received a request and not yet called `Forward` with it. */
  function AtCall(ws: seq<WorkerPC>, t: nat): nat {
    if |ws| == 0 then 0 else One(ws[0].Dispatching? && ws[0].job.ticket == t) + AtCall(ws[1..], t)
  }

  predicate CalledOrAtCall(s: State, t: nat) {
    Count(s.past.forwarded, t) + AtCall(s.workers, t) == Count(s.past.dequeued, t)
  }

  /** What has been received has been passed on, except what is at the call. */
  ghost predicate Called(s: State) {
    forall t: nat :: CalledOrAtCall(s, t)
  }

  lemma CountAppended(ts: seq<nat>, u: nat, t: nat)
    ensures Count(ts + [u], t) == Count(ts, t) + One(u == t)
  {
    assert (ts + [u])[..|ts|] == ts;
  }

  lemma {:induction false} CountIsMembership(ts: seq<nat>, t: nat)
    ensures Count(ts, t) > 0 <==> t in ts
    ensures Count(ts, t) == multiset(ts)[t]
  {
    if |ts| > 0 {
      CountIsMembership(ts[..|ts| - 1], t);
      assert ts == ts[..|ts| - 1] + [ts[|ts| - 1]];
    }
  }

  lemma {:induction false} CountOfIncreasing(ts: seq<nat>, t: nat)
    requires Increasing(ts)
    ensures Count(ts, t) <= 1
  {
    if |ts| > 0 {
      var front := ts[..|ts| - 1];
      CountOfIncreasing(front, t);
      CountIsMembership(front, t);
    }
  }

  lemma {:induction false} AtCallUpdated(ws: seq<WorkerPC>, i: nat, w: WorkerPC, t: nat)
    requires i < |ws|
    ensures AtCall(ws[i := w], t)
      == AtCall(ws, t) - One(ws[i].Dispatching? && ws[i].job.ticket == t) + One(w.Dispatching? && w.job.ticket == t)
  {
    if i == 0 {
      assert ws[i := w][1..] == ws[1..];
    } else {
      assert ws[i := w][1..] == ws[1..][i - 1 := w];
      AtCallUpdated(ws[1..], i - 1, w, t);
    }
  }

  lemma {:induction false} NoneAtCall(ws: seq<WorkerPC>, t: nat)
    requires forall i :: 0 <= i < |ws| ==> !ws[i].Dispatching?
    ensures AtCall(ws, t) == 0
  {
    if |ws| > 0 {
      NoneAtCall(ws[1..], t);
    }
  }

  lemma WorkerKeepsCalled(s: State, i: nat, a: WorkerAction, t: nat)
    requires WorkerEnabled(s, i, a) && CalledOrAtCall(s, t)
    ensures CalledOrAtCall(WorkerStep(s, i, a), t)
  {
    AtCallUpdated(s.workers, i, NextWorker(s, i, a), t);
    match a
    case Takes => CountAppended(s.past.dequeued, s.shared.jobs[0].ticket, t);
    case Calls => CountAppended(s.past.forwarded, s.workers[i].job.ticket, t);
    case _ =>
  }

  lemma MainKeepsCalled(s: State, a: MainAction, t: nat)
    requires Shape(s) && MainEnabled(s, a) && CalledOrAtCall(s, t)
    ensures CalledOrAtCall(MainStep(s, a), t)
  {
    if a.Greets? {
      NoneAtCall(MainStep(s, a).workers, t);
    }
  }

  lemma StepKeepsCalled(s: State, a: Action)
    requires Shape(s) && Called(s) && Enabled(s, a)
    ensures Called(Apply(s, a))
  {
    forall t: nat
      ensures CalledOrAtCall(Apply(s, a), t)
    {
      assert CalledOrAtCall(s, t);
      StepKeepsCallOf(s, a, t);
    }
  }

  lemma StepKeepsCallOf(s: State, a: Action, t: nat)
    requires Shape(s) && CalledOrAtCall(s, t) && Enabled(s, a)
    ensures CalledOrAtCall(Apply(s, a), t)
  {
    match a
    case Interrupt =>
    case Main(m) => MainKeepsCalled(s, m, t);
    case Reader(r) => ReaderKeepsCalled(s, r, t);
    case Worker(i, w) => WorkerKeepsCalled(s, i, w, t);
    case Heart(h) =>
  }

  lemma ReaderKeepsCalled(s: State, a: ReaderAction, t: nat)
    requires CalledOrAtCall(s, t) && ReaderEnabled(s, a)
    ensures CalledOrAtCall(ReaderStep(s, a), t)
  {
    var u := ReaderStep(s, a);
    assert u.past.dequeued == s.past.dequeued && u.past.forwarded == s.past.forwarded && u.workers == s.workers;
  }

  lemma {:induction false} RunKeepsCalled(s: State, schedule: seq<Action>)
    requires Inv(s) && Called(s)
    ensures Called(Run(s, schedule))
    decreases |schedule|
  {
    if |schedule| == 0 {
    } else {
      if Enabled(s, schedule[0]) {
        StepKeepsCalled(s, schedule[0]);
      }
      TurnKeepsInv(s, schedule[0]);
      RunKeepsCalled(Turn(s, schedule[0]), schedule[1..]);
    }
  }

  predicate Distinct(ts: seq<nat>) {
    forall i, j :: 0 <= i < j < |ts| ==> ts[i] != ts[j]
  }

  lemma {:induction false} CountedOnceIsDistinct(ts: seq<nat>)
    requires forall t: nat :: Count(ts, t) <= 1
    ensures Distinct(ts)
  {
    if |ts| > 0 {
      var front, last := ts[..|ts| - 1], ts[|ts| - 1];
      forall t: nat
        ensures Count(front, t) <= 1
      {
        assert Count(ts, t) <= 1;
      }
      CountedOnceIsDistinct(front);
      assert Count(ts, last) <= 1;
      CountIsMembership(front, last);
      assert forall i :: 0 <= i < |front| ==> front[i] in front;
    }
  }

  /**
   `Forward` is called at most once for a request, and only for one that a worker has received from the queue. When
   `Serve` has returned, it has been called for exactly the accepted requests.
   */
  lemma ForwardedOnce(config: Config, schedule: seq<Action>)
    requires config.Usable()
    ensures var s := Reached(config, schedule);
      && Distinct(s.past.forwarded)
      && (forall t: nat :: t in s.past.forwarded ==> t in s.past.dequeued)
      && AllBelow(s.past.forwarded, |s.past.decoded|)
      && (s.main.Finished? ==> multiset(s.past.forwarded) == multiset(s.past.accepted))
  {
    InitInv(config);
    DequeuedInOrder(config, schedule);
    RunKeepsCalled(Init(config), schedule);
    var s := Reached(config, schedule);
    forall t: nat
      ensures Count(s.past.forwarded, t) <= Count(s.past.dequeued, t) <= 1
      ensures t in s.past.forwarded ==> t in s.past.dequeued
    {
      assert CalledOrAtCall(s, t);
      CountOfIncreasing(s.past.dequeued, t);
      CountIsMembership(s.past.forwarded, t);
      CountIsMembership(s.past.dequeued, t);
    }
    CountedOnceIsDistinct(s.past.forwarded);
    assert forall i :: 0 <= i < |s.past.forwarded| ==> s.past.forwarded[i] in s.past.forwarded;
    if s.main.Finished? {
      ReachedInv(config, schedule);
      AllAreCalled(s);
    }
  }

  lemma AllAreCalled(s: State)
    requires LifeCycle(s) && Called(s) && s.main.Finished? && s.past.dequeued == s.past.accepted
    ensures multiset(s.past.forwarded) == multiset(s.past.accepted)
  {
    FinishedIsClean(s);
    forall t: nat
      ensures multiset(s.past.forwarded)[t] == multiset(s.past.accepted)[t]
    {
      assert CalledOrAtCall(s, t);
      NoneAtCall(s.workers, t);
      CountIsMembership(s.past.forwarded, t);
      CountIsMembership(s.past.accepted, t);
    }
  }

  // ---------------------------------------------------------------------------------------------
  // Order
  // ---------------------------------------------------------------------------------------------

  /** The request that the only worker holds at the call. */
  function HeldBack(ws: seq<WorkerPC>): seq<nat> {
    if |ws| == 1 && ws[0].Dispatching? then [ws[0].job.ticket] else []
  }

  /** A single worker passes on what it receives in the order in which it receives it. */
  predicate InStep(s: State) {
    |s.workers| <= 1 && s.past.forwarded + HeldBack(s.workers) == s.past.dequeued
  }

  lemma StepKeepsInStep(s: State, a: Action)
    requires Shape(s) && s.config.concurrency == 1 && InStep(s) && Enabled(s, a)
    ensures InStep(Apply(s, a))
  {
    match a
    case Interrupt =>
    case Main(m) =>
    case Reader(r) =>
    case Worker(i, w) => WorkerKeepsInStep(s, i, w);
    case Heart(h) =>
  }

  lemma WorkerKeepsInStep(s: State, i: nat, a: WorkerAction)
    requires InStep(s) && WorkerEnabled(s, i, a)
    ensures InStep(WorkerStep(s, i, a))
  {
    assert i == 0 && s.workers == [s.workers[0]];
    assert WorkerStep(s, i, a).workers == [NextWorker(s, i, a)];
  }

  lemma {:induction false} RunKeepsInStep(s: State, schedule: seq<Action>)
    requires Inv(s) && s.config.concurrency == 1 && InStep(s)
    ensures InStep(Run(s, schedule))
    decreases |schedule|
  {
    if |schedule| == 0 {
    } else {
      if Enabled(s, schedule[0]) {
        StepKeepsInStep(s, schedule[0]);
        StepKeepsConfig(s, schedule[0]);
      }
      TurnKeepsInv(s, schedule[0]);
      RunKeepsInStep(Turn(s, schedule[0]), schedule[1..]);
    }
  }

  lemma OneWorkerKeepsOrder(config: Config, schedule: seq<Action>)
    requires config.Usable() && config.concurrency == 1
    ensures Increasing(Reached(config, schedule).past.forwarded)
  {
    InitInv(config);
    RunKeepsInStep(Init(config), schedule);
    DequeuedInOrder(config, schedule);
    var s := Reached(config, schedule);
    assert s.past.forwarded <= s.past.dequeued;
  }
}
