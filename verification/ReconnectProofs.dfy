/** The closed form of the backoff, and what holds across all the sessions of one run of the program. */
module ReconnectProofs {
  import opened Wrappers
  import opened RelaySteps
  import opened RelayJobs
  import opened RelayShutdown
  import opened RelayTheorems
  import opened RelayCalls
  import opened Reconnect

  // ---------------------------------------------------------------------------------------------
  // Backoff
  // ---------------------------------------------------------------------------------------------

  /** The last time a dial succeeded. */
  function LastConnected(attempts: seq<Attempt>): Option<int> {
    if |attempts| == 0 then None
    else
      var e := attempts[|attempts| - 1];
      if e.dial.Connected? then Some(e.dial.now) else LastConnected(attempts[..|attempts| - 1])
  }

  /**
   The last of these iterations starts the backoff over: when its wait is over, 30 s have passed since the last
   connect.
   */
  predicate Resets(attempts: seq<Attempt>)
    requires |attempts| > 0
  {
    LastConnected(attempts).Some? && LastConnected(attempts).value + 30 * SECOND <= attempts[|attempts| - 1].woken
  }

  /** The iterations since the backoff was last started over, that one included; all of them if it never was. */
  function SinceReset(attempts: seq<Attempt>): nat {
    if |attempts| == 0 then 0
    else if Resets(attempts) then 1
    else SinceReset(attempts[..|attempts| - 1]) + 1
  }

  function PowerOfTwo(n: nat): nat {
    if n == 0 then 1 else 2 * PowerOfTwo(n - 1)
  }

  function Doubled(n: nat): nat {
    if PowerOfTwo(n) > 30 then LIMIT else PowerOfTwo(n) * SECOND
  }

  lemma {:induction false} PowerGrows(n: nat)
    ensures n >= 5 ==> PowerOfTwo(n) >= 32
  {
    if n > 5 {
      PowerGrows(n - 1);
    } else {
      assert PowerOfTwo(5) == 32;
    }
  }

  /** 1, 2, 4, 8, 16, and then always 30 seconds. */
  lemma DoubledValues(n: nat)
    ensures Doubled(n) == (if n < 5 then [1, 2, 4, 8, 16][n] else 30) * SECOND
    ensures Doubled(n) % 4 == 0
  {
    PowerGrows(n);
    assert PowerOfTwo(4) == 16 && PowerOfTwo(3) == 8 && PowerOfTwo(2) == 4;
  }

  /** Closed form: the backoff is two to the number of iterations since it was started over, at most 30, in seconds. */
  lemma {:induction false} BackoffIsDoubled(config: Config, attempts: seq<Attempt>)
    requires !After(config, attempts).Halted()
    ensures After(config, attempts).backoff == Doubled(SinceReset(attempts))
    ensures After(config, attempts).lastConnectedAt == LastConnected(attempts)
  {
    if |attempts| == 0 {
    } else {
      var front := attempts[..|attempts| - 1];
      BackoffIsDoubled(config, front);
      DoubledValues(SinceReset(front));
      DoubledValues(SinceReset(attempts));
    }
  }

  predicate IsNear(wait: int, base: int) {
    3 * base <= 4 * wait <= 5 * base
  }

  /** An iteration adds at most one wait, near the backoff it starts with. */
  lemma IterationWaits(s: Loop, config: Config, e: Attempt)
    requires s.backoff > 0 && s.backoff % 4 == 0
    ensures var waits := Iterate(s, config, e).waits;
      || waits == s.waits
      || (|waits| == |s.waits| + 1 && waits[..|s.waits|] == s.waits && IsNear(waits[|s.waits|], s.backoff))
  {
    JitterIsNearBase(s.backoff, e.random);
  }

  /** Every wait is drawn around the closed form, within a quarter of it either way. */
  lemma {:induction false} WaitsFollowBackoff(config: Config, attempts: seq<Attempt>, k: nat)
    requires k < |After(config, attempts).waits|
    ensures k < |attempts|
    ensures IsNear(After(config, attempts).waits[k], Doubled(SinceReset(attempts[..k])))
  {
    WaitsAreCounted(config, attempts);
    LastIterationWaits(config, attempts);
    var front := attempts[..|attempts| - 1];
    var waits := After(config, front).waits;
    if k < |waits| {
      assert front[..k] == attempts[..k];
      WaitsFollowBackoff(config, front, k);
      assert After(config, attempts).waits[k] == waits[k];
    } else {
      WaitsAreCounted(config, front);
    }
  }

  /** The last iteration leaves the earlier waits alone, and adds at most one, around the closed form before it. */
  lemma LastIterationWaits(config: Config, attempts: seq<Attempt>)
    requires |attempts| > 0
    ensures var front := attempts[..|attempts| - 1];
      var before, waits := After(config, front), After(config, attempts).waits;
      || waits == before.waits
      || (!before.Halted() && |waits| == |before.waits| + 1 && waits[..|before.waits|] == before.waits
          && IsNear(waits[|before.waits|], Doubled(SinceReset(front))))
  {
    var front := attempts[..|attempts| - 1];
    var before := After(config, front);
    if !before.Halted() {
      BackoffIsDoubled(config, front);
      DoubledValues(SinceReset(front));
      IterationWaits(before, config, attempts[|attempts| - 1]);
    }
  }

  /** One wait in each iteration, until the loop returns. */
  lemma {:induction false} WaitsAreCounted(config: Config, attempts: seq<Attempt>)
    ensures |After(config, attempts).waits| <= |attempts|
    ensures !After(config, attempts).Halted() ==> |After(config, attempts).waits| == |attempts|
  {
    if |attempts| > 0 {
      WaitsAreCounted(config, attempts[..|attempts| - 1]);
    }
  }

  predicate NeverConnects(attempts: seq<Attempt>) {
    forall i :: 0 <= i < |attempts| ==> attempts[i].dial.Failed?
  }

  /** Without any connection, the backoff is never started over. */
  lemma {:induction false} FailuresDouble(attempts: seq<Attempt>)
    requires NeverConnects(attempts)
    ensures SinceReset(attempts) == |attempts| && LastConnected(attempts).None?
  {
    if |attempts| > 0 {
      FailuresDouble(attempts[..|attempts| - 1]);
    }
  }

  /**
   Without any connection, the wait after k failures lies within a quarter of two to the k seconds, or of 30 seconds.
   */
  lemma FailuresDoubleWaits(config: Config, attempts: seq<Attempt>, k: nat)
    requires NeverConnects(attempts) && k < |After(config, attempts).waits|
    ensures var base := (if k < 5 then [1, 2, 4, 8, 16][k] else 30) * SECOND;
      IsNear(After(config, attempts).waits[k], base)
  {
    WaitsFollowBackoff(config, attempts, k);
    FailuresDouble(attempts[..k]);
    DoubledValues(k);
  }

  /** The iterations after one never connect, and the wall clock is not set back between the ends of their waits. */
  predicate FailsFrom(attempts: seq<Attempt>, k: nat) {
    forall i :: k < i < |attempts| ==> attempts[i].dial.Failed? && attempts[i - 1].woken <= attempts[i].woken
  }

  /**
   Once 30 s have passed since the last connect, every later iteration without a connect leaves the backoff at 2 s.
   */
  lemma {:induction false} OldConnectionHoldsBackoff(config: Config, attempts: seq<Attempt>, k: nat)
    requires k < |attempts| && Resets(attempts[..k + 1]) && FailsFrom(attempts, k)
    ensures Resets(attempts)
    ensures !After(config, attempts).Halted() ==> After(config, attempts).backoff == 2 * SECOND
  {
    if k + 1 == |attempts| {
      assert attempts[..k + 1] == attempts;
    } else {
      var front := attempts[..|attempts| - 1];
      assert front[..k + 1] == attempts[..k + 1];
      OldConnectionHoldsBackoff(config, front, k);
      assert attempts[|attempts| - 2].woken <= attempts[|attempts| - 1].woken;
    }
    if !After(config, attempts).Halted() {
      BackoffIsDoubled(config, attempts);
      DoubledValues(1);
    }
  }

  /**
   Failures do not always raise the backoff to 30 s; they do exactly when the last four of at least five iterations did
   not start it over.
   */
  lemma LimitReachedExactlyWhen(config: Config, attempts: seq<Attempt>)
    requires !After(config, attempts).Halted()
    ensures After(config, attempts).backoff == LIMIT
      <==> |attempts| >= 5 && forall i :: |attempts| - 4 < i <= |attempts| ==> !Resets(attempts[..i])
  {
    BackoffIsDoubled(config, attempts);
    DoubledValues(SinceReset(attempts));
    SinceResetCounts(attempts, 5);
  }

  lemma {:induction false} SinceResetCounts(attempts: seq<Attempt>, n: nat)
    requires n > 0
    ensures SinceReset(attempts) >= n
      <==> |attempts| >= n && forall i :: |attempts| - n + 1 < i <= |attempts| ==> !Resets(attempts[..i])
    decreases n
  {
    if |attempts| > 0 && n > 1 {
      var front := attempts[..|attempts| - 1];
      SinceResetCounts(front, n - 1);
      assert attempts[..|attempts|] == attempts;
      forall i | 0 < i <= |front|
        ensures Resets(front[..i]) <==> Resets(attempts[..i])
      {
        assert front[..i] == attempts[..i];
      }
    }
  }

  // ---------------------------------------------------------------------------------------------
  // Sessions
  // ---------------------------------------------------------------------------------------------

  ghost predicate ReachedBySome(s: State, config: Config) {
    exists schedule :: s == Reached(config, schedule)
  }

  /** How many requests the program has read in all its sessions. */
  function Received(sessions: seq<State>): nat {
    if |sessions| == 0 then 0 else Received(sessions[..|sessions| - 1]) + |sessions[|sessions| - 1].past.decoded|
  }

  function Shifted(tickets: seq<nat>, offset: nat): (r: seq<nat>)
    ensures |r| == |tickets| && forall i :: 0 <= i < |r| ==> r[i] == tickets[i] + offset
  {
    seq(|tickets|, i requires 0 <= i < |tickets| => tickets[i] + offset)
  }

  /** The calls of `Forward` in all sessions; each names its request by the number of requests read before it. */
  function Calls(sessions: seq<State>): seq<nat> {
    if |sessions| == 0 then []
    else
      var front, last := sessions[..|sessions| - 1], sessions[|sessions| - 1];
      Calls(front) + Shifted(last.past.forwarded, Received(front))
  }

  lemma {:induction false} CallsAreDistinct(sessions: seq<State>, config: Config)
    requires config.Usable() && forall i :: 0 <= i < |sessions| ==> ReachedBySome(sessions[i], config)
    ensures Distinct(Calls(sessions)) && AllBelow(Calls(sessions), Received(sessions))
  {
    if |sessions| == 0 {
    } else {
      var front, last := sessions[..|sessions| - 1], sessions[|sessions| - 1];
      assert forall i :: 0 <= i < |front| ==> front[i] == sessions[i];
      CallsAreDistinct(front, config);
      var schedule :| last == Reached(config, schedule);
      ForwardedOnce(config, schedule);
      Joined(Calls(front), last.past.forwarded, Received(front), |last.past.decoded|);
    }
  }

  lemma Joined(a: seq<nat>, b: seq<nat>, offset: nat, bound: nat)
    requires Distinct(a) && AllBelow(a, offset) && Distinct(b) && AllBelow(b, bound)
    ensures Distinct(a + Shifted(b, offset)) && AllBelow(a + Shifted(b, offset), offset + bound)
  {
    var c := a + Shifted(b, offset);
    forall i, j | 0 <= i < j < |c|
      ensures c[i] != c[j]
    {
      if i < |a| && j >= |a| {
        assert a[i] < offset;
      } else if i >= |a| {
        assert b[i - |a|] != b[j - |a|];
      }
    }
  }

  lemma ReturnedIsClean(s: State, config: Config)
    requires config.Usable() && ReachedBySome(s, config) && s.main.Finished?
    ensures Clean(s)
  {
    var schedule :| s == Reached(config, schedule);
    EveryRequestIsAnsweredOnce(config, schedule);
  }

  /** The loop goes on only from a session that has returned. */
  predicate OneAtATime(s: Loop) {
    && (forall i :: 0 <= i < |s.sessions| - 1 ==> s.sessions[i].main.Finished?)
    && (|s.sessions| > 0 && !s.serving ==> s.sessions[|s.sessions| - 1].main.Finished?)
  }

  lemma IterationTakesTurns(s: Loop, config: Config, e: Attempt)
    requires OneAtATime(s) && !s.Halted()
    ensures OneAtATime(Iterate(s, config, e))
  {
    var t := if e.stoppedBefore then s else Connect(s, config, e.dial);
    assert OneAtATime(t);
    assert Iterate(s, config, e).sessions == t.sessions && Iterate(s, config, e).serving == t.serving;
  }

  lemma {:induction false} SessionsTakeTurns(config: Config, attempts: seq<Attempt>)
    ensures OneAtATime(After(config, attempts))
  {
    if |attempts| > 0 {
      var front := attempts[..|attempts| - 1];
      SessionsTakeTurns(config, front);
      if !After(config, front).Halted() {
        IterationTakesTurns(After(config, front), config, attempts[|attempts| - 1]);
      }
    }
  }

  lemma {:induction false} SessionsAreReached(config: Config, attempts: seq<Attempt>, i: nat)
    requires i < |After(config, attempts).sessions|
    ensures ReachedBySome(After(config, attempts).sessions[i], config)
  {
    var front := attempts[..|attempts| - 1];
    if i < |After(config, front).sessions| {
      SessionsAreReached(config, front, i);
    } else {
      assert attempts[|attempts| - 1].dial.Connected?;
      assert After(config, attempts).sessions[i] == Reached(config, attempts[|attempts| - 1].dial.schedule);
    }
  }

  /**
   No replay: in a run of the program, over all the sessions that its reconnects make, the one under way included, no
   request is passed to `Forward` twice. Every session but one under way has ended with an empty queue and no goroutine
   left, so nothing of it lives in the next one.
   */
  lemma NothingIsReplayed(config: Config, attempts: seq<Attempt>)
    requires config.Usable()
    ensures var s := After(config, attempts);
      && Distinct(Calls(s.sessions)) && AllBelow(Calls(s.sessions), Received(s.sessions))
      && forall i :: 0 <= i < |s.sessions| && (i < |s.sessions| - 1 || !s.serving) ==> Clean(s.sessions[i])
  {
    var s := After(config, attempts);
    SessionsTakeTurns(config, attempts);
    forall i | 0 <= i < |s.sessions|
      ensures ReachedBySome(s.sessions[i], config)
      ensures i < |s.sessions| - 1 || !s.serving ==> Clean(s.sessions[i])
    {
      SessionsAreReached(config, attempts, i);
      if i < |s.sessions| - 1 || !s.serving {
        ReturnedIsClean(s.sessions[i], config);
      }
    }
    CallsAreDistinct(s.sessions, config);
  }

  /** The status file says connected exactly while a session is served, and gives the time of the last connect. */
  predicate SaysServing(s: Loop) {
    && |s.statuses| > 0 && (s.statuses[|s.statuses| - 1].connected <==> s.serving)
    && s.statuses[|s.statuses| - 1].lastConnectedAt == s.lastConnectedAt
  }

  lemma IterationTellsStatus(s: Loop, config: Config, e: Attempt)
    requires !s.Halted()
    ensures SaysServing(Iterate(s, config, e))
  {
    var t := if e.stoppedBefore then s else Connect(s, config, e.dial);
    if !t.serving {
      var u := Disconnect(t, !e.stoppedBefore && !e.stoppedAfter);
      assert SaysServing(u);
      assert Iterate(s, config, e).statuses == u.statuses;
    }
  }

  /** From the first iteration on, the last thing written to the status file is the truth. */
  lemma {:induction false} StatusIsTrue(config: Config, attempts: seq<Attempt>)
    requires |attempts| > 0
    ensures SaysServing(After(config, attempts))
  {
    var front := attempts[..|attempts| - 1];
    if After(config, front).Halted() {
      StatusIsTrue(config, front);
    } else {
      IterationTellsStatus(After(config, front), config, attempts[|attempts| - 1]);
    }
  }
}
