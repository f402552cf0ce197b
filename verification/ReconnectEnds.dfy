/**
 When the reconnect loop goes on and when it ends, what it tells the status file on the way, and how the random bytes
 spread its waits.
 */
module ReconnectEnds {
  import opened Wrappers
  import opened Bytes
  import opened RelaySteps
  import opened RelayPlaces
  import opened RelayTheorems
  import opened Reconnect
  import opened ReconnectProofs

  // ---------------------------------------------------------------------------------------------
  // Iterations
  // ---------------------------------------------------------------------------------------------

  /** There was no session, or it has returned. */
  predicate IsOver(config: Config, e: Attempt) {
    e.dial.Connected? ==> Reached(config, e.dial.schedule).main.Finished?
  }

  /** The iteration comes to its wait. */
  predicate ComesToWait(config: Config, e: Attempt) {
    !e.stoppedBefore && IsOver(config, e) && !e.stoppedAfter
  }

  predicate GoesOn(config: Config, e: Attempt) {
    ComesToWait(config, e) && !e.stoppedWaiting
  }

  /** The program is told to stop before the dial, by the end of the session, or during the wait. */
  predicate IsToldToStop(config: Config, e: Attempt) {
    e.stoppedBefore || (IsOver(config, e) && (e.stoppedAfter || e.stoppedWaiting))
  }

  predicate AllGoOn(config: Config, attempts: seq<Attempt>) {
    forall i :: 0 <= i < |attempts| ==> GoesOn(config, attempts[i])
  }

  /** The iterations that are begun: up to and including the first that does not go on. */
  function Begun(config: Config, attempts: seq<Attempt>): (n: nat)
    ensures n <= |attempts|
    ensures n > 0 ==> AllGoOn(config, attempts[..n - 1])
    ensures n < |attempts| ==> n > 0 && !GoesOn(config, attempts[n - 1])
  {
    if |attempts| == 0 then 0
    else
      var n := Begun(config, attempts[1..]);
      if GoesOn(config, attempts[0]) then
        assert n > 0 ==> attempts[..n] == [attempts[0]] + attempts[1..][..n - 1];
        1 + n
      else 1
  }

  /** What an iteration tells the status file; a failure is one that the program was not told to end by. */
  function Tells(config: Config, earlier: seq<Attempt>, e: Attempt): seq<Status> {
    if e.stoppedBefore then [Status(false, LastConnected(earlier), false)]
    else
      (if e.dial.Connected? then [Status(true, Some(e.dial.now), false)] else [])
      + if IsOver(config, e) then [Status(false, LastConnected(earlier + [e]), ComesToWait(config, e))] else []
  }

  function AllTold(config: Config, attempts: seq<Attempt>): seq<Status> {
    if |attempts| == 0 then []
    else
      var front := attempts[..|attempts| - 1];
      AllTold(config, front) + Tells(config, front, attempts[|attempts| - 1])
  }

  function Waiting(config: Config, attempts: seq<Attempt>): nat {
    if |attempts| == 0 then 0
    else
      Waiting(config, attempts[..|attempts| - 1]) + One(ComesToWait(config, attempts[|attempts| - 1]))
  }

  function Failures(statuses: seq<Status>): nat {
    if |statuses| == 0 then 0 else Failures(statuses[..|statuses| - 1]) + One(statuses[|statuses| - 1].failed)
  }

  lemma IterationEnds(s: Loop, config: Config, e: Attempt)
    requires !s.Halted()
    ensures var t := Iterate(s, config, e);
      && (t.returned <==> IsToldToStop(config, e))
      && (t.serving <==> !e.stoppedBefore && !IsOver(config, e))
      && |t.waits| == |s.waits| + One(ComesToWait(config, e))
      && (t.Halted() <==> !GoesOn(config, e))
  {
  }

  lemma IterationTells(s: Loop, config: Config, earlier: seq<Attempt>, e: Attempt)
    requires !s.Halted() && s.lastConnectedAt == LastConnected(earlier)
    ensures Iterate(s, config, e).statuses == s.statuses + Tells(config, earlier, e)
  {
    assert (earlier + [e])[..|earlier|] == earlier;
  }

  lemma {:induction false} GoingOnIsNotHalted(config: Config, attempts: seq<Attempt>)
    requires AllGoOn(config, attempts)
    ensures !After(config, attempts).Halted()
  {
    if |attempts| > 0 {
      var front := attempts[..|attempts| - 1];
      GoingOnIsNotHalted(config, front);
      IterationEnds(After(config, front), config, attempts[|attempts| - 1]);
    }
  }

  /** As long as each iteration but the last goes on, each leaves its traces. */
  lemma {:induction false} TracesAreLeft(config: Config, attempts: seq<Attempt>)
    requires |attempts| > 0 ==> AllGoOn(config, attempts[..|attempts| - 1])
    ensures After(config, attempts).statuses == AllTold(config, attempts)
    ensures |After(config, attempts).waits| == Waiting(config, attempts)
  {
    if |attempts| > 0 {
      var front, e := attempts[..|attempts| - 1], attempts[|attempts| - 1];
      GoingOnIsNotHalted(config, front);
      assert |front| > 0 ==> forall i :: 0 <= i < |front| - 1 ==> front[..|front| - 1][i] == front[i];
      TracesAreLeft(config, front);
      BackoffIsDoubled(config, front);
      IterationTells(After(config, front), config, front, e);
      IterationEnds(After(config, front), config, e);
    }
  }

  /**
   The loop has returned exactly when the last iteration it began was told to stop, before the dial, by the end of the
   session or during the wait; all iterations before it went on, and nothing is taken from the attempts after it. It has
   told the status file what each iteration begun tells, and drawn one wait for each of them that came to its wait.
   */
  lemma EndsExactlyWhen(config: Config, attempts: seq<Attempt>)
    ensures var s, n := After(config, attempts), Begun(config, attempts);
      && s == After(config, attempts[..n])
      && (s.returned <==> n > 0 && IsToldToStop(config, attempts[n - 1]))
      && (s.serving <==> n > 0 && !attempts[n - 1].stoppedBefore && !IsOver(config, attempts[n - 1]))
      && s.statuses == AllTold(config, attempts[..n])
      && |s.waits| == Waiting(config, attempts[..n])
  {
    var n := Begun(config, attempts);
    if n == 0 {
      assert attempts[..n] == attempts == [];
    } else {
      assert attempts[..n][..n - 1] == attempts[..n - 1];
      GoingOnIsNotHalted(config, attempts[..n - 1]);
      IterationEnds(After(config, attempts[..n - 1]), config, attempts[n - 1]);
      TracesAreLeft(config, attempts[..n]);
      AfterNext(config, attempts, n - 1);
      if n < |attempts| {
        AfterHalt(config, attempts, n);
      } else {
        assert attempts[..n] == attempts;
      }
    }
  }

  lemma {:induction false} FailuresJoin(a: seq<Status>, b: seq<Status>)
    ensures Failures(a + b) == Failures(a) + Failures(b)
  {
    if |b| == 0 {
      assert a + b == a;
    } else {
      assert (a + b)[..|a + b| - 1] == a + b[..|b| - 1];
      FailuresJoin(a, b[..|b| - 1]);
    }
  }

  lemma TellsFailure(config: Config, earlier: seq<Attempt>, e: Attempt)
    ensures Failures(Tells(config, earlier, e)) == One(ComesToWait(config, e))
  {
    var connected := if e.dial.Connected? then [Status(true, Some(e.dial.now), false)] else [];
    var ended := if IsOver(config, e) then [Status(false, LastConnected(earlier + [e]), ComesToWait(config, e))]
                 else [];
    FailuresJoin(connected, ended);
    assert |connected| == 1 ==> connected[..0] == [];
    assert |ended| == 1 ==> ended[..0] == [];
    if e.stoppedBefore {
      assert Tells(config, earlier, e)[..0] == [];
    }
  }

  /** A failure with its reason is told exactly as often as a wait is drawn. */
  lemma {:induction false} FailuresAreWaitedFor(config: Config, attempts: seq<Attempt>)
    ensures Failures(AllTold(config, attempts)) == Waiting(config, attempts)
  {
    if |attempts| > 0 {
      var front, e := attempts[..|attempts| - 1], attempts[|attempts| - 1];
      FailuresAreWaitedFor(config, front);
      FailuresJoin(AllTold(config, front), Tells(config, front, e));
      TellsFailure(config, front, e);
    }
  }

  // ---------------------------------------------------------------------------------------------
  // The spread of the waits
  // ---------------------------------------------------------------------------------------------

  lemma ScaledByNumber(base: int, value: nat)
    requires base > 0 && value <= LARGEST
    ensures var wait := Scaled(base, value as real / LARGEST as real);
      4 * LARGEST * wait <= base * (3 * LARGEST + 2 * value) < 4 * LARGEST * (wait + 1)
  {
    var x := base as real * (0.75 + value as real / LARGEST as real * 0.5);
    var wait := x.Floor;
    ScaleByLargest(base, value);
    assert wait as real <= x < wait as real + 1.0;
    Compare(wait, x);
  }

  lemma ScaleByLargest(base: int, value: nat)
    ensures 4.0 * LARGEST as real * (base as real * (0.75 + value as real / LARGEST as real * 0.5))
            == (base * (3 * LARGEST + 2 * value)) as real
  {
    var l, b, v := LARGEST as real, base as real, value as real;
    assert l * (v / l) == v;
    assert 4.0 * l * (b * (0.75 + v / l * 0.5)) == b * (3.0 * l + 2.0 * (l * (v / l)));
    assert (3 * LARGEST + 2 * value) as real == 3.0 * l + 2.0 * v;
  }

  lemma Compare(wait: int, x: real)
    requires wait as real <= x < wait as real + 1.0
    ensures (4 * LARGEST * wait) as real <= 4.0 * LARGEST as real * x < (4 * LARGEST * (wait + 1)) as real
  {
  }

  function Repeated(b: byte, n: nat): (bs: seq<byte>)
    ensures |bs| == n
  {
    if n == 0 then [] else Repeated(b, n - 1) + [b]
  }

  const ZEROS: Random := Repeated(0, 8)
  const ONES: Random := Repeated(0xFF, 8)

  /** The random bytes are eight digits of a number, from zero up to the largest there is. */
  lemma ExtremesOfRandom()
    ensures Value(ZEROS) == 0 && Value(ONES) == LARGEST
  {
    ValueOfRepeated(0, 8);
    ValueOfRepeated(0xFF, 8);
    Capacities();
  }

  lemma {:induction false} ValueOfRepeated(b: byte, n: nat)
    requires b == 0 || b == 0xFF
    ensures Value(Repeated(b, n)) == if b == 0 then 0 else Capacity(n) - 1
  {
    if n > 0 {
      ValueOfRepeated(b, n - 1);
      assert Repeated(b, n)[..n - 1] == Repeated(b, n - 1);
      ByteExtremes();
    }
  }

  lemma ByteExtremes()
    ensures (0 as byte) as int == 0 && (0xFF as byte) as int == 255
  {
  }

  /**
   The wait is spread evenly from three quarters to five quarters of its base: it is that part of the way which the
   random number is of the largest one, rounded down. Without random bytes it is the base itself.
   */
  lemma JitterIsLinear(base: int, random: Random)
    requires base > 0
    ensures var wait := Jitter(base, Some(random));
      4 * LARGEST * wait <= base * (3 * LARGEST + 2 * Value(random)) < 4 * LARGEST * (wait + 1)
    ensures Jitter(base, None) == base
  {
    ValueIsBelowCapacity(random);
    Capacities();
    ScaledByNumber(base, Value(random));
  }

  lemma Spread(base: int, a: nat, b: nat, waitA: int, waitB: int)
    requires base > 0 && a <= b
    requires 4 * LARGEST * waitA <= base * (3 * LARGEST + 2 * a)
    requires base * (3 * LARGEST + 2 * b) < 4 * LARGEST * (waitB + 1)
    ensures waitA <= waitB
  {
    assert base * (3 * LARGEST + 2 * a) <= base * (3 * LARGEST + 2 * b);
  }

  /** A larger random number never gives a shorter wait. */
  lemma JitterGrows(base: int, a: Random, b: Random)
    requires base > 0 && Value(a) <= Value(b)
    ensures Jitter(base, Some(a)) <= Jitter(base, Some(b))
  {
    JitterIsLinear(base, a);
    JitterIsLinear(base, b);
    Spread(base, Value(a), Value(b), Jitter(base, Some(a)), Jitter(base, Some(b)));
  }

  /** Both ends of the spread are reached. */
  lemma JitterReachesBothEnds(quarter: int)
    requires quarter > 0
    ensures Jitter(4 * quarter, Some(ZEROS)) == 3 * quarter && Jitter(4 * quarter, Some(ONES)) == 5 * quarter
  {
    ExtremesOfRandom();
    JitterIsLinear(4 * quarter, ZEROS);
    JitterIsLinear(4 * quarter, ONES);
    AtTheEnds(quarter, Jitter(4 * quarter, Some(ZEROS)), Jitter(4 * quarter, Some(ONES)));
  }

  lemma AtTheEnds(quarter: int, low: int, high: int)
    requires 4 * LARGEST * low <= 4 * quarter * (3 * LARGEST) < 4 * LARGEST * (low + 1)
    requires 4 * LARGEST * high <= 4 * quarter * (5 * LARGEST) < 4 * LARGEST * (high + 1)
    ensures low == 3 * quarter && high == 5 * quarter
  {
  }
}
