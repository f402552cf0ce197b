/**
 The reconnect loop of `run`: dial, serve, report, wait, back off. Times are nanoseconds of the wall clock, since the
 stored time of the last connect has lost its monotonic reading; no order among them is taken for granted. The
 environment decides each iteration: whether the dial succeeds and how its session is scheduled, when the program is
 told to stop, which random bytes are drawn and when the wait is over.
 */
module Reconnect {
  import opened Wrappers
  import opened Bytes
  import opened Protocol
  import opened RelaySteps
  import opened RelayTheorems
  import RelaySession

  const SECOND := 1_000_000_000
  const LIMIT := 30 * SECOND

  type Random = bs: seq<byte> | |bs| == 8 witness [0, 0, 0, 0, 0, 0, 0, 0]

  // ---------------------------------------------------------------------------------------------
  // The wait
  // ---------------------------------------------------------------------------------------------

  const LARGEST := 0xFFFF_FFFF_FFFF_FFFF

  /** Eight random bytes as a number from zero to one. */
  function Fraction(random: Random): real {
    Value(random) as real / LARGEST as real
  }

  /** The conversion to a whole number of nanoseconds drops what is behind the point. */
  function Scaled(base: int, fraction: real): int {
    (base as real * (0.75 + fraction * 0.5)).Floor
  }

  function Jitter(base: int, random: Option<Random>): int {
    if base <= 0 then SECOND
    else if random.None? then base
    else Scaled(base, Fraction(random.value))
  }

  lemma FractionIsPartOfOne(random: Random)
    ensures 0.0 <= Fraction(random) <= 1.0
  {
    ValueIsBelowCapacity(random);
    Capacities();
  }

  lemma Scale(base: real, fraction: real)
    requires 0.0 <= fraction <= 1.0 && base > 0.0
    ensures 0.75 * base <= base * (0.75 + fraction * 0.5) <= 1.25 * base
  {
    assert base * (0.75 + fraction * 0.5) == 0.75 * base + 0.5 * (base * fraction);
    assert 0.0 <= base * fraction;
    assert base * (1.0 - fraction) >= 0.0;
  }

  lemma FloorIsNear(base: int, x: real)
    requires 0.75 * base as real <= x <= 1.25 * base as real
    ensures 3 * base - 4 < 4 * x.Floor <= 5 * base
  {
    var n := x.Floor;
    assert n as real <= x < n as real + 1.0;
    assert (4 * n) as real == 4.0 * n as real;
    assert (5 * base) as real == 5.0 * base as real;
    assert (3 * base) as real == 3.0 * base as real;
    assert (4 * n) as real <= (5 * base) as real;
    assert (3 * base) as real < (4 * n + 4) as real;
  }

  lemma ScaledIsNear(base: int, fraction: real)
    requires base > 0 && 0.0 <= fraction <= 1.0
    ensures 3 * base - 4 < 4 * Scaled(base, fraction) <= 5 * base
  {
    Scale(base as real, fraction);
    FloorIsNear(base, base as real * (0.75 + fraction * 0.5));
  }

  lemma MultipleOfFour(base: int, wait: int)
    requires base % 4 == 0 && 3 * base - 4 < 4 * wait
    ensures 3 * base <= 4 * wait
  {
  }

  /** A wait is within a quarter of its base; truncation takes nothing from a base that is a multiple of four. */
  lemma JitterIsNearBase(base: int, random: Option<Random>)
    requires base > 0
    ensures 3 * base - 4 < 4 * Jitter(base, random) <= 5 * base
    ensures base % 4 == 0 ==> 3 * base <= 4 * Jitter(base, random)
  {
    if random.Some? {
      FractionIsPartOfOne(random.value);
      ScaledIsNear(base, Fraction(random.value));
      if base % 4 == 0 {
        MultipleOfFour(base, Jitter(base, random));
      }
    }
  }

  // ---------------------------------------------------------------------------------------------
  // The loop
  // ---------------------------------------------------------------------------------------------

  datatype Dial = Failed | Connected(now: int, schedule: seq<Action>)

  /** What the environment does to one iteration. */
  datatype Attempt = Attempt(
    stoppedBefore: bool, dial: Dial, stoppedAfter: bool, random: Option<Random>, stoppedWaiting: bool, woken: int)

  /** What the status file is told; a failure leaves its reason. */
  datatype Status = Status(connected: bool, lastConnectedAt: Option<int>, failed: bool)

  /** The loop is serving while its last session has not returned. */
  datatype Loop = Loop(
    backoff: int, lastConnectedAt: Option<int>, returned: bool, serving: bool,
    waits: seq<int>, statuses: seq<Status>, sessions: seq<State>)
  {
    predicate Halted() {
      returned || serving
    }
  }

  function DefaultConfig(deviceId: string, deviceName: string): Config {
    Config(deviceId, deviceName, 8 * 1024 * 1024, 16 * 1024 * 1024, 4, 16, 2 * MINUTE)
  }

  predicate LongAgo(lastConnectedAt: Option<int>, now: int) {
    lastConnectedAt.Some? && now - lastConnectedAt.value >= 30 * SECOND
  }

  function NextBackoff(backoff: int, lastConnectedAt: Option<int>, now: int): int {
    var doubled := 2 * if LongAgo(lastConnectedAt, now) then SECOND else backoff;
    if doubled > LIMIT then LIMIT else doubled
  }

  /** `Dial` and, if it succeeds, `Serve`. */
  function Connect(s: Loop, config: Config, dial: Dial): Loop {
    match dial
    case Failed => s
    case Connected(now, schedule) =>
      var final := Reached(config, schedule);
      s.(lastConnectedAt := Some(now),
         statuses := s.statuses + [Status(true, Some(now), false)],
         sessions := s.sessions + [final],
         serving := !final.main.Finished?)
  }

  function Disconnect(s: Loop, failed: bool): Loop {
    s.(statuses := s.statuses + [Status(false, s.lastConnectedAt, failed)])
  }

  function Wait(s: Loop, e: Attempt): Loop {
    var t := s.(waits := s.waits + [Jitter(s.backoff, e.random)]);
    if e.stoppedWaiting then t.(returned := true)
    else t.(backoff := NextBackoff(s.backoff, s.lastConnectedAt, e.woken))
  }

  function Iterate(s: Loop, config: Config, e: Attempt): Loop {
    if e.stoppedBefore then Disconnect(s, false).(returned := true)
    else
      var t := Connect(s, config, e.dial);
      if t.serving then t
      else if e.stoppedAfter then Disconnect(t, false).(returned := true) else Wait(Disconnect(t, true), e)
  }

  const START := Loop(SECOND, None, false, false, [], [], [])

  /** The loop after a number of iterations, or in its last session, or when it returned. */
  function After(config: Config, attempts: seq<Attempt>): Loop {
    if |attempts| == 0 then START
    else
      var s := After(config, attempts[..|attempts| - 1]);
      if s.Halted() then s else Iterate(s, config, attempts[|attempts| - 1])
  }

  lemma AfterNext(config: Config, attempts: seq<Attempt>, k: nat)
    requires k < |attempts| && !After(config, attempts[..k]).Halted()
    ensures After(config, attempts[..k + 1]) == Iterate(After(config, attempts[..k]), config, attempts[k])
  {
    assert attempts[..k + 1][..k] == attempts[..k];
  }

  lemma {:induction false} AfterHalt(config: Config, attempts: seq<Attempt>, k: nat)
    requires k <= |attempts| && After(config, attempts[..k]).Halted()
    ensures After(config, attempts) == After(config, attempts[..k])
  {
    if k == |attempts| {
      assert attempts[..k] == attempts;
    } else {
      var front := attempts[..|attempts| - 1];
      assert front[..k] == attempts[..k];
      AfterHalt(config, front, k);
    }
  }

  /** The endless loop, for as many iterations as the environment has attempts. */
  method Run(deviceId: string, deviceName: string, attempts: seq<Attempt>)
    returns (waits: seq<int>, statuses: seq<Status>, sessions: seq<State>, returned: bool, serving: bool)
    ensures var s := After(DefaultConfig(deviceId, deviceName), attempts);
      waits == s.waits && statuses == s.statuses && sessions == s.sessions
      && returned == s.returned && serving == s.serving
  {
    ghost var config := DefaultConfig(deviceId, deviceName);
    var backoff, lastConnectedAt := SECOND, None;
    waits, statuses, sessions, returned, serving := [], [], [], false, false;
    for k := 0 to |attempts|
      invariant After(config, attempts[..k])
                == Loop(backoff, lastConnectedAt, returned, serving, waits, statuses, sessions)
      invariant !returned && !serving
    {
      AfterNext(config, attempts, k);
      AfterHaltFrom(config, attempts, k + 1);
      var e := attempts[k];
      if e.stoppedBefore {
        statuses := statuses + [Status(false, lastConnectedAt, false)];
        returned := true;
        return;
      }
      if e.dial.Connected? {
        lastConnectedAt := Some(e.dial.now);
        statuses := statuses + [Status(true, Some(e.dial.now), false)];
        var final := Serve(deviceId, deviceName, e.dial.schedule);
        sessions := sessions + [final];
        if !final.main.Finished? {
          serving := true;
          return;
        }
      }
      if e.stoppedAfter {
        statuses := statuses + [Status(false, lastConnectedAt, false)];
        returned := true;
        return;
      }
      statuses := statuses + [Status(false, lastConnectedAt, true)];
      waits := waits + [Jitter(backoff, e.random)];
      if e.stoppedWaiting {
        returned := true;
        return;
      }
      if lastConnectedAt.Some? && e.woken - lastConnectedAt.value >= 30 * SECOND {
        backoff := SECOND;
      }
      backoff := backoff * 2;
      if backoff > 30 * SECOND {
        backoff := 30 * SECOND;
      }
    }
    assert attempts[..|attempts|] == attempts;
  }

  /** One session with the options of `run`. */
  method Serve(deviceId: string, deviceName: string, schedule: seq<Action>) returns (final: State)
    ensures final == Reached(DefaultConfig(deviceId, deviceName), schedule)
  {
    var options := new RelaySession.Options(deviceId, deviceName, 0, 0, 0, 0, 0, 0);
    options.Defaults();
    var session := new RelaySession.Session(options.Settings());
    session.Serve(schedule);
    final := session.Snapshot();
  }

  lemma AfterHaltFrom(config: Config, attempts: seq<Attempt>, k: nat)
    requires k <= |attempts|
    ensures After(config, attempts[..k]).Halted() ==> After(config, attempts) == After(config, attempts[..k])
  {
    if After(config, attempts[..k]).Halted() {
      AfterHalt(config, attempts, k);
    }
  }
}
