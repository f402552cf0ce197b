/** The hello: the first message of a session and the only one of its kind, announcing the limits the session keeps. */
module RelayGreeting {
  import opened RelaySteps
  import opened RelayInvariants
  import opened RelayCancel
  import opened RelayTheorems

  predicate Greeted(s: State) {
    && (s.main.Greeting? ==> s.past.writes == [])
    && (!s.main.Greeting? ==>
          && |s.past.writes| > 0 && s.past.writes[0].message == HelloOf(s.config)
          && (s.past.writes[0].ok <==> !s.reader.NotStarted?))
    && (forall i :: 1 <= i < |s.past.writes| ==> !s.past.writes[i].message.Hello?)
    && (s.reader.Replying? ==> !s.reader.message.Hello?)
  }

  lemma MainKeepsGreeted(s: State, a: MainAction)
    requires LifeCycle(s) && Greeted(s) && MainEnabled(s, a)
    ensures Greeted(MainStep(s, a))
  {
    MainKeepsConfig(s, a);
    if !a.Greets? {
      MainLeavesReader(s, a);
      assert MainStep(s, a).past.writes == s.past.writes;
    }
  }

  lemma ReaderGoesOn(s: State, a: ReaderAction)
    requires ReaderEnabled(s, a)
    ensures var t := ReaderStep(s, a);
      && t.main == s.main && !t.reader.NotStarted?
      && (t.reader.Replying? ==> !t.reader.message.Hello?)
  {
    if a.Reads? {
      ReceivedIsNoHello(s.config, |s.past.decoded|, a.inbound, a.now);
    }
  }

  lemma ReceivedIsNoHello(config: Config, ticket: nat, inbound: Inbound, now: int)
    ensures var next := Receive(config, ticket, inbound, now).next;
      !next.NotStarted? && (next.Replying? ==> !next.message.Hello?)
  {
  }

  lemma ReaderKeepsGreeted(s: State, a: ReaderAction)
    requires LifeCycle(s) && Greeted(s) && ReaderEnabled(s, a)
    ensures Greeted(ReaderStep(s, a))
  {
    ReaderGoesOn(s, a);
    var t := ReaderStep(s, a);
    assert a.Replies? || t.past.writes == s.past.writes;
  }

  lemma WorkerKeepsGreeted(s: State, i: nat, a: WorkerAction)
    requires LifeCycle(s) && Greeted(s) && WorkerEnabled(s, i, a)
    ensures Greeted(WorkerStep(s, i, a))
  {
    WorkerLeavesReader(s, i, a);
  }

  lemma HeartKeepsGreeted(s: State, a: HeartAction)
    requires Greeted(s) && HeartEnabled(s, a)
    ensures Greeted(HeartStep(s, a))
  {
  }

  lemma {:induction false} RunKeepsGreeted(s: State, schedule: seq<Action>)
    requires Inv(s) && Greeted(s)
    ensures Greeted(Run(s, schedule))
    decreases |schedule|
  {
    if |schedule| == 0 {
    } else {
      var a := schedule[0];
      if Enabled(s, a) {
        match a {
          case Interrupt =>
          case Main(m) => MainKeepsGreeted(s, m);
          case Reader(r) => ReaderKeepsGreeted(s, r);
          case Worker(i, w) => WorkerKeepsGreeted(s, i, w);
          case Heart(h) => HeartKeepsGreeted(s, h);
        }
      }
      TurnKeepsInv(s, a);
      RunKeepsGreeted(Turn(s, a), schedule[1..]);
    }
  }

  /**
   Nothing is written before the hello, which announces the identity and the limits of this very session; there is no
   second one, and if it cannot be written nothing else ever is.
   */
  lemma HelloComesFirst(config: Config, schedule: seq<Action>)
    requires config.Usable()
    ensures var s := Reached(config, schedule);
      if s.main.Greeting? then s.past.writes == []
      else
        && |s.past.writes| > 0
        && s.past.writes[0].message
           == Hello(config.deviceId, config.deviceName, config.maxRequestBytes, config.maxResponseBytes,
                    config.concurrency)
        && (forall i :: 1 <= i < |s.past.writes| ==> !s.past.writes[i].message.Hello?)
        && (!s.past.writes[0].ok ==> |s.past.writes| == 1 && s.main.Finished?)
  {
    InitInv(config);
    ReachedInv(config, schedule);
    RunKeepsGreeted(Init(config), schedule);
    ConfigIsConstant(Init(config), schedule);
  }
}
