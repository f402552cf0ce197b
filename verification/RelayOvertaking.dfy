/** With more than one worker, calls of `Forward` can overtake one another; with a single one they cannot. */
module RelayOvertaking {
  import opened RelaySteps
  import opened RelayJobs
  import opened RelayTheorems
  import opened RelayCalls
  import opened RelayRuns

  /** The first worker holds the first request, and the second passes on the second one. */
  lemma Overtaking(config: Config) returns (schedule: seq<Action>)
    requires config.Usable() && config.concurrency >= 2
    ensures Reached(config, schedule).past.forwarded == [1, 0]
  {
    var start := Init(config);
    assert [Main(Greets(true))][1..] == [];
    schedule := CanTake(start, [Main(Greets(true))], "a", 0);
    schedule := CanTake(start, schedule, "b", 1);
    Go(start, Run(start, schedule), schedule, Worker(1, Calls));
    schedule := schedule + [Worker(1, Calls)];
    Go(start, Run(start, schedule), schedule, Worker(0, Calls));
    schedule := schedule + [Worker(0, Calls)];
  }

  ghost predicate KeepsOrder(config: Config) {
    forall schedule :: Increasing(Reached(config, schedule).past.forwarded)
  }

  /**
   `Forward` is called in the order in which requests arrive, under every schedule, exactly when there is one worker.
   */
  lemma OrderKeptExactlyWhen(config: Config)
    requires config.Usable()
    ensures KeepsOrder(config) <==> config.concurrency == 1
  {
    if config.concurrency == 1 {
      forall schedule
        ensures Increasing(Reached(config, schedule).past.forwarded)
      {
        OneWorkerKeepsOrder(config, schedule);
      }
    } else {
      var schedule := Overtaking(config);
      var calls := Reached(config, schedule).past.forwarded;
      assert calls[0] > calls[1];
    }
  }
}
