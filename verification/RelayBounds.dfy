/** How much a session can hold. */
module RelayBounds {
  import opened Protocol
  import opened RelaySteps
  import opened RelayPlaces
  import opened RelayJobs
  import opened RelayTable
  import opened RelayCancel
  import opened RelayTheorems

  function QueueIds(jobs: seq<Job>): set<string> {
    if |jobs| == 0 then {} else {jobs[0].request.id} + QueueIds(jobs[1..])
  }

  function WorkerIds(ws: seq<WorkerPC>): set<string> {
    if |ws| == 0 then {}
    else
      var own := if ws[0].Dispatching? || ws[0].Forwarding? || ws[0].Deleting? then {ws[0].job.request.id} else {};
      own + WorkerIds(ws[1..])
  }

  /** The identifier of the reader's registered request or of the one left behind; there is never both. */
  function LooseId(s: State): set<string> {
    if s.reader.Offering? || s.reader.Unregistering? then {s.reader.job.request.id}
    else if s.past.dropped.Some? then {s.past.dropped.value.request.id}
    else {}
  }

  lemma {:induction false} QueueIdsAreFew(jobs: seq<Job>)
    ensures |QueueIds(jobs)| <= |jobs|
  {
    if |jobs| > 0 {
      QueueIdsAreFew(jobs[1..]);
    }
  }

  lemma {:induction false} WorkerIdsAreFew(ws: seq<WorkerPC>)
    ensures |WorkerIds(ws)| <= |ws|
  {
    if |ws| > 0 {
      WorkerIdsAreFew(ws[1..]);
    }
  }

  lemma {:induction false} InQueueIds(config: Config, decoded: seq<Request>, jobs: seq<Job>, t: nat)
    requires forall i :: 0 <= i < |jobs| ==> JobOk(config, decoded, jobs[i])
    requires InQueue(jobs, t) > 0
    ensures t < |decoded| && decoded[t].id in QueueIds(jobs)
  {
    if jobs[0].ticket != t {
      InQueueIds(config, decoded, jobs[1..], t);
    }
  }

  lemma {:induction false} InWorkerIds(config: Config, decoded: seq<Request>, ws: seq<WorkerPC>, t: nat)
    requires forall i :: 0 <= i < |ws| ==> WorkerOk(config, decoded, ws[i])
    requires RegisteredWithWorkers(ws, t) > 0
    ensures t < |decoded| && decoded[t].id in WorkerIds(ws)
  {
    if !WorkerRegistered(ws[0], t) {
      InWorkerIds(config, decoded, ws[1..], t);
    } else {
      assert WorkerOk(config, decoded, ws[0]);
    }
  }

  lemma KeyIsSomewhere(s: State, id: string)
    requires Inv(s) && id in s.shared.cancellations
    ensures id in QueueIds(s.shared.jobs) + WorkerIds(s.workers) + LooseId(s)
  {
    var t := s.shared.cancellations[id];
    assert Maps(s.shared.cancellations, id, t);
    assert Claims(s, id, t);
    if InQueue(s.shared.jobs, t) > 0 {
      InQueueIds(s.config, s.past.decoded, s.shared.jobs, t);
    } else if RegisteredWithWorkers(s.workers, t) > 0 {
      InWorkerIds(s.config, s.past.decoded, s.workers, t);
    }
  }

  lemma UnionIsSmall(a: set<string>, b: set<string>, c: set<string>)
    ensures |a + b + c| <= |a| + |b| + |c|
  {
  }

  lemma SubsetIsSmall(a: set<string>, b: set<string>)
    requires a <= b
    ensures |a| <= |b|
  {
    assert b == a + (b - a);
  }

  /**
   In every reachable state of a session that has been greeted there are exactly `Concurrency` workers, each with one
   request at most; at most `QueueSize` are queued, and the
   table has at most `Concurrency + QueueSize + 1` entries.
   */
  lemma ResourcesAreBounded(config: Config, schedule: seq<Action>)
    requires config.Usable()
    ensures var s := Reached(config, schedule);
      && |s.workers| == (if s.reader.NotStarted? then 0 else config.concurrency)
      && |s.shared.jobs| <= config.queueSize
      && |s.shared.cancellations| <= config.concurrency + config.queueSize + 1
      && |s.shared.readErrors| <= 1 && |s.shared.writeErrors| <= 1
  {
    ReachedInv(config, schedule);
    ConfigIsConstant(Init(config), schedule);
    var s := Reached(config, schedule);
    var q, w, l := QueueIds(s.shared.jobs), WorkerIds(s.workers), LooseId(s);
    forall id | id in s.shared.cancellations.Keys
      ensures id in q + w + l
    {
      KeyIsSomewhere(s, id);
    }
    SubsetIsSmall(s.shared.cancellations.Keys, q + w + l);
    UnionIsSmall(q, w, l);
    QueueIdsAreFew(s.shared.jobs);
    WorkerIdsAreFew(s.workers);
    assert |s.shared.cancellations| == |s.shared.cancellations.Keys|;
  }
}
