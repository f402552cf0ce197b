/** Why a request was refused: which of the three codes a refusal carries says exactly what was wrong. */
module RelayRefusals {
  import opened Protocol
  import opened RelaySteps
  import opened RelayPlaces
  import opened RelayInvariants
  import opened RelayJobs
  import opened RelayTable
  import opened RelayCancel
  import opened RelayContexts
  import opened RelayTheorems
  import opened RelayAnswers
  import opened RelayReading

  /** When a request was read. */
  function ReadAt(config: Config, h: Past, t: nat): int
    requires t < |Requests(config, h.heard)|
  {
    Requests(config, h.heard)[t].now
  }

  /** The request was fine when it was read. */
  predicate WasAcceptable(config: Config, h: Past, t: nat) {
    t < |h.decoded| && t < |Requests(config, h.heard)|
    && Acceptable(h.decoded[t], ReadAt(config, h, t), config.maxRequestBytes)
  }

  /** Another request had the same identifier and was registered when this one was checked. */
  predicate HasRival(h: Past, t: nat) {
    && t in h.rivals && t < |h.decoded|
    && h.rivals[t] < t && h.decoded[h.rivals[t]].id == h.decoded[t].id
  }

  /** The three refusals, each for its reason. */
  predicate Refused(config: Config, h: Past, t: nat, response: Response) {
    && t < |h.decoded| && t < |Requests(config, h.heard)|
    && var request := h.decoded[t];
      var refusal := ValidateRequest(request, ReadAt(config, h, t), config.maxRequestBytes);
      || (refusal.Some? && response == ErrorResponse(request.id, "bad_request", refusal.value))
      || (t in h.rivals
          && response == ErrorResponse(request.id, "duplicate_request", "request id is already active"))
      || (t in h.registered && response == ErrorResponse(request.id, "busy", "local companion queue is full"))
  }

  predicate Registrable(config: Config, h: Past, job: Job) {
    WasAcceptable(config, h, job.ticket) && job.ticket !in h.registered && job.ticket !in h.rivals
  }

  predicate ReaderRefuses(config: Config, h: Past, r: ReaderPC) {
    && (r.Checking? || r.Registering? ==> Registrable(config, h, r.job) && r.job.request == h.decoded[r.job.ticket])
    && (r.Offering? || r.Unregistering? || r.Withdrawing? ==>
          && r.job.ticket in h.registered && WasAcceptable(config, h, r.job.ticket)
          && r.job.request == h.decoded[r.job.ticket])
    && (r.Replying? && r.ticket.Some? ==> r.message.Reply? && Refused(config, h, r.ticket.value, r.message.response))
  }

  predicate WritesRefuse(config: Config, h: Past) {
    forall i :: 0 <= i < |h.writes| ==> WriteRefuses(config, h, h.writes[i])
  }

  predicate WriteRefuses(config: Config, h: Past, w: Written) {
    w.ticket.Some? && w.ticket.value !in h.accepted ==>
      w.message.Reply? && Refused(config, h, w.ticket.value, w.message.response)
  }

  predicate RegisteredWereFine(config: Config, h: Past) {
    forall t :: t in h.registered ==> WasAcceptable(config, h, t) && t !in h.rivals
  }

  predicate RivalsWereFine(config: Config, h: Past) {
    forall t :: t in h.rivals ==> WasAcceptable(config, h, t) && HasRival(h, t)
  }

  predicate RefusesWell(s: State) {
    && SameRequests(s.past.decoded, Requests(s.config, s.past.heard))
    && RegisteredWereFine(s.config, s.past) && RivalsWereFine(s.config, s.past)
    && ReaderRefuses(s.config, s.past, s.reader)
    && WritesRefuse(s.config, s.past)
  }

  // ---------------------------------------------------------------------------------------------
  // The history grows
  // ---------------------------------------------------------------------------------------------

  /** A later history: more was heard, decoded, registered, refused or accepted. */
  predicate Extends(config: Config, h: Past, k: Past) {
    && h.decoded <= k.decoded && Requests(config, h.heard) <= Requests(config, k.heard)
    && h.registered <= k.registered && (forall t :: t in h.accepted ==> t in k.accepted)
    && forall t :: t in h.rivals ==> t in k.rivals && k.rivals[t] == h.rivals[t]
  }

  lemma GrowingKeepsRefused(config: Config, h: Past, k: Past, t: nat, response: Response)
    requires Extends(config, h, k)
    ensures Refused(config, h, t, response) ==> Refused(config, k, t, response)
    ensures WasAcceptable(config, h, t) ==> WasAcceptable(config, k, t)
    ensures HasRival(h, t) ==> HasRival(k, t)
  {
  }

  lemma GrowingKeepsWrites(config: Config, h: Past, k: Past, writes: seq<Written>)
    requires Extends(config, h, k) && forall i :: 0 <= i < |writes| ==> WriteRefuses(config, h, writes[i])
    ensures forall i :: 0 <= i < |writes| ==> WriteRefuses(config, k, writes[i])
  {
    forall i | 0 <= i < |writes|
      ensures WriteRefuses(config, k, writes[i])
    {
      assert WriteRefuses(config, h, writes[i]);
      if writes[i].ticket.Some? && writes[i].message.Reply? {
        GrowingKeepsRefused(config, h, k, writes[i].ticket.value, writes[i].message.response);
      }
    }
  }

  // ---------------------------------------------------------------------------------------------
  // The reader
  // ---------------------------------------------------------------------------------------------

  lemma RequestsGrow(config: Config, heard: seq<Heard>, e: Heard)
    ensures Requests(config, heard) <= Requests(config, heard + [e])
  {
    assert (heard + [e])[..|heard|] == heard;
  }

  /** The request just read is the last of the requests, with the time of reading. */
  lemma ReadIsLast(s: State, m: Inbound, now: int)
    requires s.reader.Reading? && SameRequests(s.past.decoded, Requests(s.config, s.past.heard))
    ensures var t := ReaderStep(s, Reads(m, now));
      && SameRequests(t.past.decoded, Requests(t.config, t.past.heard))
      && Extends(s.config, s.past, t.past)
      && (|t.past.decoded| > |s.past.decoded| ==>
            |t.past.decoded| == |s.past.decoded| + 1 && ReadAt(s.config, t.past, |s.past.decoded|) == now)
  {
    HearingKeepsRequests(s, m, now);
    RequestsGrow(s.config, s.past.heard, Heard(m, now));
    assert (s.past.heard + [Heard(m, now)])[..|s.past.heard|] == s.past.heard;
    MeaningExactly(s.config, |s.past.decoded|, m, now);
  }

  lemma ReadingRefuses(s: State, m: Inbound, now: int)
    requires RefusesWell(s) && s.reader.Reading?
    ensures var t := ReaderStep(s, Reads(m, now)); ReaderRefuses(t.config, t.past, t.reader)
  {
    var t := ReaderStep(s, Reads(m, now));
    ReadIsLast(s, m, now);
    ReceiveCases(s.config, |s.past.decoded|, m, now);
    var r := Receive(s.config, |s.past.decoded|, m, now);
    if |r.requests| == 1 {
      assert |s.past.decoded| !in s.past.registered && |s.past.decoded| !in s.past.rivals;
      assert t.past.decoded[|s.past.decoded|] == r.requests[0];
      AdmittingRefuses(t.config, t.past, |s.past.decoded|, r.requests[0], now);
    }
  }

  /** A request that has just been read is refused for what is wrong with it, or may be registered. */
  lemma AdmittingRefuses(config: Config, h: Past, t: nat, request: Request, now: int)
    requires t < |h.decoded| && t < |Requests(config, h.heard)|
    requires h.decoded[t] == request && ReadAt(config, h, t) == now
    requires t !in h.registered && t !in h.rivals
    ensures ReaderRefuses(config, h, Admit(config, t, request, now))
  {
    AcceptedExactlyWhen(request, now, config.maxRequestBytes);
  }

  lemma RivalIsEarlier(s: State)
    requires Inv(s) && s.reader.Checking? && s.reader.job.request.id in s.shared.cancellations
    ensures var u := s.shared.cancellations[s.reader.job.request.id];
      u < s.reader.job.ticket < |s.past.decoded| && s.past.decoded[u].id == s.reader.job.request.id
  {
    var id, t := s.reader.job.request.id, s.reader.job.ticket;
    TableIsKnown(s, id);
    assert Maps(s.shared.cancellations, id, s.shared.cancellations[id]);
    assert Claims(s, id, s.shared.cancellations[id]);
    RegisteredAreHeld(s.workers, t);
    assert Places(s, t) == 1;
  }

  lemma CheckingRefuses(s: State)
    requires Inv(s) && RefusesWell(s) && s.reader.Checking?
    ensures RefusesWell(ReaderStep(s, Checks))
  {
    var job := s.reader.job;
    if job.request.id in s.shared.cancellations {
      RivalIsEarlier(s);
      RivalKeepsHistory(s.config, s.past, job.ticket, s.shared.cancellations[job.request.id]);
    }
  }

  /** A clash is recorded for a request that was fine and is not registered. */
  lemma RivalKeepsHistory(config: Config, h: Past, t: nat, rival: nat)
    requires RegisteredWereFine(config, h) && RivalsWereFine(config, h) && WritesRefuse(config, h)
    requires WasAcceptable(config, h, t) && t !in h.registered && t !in h.rivals
    requires rival < t && h.decoded[rival].id == h.decoded[t].id
    ensures var k := h.(rivals := h.rivals[t := rival]);
      && RegisteredWereFine(config, k) && RivalsWereFine(config, k) && WritesRefuse(config, k)
      && Refused(config, k, t, ErrorResponse(h.decoded[t].id, "duplicate_request", "request id is already active"))
  {
    var k := h.(rivals := h.rivals[t := rival]);
    assert Extends(config, h, k);
    GrowingKeepsWrites(config, h, k, h.writes);
    forall u | u in k.rivals
      ensures WasAcceptable(config, k, u) && HasRival(k, u)
    {
      if u != t {
        GrowingKeepsRefused(config, h, k, u, ErrorResponse("", "", ""));
      }
    }
  }

  lemma RegisteringRefuses(s: State)
    requires RefusesWell(s) && s.reader.Registering?
    ensures RefusesWell(ReaderStep(s, Registers))
  {
    var u := ReaderStep(s, Registers);
    GrowingKeepsWrites(s.config, s.past, u.past, s.past.writes);
  }

  lemma ReplyingRefuses(s: State, ok: bool)
    requires RefusesWell(s) && s.reader.Replying?
    ensures RefusesWell(ReaderStep(s, Replies(ok)))
  {
    var u, w := ReaderStep(s, Replies(ok)), Written(s.reader.ticket, s.reader.message, ok);
    assert u.past.writes == s.past.writes + [w];
    GrowingKeepsWrites(s.config, s.past, u.past, s.past.writes);
    assert WriteRefuses(s.config, u.past, w);
  }

  lemma HearingRefuses(s: State, m: Inbound, now: int)
    requires RefusesWell(s) && s.reader.Reading?
    ensures RefusesWell(ReaderStep(s, Reads(m, now)))
  {
    var u := ReaderStep(s, Reads(m, now));
    ReadIsLast(s, m, now);
    ReadingRefuses(s, m, now);
    GrowingKeepsWrites(s.config, s.past, u.past, s.past.writes);
  }

  lemma ReaderKeepsRefusing(s: State, a: ReaderAction)
    requires Inv(s) && RefusesWell(s) && ReaderEnabled(s, a)
    ensures RefusesWell(ReaderStep(s, a))
  {
    match a
    case Reads(m, now) => HearingRefuses(s, m, now);
    case Checks => CheckingRefuses(s);
    case Registers => RegisteringRefuses(s);
    case Replies(ok) => ReplyingRefuses(s, ok);
    case _ => ReaderKeepsRefusingInHand(s, a);
  }

  lemma ReaderKeepsRefusingInHand(s: State, a: ReaderAction)
    requires RefusesWell(s) && ReaderEnabled(s, a)
    requires !a.Reads? && !a.Checks? && !a.Registers? && !a.Replies?
    ensures RefusesWell(ReaderStep(s, a))
  {
    var u := ReaderStep(s, a);
    assert u.config == s.config && u.past.writes == s.past.writes && u.past.decoded == s.past.decoded;
    assert u.past.registered == s.past.registered && u.past.rivals == s.past.rivals && u.past.heard == s.past.heard;
    SameHistoryRefuses(s.config, s.past, u.past);
    NextReaderRefuses(s, a);
  }

  /** Acceptance and what was left behind play no part in a refusal that has been made. */
  lemma SameHistoryRefuses(config: Config, h: Past, k: Past)
    requires RegisteredWereFine(config, h) && RivalsWereFine(config, h) && WritesRefuse(config, h)
    requires k.heard == h.heard && k.decoded == h.decoded && k.rivals == h.rivals && k.registered == h.registered
    requires k.writes == h.writes && forall t :: t in h.accepted ==> t in k.accepted
    ensures RegisteredWereFine(config, k) && RivalsWereFine(config, k) && WritesRefuse(config, k)
  {
    GrowingKeepsWrites(config, h, k, h.writes);
  }

  lemma NextReaderRefuses(s: State, a: ReaderAction)
    requires ReaderRefuses(s.config, s.past, s.reader) && ReaderEnabled(s, a)
    requires !a.Reads? && !a.Checks? && !a.Registers? && !a.Replies?
    ensures ReaderRefuses(s.config, ReaderRecords(s, a), NextReader(s, a))
  {
  }

  // ---------------------------------------------------------------------------------------------
  // All runs
  // ---------------------------------------------------------------------------------------------

  lemma WorkerKeepsRefusing(s: State, i: nat, a: WorkerAction)
    requires RefusesWell(s) && Tells(s) && WorkerEnabled(s, i, a)
    ensures RefusesWell(WorkerStep(s, i, a))
  {
    var u := WorkerStep(s, i, a);
    assert WorkerTells(s.past, s.workers[i]);
    OthersKeepRefusing(s, u);
    GrowingKeepsWrites(s.config, s.past, u.past, s.past.writes);
    if a.Responds? {
      assert u.past.writes == s.past.writes + [u.past.writes[|s.past.writes|]];
    }
  }

  /** Nothing changes for the reader. */
  lemma OthersKeepRefusing(s: State, u: State)
    requires RefusesWell(s) && u.config == s.config && u.reader == s.reader
    requires u.past.heard == s.past.heard && u.past.decoded == s.past.decoded && u.past.rivals == s.past.rivals
    requires u.past.registered == s.past.registered && u.past.accepted == s.past.accepted
    ensures Extends(s.config, s.past, u.past)
    ensures RegisteredWereFine(u.config, u.past) && RivalsWereFine(u.config, u.past)
    ensures ReaderRefuses(u.config, u.past, u.reader)
  {
  }

  lemma MainKeepsRefusing(s: State, a: MainAction)
    requires Shape(s) && RefusesWell(s) && MainEnabled(s, a)
    ensures RefusesWell(MainStep(s, a))
  {
    if a.Greets? {
      assert s.past.writes == [];
    }
  }

  lemma HeartKeepsRefusing(s: State, a: HeartAction)
    requires RefusesWell(s) && HeartEnabled(s, a)
    ensures RefusesWell(HeartStep(s, a))
  {
    var u := HeartStep(s, a);
    OthersKeepRefusing(s, u);
    GrowingKeepsWrites(s.config, s.past, u.past, s.past.writes);
  }

  lemma StepKeepsRefusing(s: State, a: Action)
    requires Inv(s) && Tells(s) && RefusesWell(s) && Enabled(s, a)
    ensures RefusesWell(Apply(s, a))
  {
    match a
    case Interrupt =>
    case Main(m) => MainKeepsRefusing(s, m);
    case Reader(r) => ReaderKeepsRefusing(s, r);
    case Worker(i, w) => WorkerKeepsRefusing(s, i, w);
    case Heart(h) => HeartKeepsRefusing(s, h);
  }

  lemma {:induction false} RunKeepsRefusing(s: State, schedule: seq<Action>)
    requires Inv(s) && Tells(s) && RefusesWell(s)
    ensures RefusesWell(Run(s, schedule))
    decreases |schedule|
  {
    if |schedule| == 0 {
    } else {
      if Enabled(s, schedule[0]) {
        StepKeepsRefusing(s, schedule[0]);
        StepKeepsTells(s, schedule[0]);
      }
      TurnKeepsInv(s, schedule[0]);
      RunKeepsRefusing(Turn(s, schedule[0]), schedule[1..]);
    }
  }

  lemma CodesOfRefusals(id: string, text: string)
    ensures "bad_request" != "duplicate_request" && "bad_request" != "busy" && "duplicate_request" != "busy"
    ensures ErrorResponse(id, "bad_request", text).errorCode == "bad_request"
  {
    assert |"bad_request"| == 11 && |"duplicate_request"| == 17 && |"busy"| == 4;
  }

  /** Each of the three codes is given exactly for its reason, and with its text. */
  predicate SaysWhy(config: Config, h: Past, t: nat, response: Response) {
    && t < |h.decoded| && t < |Requests(config, h.heard)|
    && var request := h.decoded[t];
      var refusal := ValidateRequest(request, ReadAt(config, h, t), config.maxRequestBytes);
      && (response.errorCode == "bad_request" <==> !WasAcceptable(config, h, t))
      && (response.errorCode == "duplicate_request" <==> t in h.rivals)
      && (response.errorCode == "busy" <==> t in h.registered && t !in h.accepted)
      && (response.errorCode == "bad_request" ==>
            refusal.Some? && response == ErrorResponse(request.id, "bad_request", refusal.value))
      && (response.errorCode == "duplicate_request" ==>
            && HasRival(h, t)
            && response == ErrorResponse(request.id, "duplicate_request", "request id is already active"))
      && (response.errorCode == "busy" ==>
            response == ErrorResponse(request.id, "busy", "local companion queue is full"))
  }

  /**
   A response written for a request has the code `bad_request` exactly when the request was not acceptable at the time
   it was read, and then says what is wrong with it; `duplicate_request` exactly when an earlier request with the same
   identifier was registered when this one was checked; and `busy` exactly when it was registered but never queued.
   */
  lemma RefusalSaysWhy(config: Config, schedule: seq<Action>, i: nat)
    requires config.Usable()
    requires i < |Reached(config, schedule).past.writes| && Reached(config, schedule).past.writes[i].ticket.Some?
    ensures var h := Reached(config, schedule).past;
      && SameRequests(h.decoded, Requests(config, h.heard))
      && h.writes[i].message.Reply? && SaysWhy(config, h, h.writes[i].ticket.value, h.writes[i].message.response)
  {
    InitInv(config);
    ReachedInv(config, schedule);
    RunKeepsRefusing(Init(config), schedule);
    RunKeepsContexts(Init(config), schedule);
    ConfigIsConstant(Init(config), schedule);
    WrittenIsTold(config, schedule, i);
    WrittenSaysWhy(Reached(config, schedule), i);
  }

  lemma WrittenSaysWhy(s: State, i: nat)
    requires RefusesWell(s) && i < |s.past.writes| && s.past.writes[i].ticket.Some?
    requires s.past.writes[i].message.Reply? && WriteTells(s.past, s.past.writes[i])
    requires MessageOk(s.past.decoded, s.past.writes[i].ticket, s.past.writes[i].message)
    requires forall k :: 0 <= k < |s.past.accepted| ==> s.past.accepted[k] in s.past.registered
    ensures SaysWhy(s.config, s.past, s.past.writes[i].ticket.value, s.past.writes[i].message.response)
  {
    var h := s.past;
    var w := h.writes[i];
    var t := w.ticket.value;
    var request := h.decoded[t];
    assert WriteRefuses(s.config, h, w);
    AcceptedExactlyWhen(request, ReadAt(s.config, h, t), s.config.maxRequestBytes);
    CodesOfRefusals(request.id, "");
    if t in h.accepted {
      assert t in h.registered;
      ExecuteNeverRefuses(h.decoded[t], h.outcomes[t]);
    }
  }
}
