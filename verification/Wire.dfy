/**
 Concurrent writers. Workers, the reader's pongs, the heartbeat and `Close` all call `writeFrame` on one connection;
 `writeMu` is taken before the mask is drawn and released after the socket call. A write reaches the socket in pieces
 of any size, and it may break off after any of them.
 */
module Wire {
  import opened Wrappers
  import opened Bytes
  import opened Frames
  import opened Sequences

  /** A frame handed to `writeFrame`, with the mask that will be drawn for it. */
  datatype Outgoing = Outgoing(opcode: byte, payload: seq<byte>, mask: Mask) {
    function Bytes(): seq<byte> {
      EncodeMasked(opcode, payload, mask)
    }

    function Plain(): Frame {
      Frame(true, opcode, payload)
    }

    predicate Sound() {
      opcode < 16 && |payload| <= MAX_INT64
    }
  }

  /** Where a goroutine stands in `writeFrame`. */
  datatype Writer =
    | Outside
    | Waiting(frame: Outgoing)              // at writeMu.Lock
    | Writing(frame: Outgoing, sent: nat)   // in the critical section
    | Leaving                               // at the deferred Unlock
  {
    predicate Inside() {
      Writing? || Leaving?
    }
  }

  /** A frame that broke off: how much of the wire, and how many whole frames, came before it. */
  datatype Damage = Damage(bytes: nat, frames: nat)

  /**
   The bytes on the wire, the mutex, the writers; and what has happened: the frame of every acquisition of the mutex,
   the frames written whole, for each of them the acquisition it belongs to, and the first frame that broke off.
   */
  datatype State = State(
    wire: seq<byte>,
    mutex: Option<nat>,
    writers: seq<Writer>,
    locks: seq<Outgoing>,
    sent: seq<Outgoing>,
    turns: seq<nat>,
    damage: Option<Damage>)

  datatype Action =
    | Call(who: nat, frame: Outgoing)
    | Lock(who: nat)
    | Refuse(who: nat)              // no randomness, or no write deadline: nothing is written
    | Emit(who: nat, count: nat)
    | Break(who: nat)               // the socket write fails
    | Finish(who: nat)
    | Unlock(who: nat)

  function Init(n: nat): State {
    State([], None, seq(n, _ => Outside), [], [], [], None)
  }

  predicate Enabled(s: State, a: Action) {
    && a.who < |s.writers|
    && var w := s.writers[a.who];
      match a
      case Call(_, frame) => w.Outside? && frame.Sound()
      case Lock(_) => w.Waiting? && s.mutex.None?
      case Refuse(_) => w.Writing? && w.sent == 0
      case Emit(_, count) => w.Writing? && w.sent + count <= |w.frame.Bytes()|
      case Break(_) => w.Writing?
      case Finish(_) => w.Writing? && w.sent == |w.frame.Bytes()|
      case Unlock(_) => w.Leaving?
  }

  function Apply(s: State, a: Action): State
    requires Enabled(s, a)
  {
    var w := s.writers[a.who];
    match a
    case Call(i, frame) => s.(writers := s.writers[i := Waiting(frame)])
    case Lock(i) => s.(mutex := Some(i), writers := s.writers[i := Writing(w.frame, 0)], locks := s.locks + [w.frame])
    case Refuse(i) => s.(writers := s.writers[i := Leaving])
    case Emit(i, count) =>
      s.(wire := s.wire + w.frame.Bytes()[w.sent..w.sent + count],
         writers := s.writers[i := Writing(w.frame, w.sent + count)])
    case Break(i) =>
      s.(damage := if s.damage.None? && w.sent > 0 && w.sent <= |s.wire|
                   then Some(Damage(|s.wire| - w.sent, |s.sent|)) else s.damage,
         writers := s.writers[i := Leaving])
    case Finish(i) => s.(sent := s.sent + [w.frame], turns := s.turns + [Turn(s)], writers := s.writers[i := Leaving])
    case Unlock(i) => s.(mutex := None, writers := s.writers[i := Outside])
  }

  /** The acquisition of the mutex that is in force. */
  function Turn(s: State): nat {
    if |s.locks| == 0 then 0 else |s.locks| - 1
  }

  /** A scheduler's choices; a choice that is not possible changes nothing. */
  function Run(s: State, schedule: seq<Action>): State
    decreases |schedule|
  {
    if |schedule| == 0 then s
    else Run(if Enabled(s, schedule[0]) then Apply(s, schedule[0]) else s, schedule[1..])
  }

  function AllBytes(frames: seq<Outgoing>): seq<byte> {
    if |frames| == 0 then [] else AllBytes(frames[..|frames| - 1]) + frames[|frames| - 1].Bytes()
  }

  /** The part of the current writer's frame that is on the wire. */
  function Partial(s: State): seq<byte> {
    if s.mutex.Some? && s.mutex.value < |s.writers| && s.writers[s.mutex.value].Writing?
       && s.writers[s.mutex.value].sent <= |s.writers[s.mutex.value].frame.Bytes()|
    then s.writers[s.mutex.value].frame.Bytes()[..s.writers[s.mutex.value].sent]
    else []
  }

  predicate Exclusive(s: State) {
    && (forall i :: 0 <= i < |s.writers| && s.writers[i].Inside() ==> s.mutex == Some(i))
    && (s.mutex.Some? ==> s.mutex.value < |s.writers| && s.writers[s.mutex.value].Inside())
  }

  predicate SoundFrames(s: State) {
    && (forall i :: 0 <= i < |s.writers| && (s.writers[i].Waiting? || s.writers[i].Writing?) ==>
          s.writers[i].frame.Sound())
    && (forall i :: 0 <= i < |s.writers| && s.writers[i].Writing? ==> s.writers[i].sent <= |s.writers[i].frame.Bytes()|)
    && (forall i :: 0 <= i < |s.sent| ==> s.sent[i].Sound())
  }

  /** Undamaged: the whole frames in lock order, then a piece of the one being written. */
  predicate WholeFrames(s: State) {
    match s.damage
    case None => s.wire == AllBytes(s.sent) + Partial(s)
    case Some(d) => d.bytes <= |s.wire| && d.frames <= |s.sent| && s.wire[..d.bytes] == AllBytes(s.sent[..d.frames])
  }

  /** Each frame written whole belongs to a later acquisition of the mutex than the one before it. */
  predicate InLockOrder(locks: seq<Outgoing>, sent: seq<Outgoing>, turns: seq<nat>) {
    && |turns| == |sent|
    && (forall k :: 0 <= k < |sent| ==> turns[k] < |locks| && sent[k] == locks[turns[k]])
    && (forall j, k :: 0 <= j < k < |turns| ==> turns[j] < turns[k])
  }

  /** The writer in the critical section made the last acquisition, and nothing has been written whole for it yet. */
  predicate TakesTurns(s: State) {
    && InLockOrder(s.locks, s.sent, s.turns)
    && (s.mutex.Some? && s.mutex.value < |s.writers| && s.writers[s.mutex.value].Writing? ==>
          && |s.locks| > 0 && s.locks[|s.locks| - 1] == s.writers[s.mutex.value].frame
          && forall k :: 0 <= k < |s.turns| ==> s.turns[k] < |s.locks| - 1)
  }

  predicate Inv(s: State) {
    Exclusive(s) && SoundFrames(s) && WholeFrames(s) && TakesTurns(s)
  }

  lemma LockingKeepsTurns(s: State, i: nat)
    requires Inv(s) && Enabled(s, Lock(i))
    ensures TakesTurns(Apply(s, Lock(i)))
  {
    var t := Apply(s, Lock(i));
    assert forall k :: 0 <= k < |s.sent| ==> t.locks[s.turns[k]] == s.locks[s.turns[k]];
  }

  lemma FinishingKeepsTurns(s: State, i: nat)
    requires Inv(s) && Enabled(s, Finish(i))
    ensures TakesTurns(Apply(s, Finish(i)))
  {
    assert s.mutex == Some(i);
    assert s.locks[Turn(s)] == s.writers[i].frame;
  }

  lemma StepKeepsTurns(s: State, a: Action)
    requires Inv(s) && Enabled(s, a)
    ensures TakesTurns(Apply(s, a))
  {
    match a
    case Lock(i) => LockingKeepsTurns(s, i);
    case Finish(i) => FinishingKeepsTurns(s, i);
    case _ => HolderStays(s, a);
  }

  lemma HolderStays(s: State, a: Action)
    requires Inv(s) && Enabled(s, a) && !a.Lock? && !a.Finish?
    ensures TakesTurns(Apply(s, a))
  {
    var t := Apply(s, a);
    assert t.locks == s.locks && t.sent == s.sent && t.turns == s.turns;
    assert t.mutex.Some? ==> t.mutex == s.mutex;
    assert t.mutex.Some? && t.mutex.value < |t.writers| && t.writers[t.mutex.value].Writing? ==>
        s.writers[t.mutex.value].Writing? && t.writers[t.mutex.value].frame == s.writers[t.mutex.value].frame;
  }

  lemma StepKeepsExclusive(s: State, a: Action)
    requires Inv(s) && Enabled(s, a)
    ensures Exclusive(Apply(s, a))
  {
    var t := Apply(s, a);
    assert forall j :: 0 <= j < |s.writers| && j != a.who ==> t.writers[j] == s.writers[j];
  }

  lemma StepKeepsSound(s: State, a: Action)
    requires Inv(s) && Enabled(s, a)
    ensures SoundFrames(Apply(s, a))
  {
    var t := Apply(s, a);
    assert forall j :: 0 <= j < |s.writers| && j != a.who ==> t.writers[j] == s.writers[j];
  }

  lemma StepKeepsDamaged(s: State, a: Action)
    requires Inv(s) && Enabled(s, a) && s.damage.Some?
    ensures WholeFrames(Apply(s, a))
  {
    var t, d := Apply(s, a), s.damage.value;
    assert t.wire[..d.bytes] == s.wire[..d.bytes];
    assert t.sent[..d.frames] == s.sent[..d.frames];
  }

  /** A step that neither writes nor completes a frame leaves what is on the wire as it is. */
  lemma QuietKeepsWire(s: State, t: State)
    requires WholeFrames(s) && s.damage.None?
    requires t.wire == s.wire && t.sent == s.sent && t.damage == s.damage && Partial(t) == Partial(s)
    ensures WholeFrames(t)
  {
  }

  lemma CallIsQuiet(s: State, i: nat, frame: Outgoing)
    requires Inv(s) && Enabled(s, Call(i, frame))
    ensures Partial(Apply(s, Call(i, frame))) == Partial(s)
  {
    assert s.mutex != Some(i);
  }

  lemma LockIsQuiet(s: State, i: nat)
    requires Inv(s) && Enabled(s, Lock(i))
    ensures Partial(Apply(s, Lock(i))) == Partial(s)
  {
    var t := Apply(s, Lock(i));
    assert t.mutex == Some(i) && t.writers[i] == Writing(s.writers[i].frame, 0);
    assert Partial(t) == t.writers[i].frame.Bytes()[..0] == [];
    assert Partial(s) == [];
  }

  lemma RefuseIsQuiet(s: State, i: nat)
    requires Inv(s) && Enabled(s, Refuse(i))
    ensures Partial(Apply(s, Refuse(i))) == Partial(s)
  {
    assert s.mutex == Some(i);
    assert Partial(s) == s.writers[i].frame.Bytes()[..0] == [];
    assert Partial(Apply(s, Refuse(i))) == [];
  }

  lemma UnlockIsQuiet(s: State, i: nat)
    requires Inv(s) && Enabled(s, Unlock(i))
    ensures Partial(Apply(s, Unlock(i))) == Partial(s)
  {
    assert s.mutex == Some(i);
    assert Partial(s) == [];
  }

  lemma FinishExtends(s: State, i: nat)
    requires Inv(s) && Enabled(s, Finish(i)) && s.damage.None?
    ensures WholeFrames(Apply(s, Finish(i)))
  {
    var t, bytes := Apply(s, Finish(i)), s.writers[i].frame.Bytes();
    assert s.mutex == Some(i) && Partial(s) == bytes[..|bytes|] == bytes;
    assert Partial(t) == [];
    AllBytesOfLast(s.sent, s.writers[i].frame);
    assert t.wire + [] == t.wire;
  }

  lemma AllBytesOfLast(frames: seq<Outgoing>, frame: Outgoing)
    ensures AllBytes(frames + [frame]) == AllBytes(frames) + frame.Bytes()
  {
    assert (frames + [frame])[..|frames|] == frames;
  }

  lemma StepKeepsWire(s: State, a: Action)
    requires Inv(s) && Enabled(s, a) && s.damage.None?
    ensures WholeFrames(Apply(s, a))
  {
    match a
    case Call(i, frame) =>
      CallIsQuiet(s, i, frame);
      QuietKeepsWire(s, Apply(s, a));
    case Lock(i) =>
      LockIsQuiet(s, i);
      QuietKeepsWire(s, Apply(s, a));
    case Refuse(i) =>
      RefuseIsQuiet(s, i);
      QuietKeepsWire(s, Apply(s, a));
    case Emit(i, count) => EmitExtends(s, i, count);
    case Break(i) => BreakMarks(s, i);
    case Finish(i) => FinishExtends(s, i);
    case Unlock(i) =>
      UnlockIsQuiet(s, i);
      QuietKeepsWire(s, Apply(s, a));
  }

  lemma EmitExtends(s: State, i: nat, count: nat)
    requires Inv(s) && Enabled(s, Emit(i, count)) && s.damage.None?
    ensures WholeFrames(Apply(s, Emit(i, count)))
  {
    EmitGrows(s, i, count);
    PieceKeepsWire(s, Apply(s, Emit(i, count)), s.writers[i].frame.Bytes(), s.writers[i].sent, count);
  }

  lemma PieceKeepsWire(s: State, t: State, bytes: seq<byte>, m: nat, n: nat)
    requires WholeFrames(s) && s.damage.None? && m + n <= |bytes| && Partial(s) == bytes[..m]
    requires t.damage.None? && t.sent == s.sent && t.wire == s.wire + bytes[m..m + n] && Partial(t) == bytes[..m + n]
    ensures WholeFrames(t)
  {
    PieceFollows(AllBytes(s.sent), bytes, m, n);
  }

  lemma EmitGrows(s: State, i: nat, count: nat)
    requires Exclusive(s) && Enabled(s, Emit(i, count))
    ensures var w := s.writers[i];
      && Partial(s) == w.frame.Bytes()[..w.sent]
      && Partial(Apply(s, Emit(i, count))) == w.frame.Bytes()[..w.sent + count]
  {
    assert s.mutex == Some(i);
    assert Apply(s, Emit(i, count)).writers[i] == Writing(s.writers[i].frame, s.writers[i].sent + count);
  }

  lemma PieceFollows(before: seq<byte>, bytes: seq<byte>, m: nat, n: nat)
    requires m + n <= |bytes|
    ensures (before + bytes[..m]) + bytes[m..m + n] == before + bytes[..m + n]
  {
    PrefixGrows(bytes, m, n);
    Regroup(before, bytes[..m], bytes[m..m + n]);
  }

  lemma BreakMarks(s: State, i: nat)
    requires Inv(s) && Enabled(s, Break(i)) && s.damage.None?
    ensures WholeFrames(Apply(s, Break(i)))
  {
    var w, t := s.writers[i], Apply(s, Break(i));
    BreakKeepsPiece(s, i);
    Parts(AllBytes(s.sent), w.frame.Bytes()[..w.sent]);
    assert s.sent[..|s.sent|] == s.sent;
  }

  lemma BreakKeepsPiece(s: State, i: nat)
    requires Exclusive(s) && SoundFrames(s) && Enabled(s, Break(i))
    ensures var w := s.writers[i];
      w.sent <= |w.frame.Bytes()| && Partial(s) == w.frame.Bytes()[..w.sent]
  {
    assert s.mutex == Some(i);
  }

  lemma StepKeepsInv(s: State, a: Action)
    requires Inv(s) && Enabled(s, a)
    ensures Inv(Apply(s, a))
  {
    StepKeepsExclusive(s, a);
    StepKeepsSound(s, a);
    StepKeepsTurns(s, a);
    if s.damage.Some? {
      StepKeepsDamaged(s, a);
    } else {
      StepKeepsWire(s, a);
    }
  }

  /** Every schedule, of any number of writers, keeps the mutex exclusive and the wire a concatenation of frames. */
  lemma {:induction false} RunKeepsInv(s: State, schedule: seq<Action>)
    requires Inv(s)
    ensures Inv(Run(s, schedule))
    decreases |schedule|
  {
    if |schedule| == 0 {
    } else {
      if Enabled(s, schedule[0]) {
        StepKeepsInv(s, schedule[0]);
        RunKeepsInv(Apply(s, schedule[0]), schedule[1..]);
      } else {
        RunKeepsInv(s, schedule[1..]);
      }
    }
  }

  // ---------------------------------------------------------------------------------------------
  // What the other end sees
  // ---------------------------------------------------------------------------------------------

  /** A section 5.2 decoder applied as often as it succeeds. */
  function DecodeAll(input: seq<byte>): seq<Frame>
    decreases |input|
  {
    match DecodeMasked(input)
    case None => []
    case Some(r) => [r.0] + DecodeAll(input[r.1..])
  }

  function Plains(frames: seq<Outgoing>): (fs: seq<Frame>)
    ensures |fs| == |frames|
  {
    seq(|frames|, i requires 0 <= i < |frames| => frames[i].Plain())
  }

  lemma DecodeIsLocal(input: seq<byte>, more: seq<byte>)
    requires DecodeMasked(input).Some?
    ensures DecodeMasked(input + more) == DecodeMasked(input)
  {
    var all := input + more;
    var header := 2 + ExtraBytes(FormOf(input[1]));
    var length := LengthOf(input[1], input[2..header]);
    assert all[0] == input[0] && all[1] == input[1];
    SliceOfFirst(input, more, 2, header);
    SliceOfFirst(input, more, header, header + 4);
    SliceOfFirst(input, more, header + 4, header + 4 + length);
  }

  /** A frame that is only partly on the wire is not decoded. */
  lemma PartIsNotDecoded(frame: Outgoing, count: nat)
    requires frame.Sound() && count < |frame.Bytes()|
    ensures DecodeMasked(frame.Bytes()[..count]) == None
  {
    var bytes := frame.Bytes();
    DecodeOfEncodeMasked(frame.opcode, frame.payload, frame.mask, []);
    assert bytes + [] == bytes;
    if DecodeMasked(bytes[..count]).Some? {
      assert bytes[..count] + bytes[count..] == bytes;
      DecodeIsLocal(bytes[..count], bytes[count..]);
    }
  }

  lemma DecodeFirst(frame: Outgoing, rest: seq<byte>)
    requires frame.Sound()
    ensures DecodeAll(frame.Bytes() + rest) == [frame.Plain()] + DecodeAll(rest)
  {
    DecodeOfEncodeMasked(frame.opcode, frame.payload, frame.mask, rest);
    Parts(frame.Bytes(), rest);
  }

  lemma {:induction false} DecodeAllOfBytes(frames: seq<Outgoing>, rest: seq<byte>)
    requires forall i :: 0 <= i < |frames| ==> frames[i].Sound()
    ensures DecodeAll(AllBytes(frames) + rest) == Plains(frames) + DecodeAll(rest)
    decreases |frames|
  {
    if |frames| == 0 {
      assert AllBytes(frames) + rest == rest;
    } else {
      var front, last := frames[..|frames| - 1], frames[|frames| - 1];
      DecodeAllOfBytes(front, last.Bytes() + rest);
      DecodeFirst(last, rest);
      Regroup(AllBytes(front), last.Bytes(), rest);
      PlainsOfLast(frames);
      Regroup(Plains(front), [last.Plain()], DecodeAll(rest));
    }
  }

  lemma PlainsOfSum(a: seq<Outgoing>, b: seq<Outgoing>)
    ensures Plains(a + b) == Plains(a) + Plains(b)
  {
  }

  lemma PlainsOfLast(frames: seq<Outgoing>)
    requires |frames| > 0
    ensures Plains(frames) == Plains(frames[..|frames| - 1]) + [frames[|frames| - 1].Plain()]
  {
  }

  /**
   At any moment of any run in which no write has broken off inside a frame, a receiver decodes exactly the frames
   whose writes are complete, in the order in which their writers took the lock: nothing is interleaved. One more frame
   is visible as soon as its last byte is out. A frame of which nothing was written has its place in that order, too.
   */
  lemma ReceiverSeesWholeFrames(n: nat, schedule: seq<Action>)
    ensures var s := Run(Init(n), schedule);
      && InLockOrder(s.locks, s.sent, s.turns)
      && (s.damage.None? ==> DecodeAll(s.wire) == Plains(s.sent + Complete(s)))
  {
    RunKeepsInv(Init(n), schedule);
    var s := Run(Init(n), schedule);
    if s.damage.None? {
      DecodeAllOfBytes(s.sent, Partial(s));
      DecodePartial(s);
      PlainsOfSum(s.sent, Complete(s));
    }
  }

  /** The current writer's frame, if all its bytes are out. */
  function Complete(s: State): seq<Outgoing> {
    if s.mutex.Some? && s.mutex.value < |s.writers| && s.writers[s.mutex.value].Writing?
       && s.writers[s.mutex.value].sent == |s.writers[s.mutex.value].frame.Bytes()|
    then [s.writers[s.mutex.value].frame]
    else []
  }

  lemma DecodePartial(s: State)
    requires Inv(s)
    ensures DecodeAll(Partial(s)) == Plains(Complete(s))
  {
    if s.mutex.Some? && s.writers[s.mutex.value].Writing? {
      var w := s.writers[s.mutex.value];
      if w.sent < |w.frame.Bytes()| {
        PartIsNotDecoded(w.frame, w.sent);
      } else {
        DecodeFirst(w.frame, []);
        assert Partial(s) == w.frame.Bytes() + [];
      }
    }
  }

  lemma EarlierFramesDecode(s: State)
    requires SoundFrames(s) && WholeFrames(s) && s.damage.Some?
    ensures var d := s.damage.value;
      DecodeAll(s.wire[..d.bytes]) == Plains(s.sent[..d.frames])
  {
    var d := s.damage.value;
    DecodeAllOfBytes(s.sent[..d.frames], []);
    assert s.wire[..d.bytes] + [] == s.wire[..d.bytes];
  }

  /** After the first write that broke off, everything before it is still decodable frame by frame. */
  lemma DamageLeavesEarlierFrames(n: nat, schedule: seq<Action>)
    ensures var s := Run(Init(n), schedule);
      s.damage.Some? ==>
        && s.damage.value.bytes <= |s.wire| && s.damage.value.frames <= |s.sent|
        && DecodeAll(s.wire[..s.damage.value.bytes]) == Plains(s.sent[..s.damage.value.frames])
  {
    RunKeepsInv(Init(n), schedule);
    if Run(Init(n), schedule).damage.Some? {
      EarlierFramesDecode(Run(Init(n), schedule));
    }
  }
}
