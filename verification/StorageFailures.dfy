/** What a `Save` that fails leaves of the pair that was stored before, whichever operations fail and take effect. */
module StorageFailures {
  import opened Wrappers
  import opened Storage
  import opened StorageProofs

  /** Operations that are not provided for are refused. */
  function FateAt(fates: seq<Fate>, i: nat): Fate {
    if i < |fates| then fates[i] else Refused
  }

  function Drop(fates: seq<Fate>, n: nat): seq<Fate> {
    if n <= |fates| then fates[n..] else []
  }

  /** The number of operations that succeed before the first one that does not. */
  function FirstFailure(fates: seq<Fate>): nat {
    if |fates| == 0 || fates[0] != Done then 0 else 1 + FirstFailure(fates[1..])
  }

  lemma SpendDrops(w: World)
    ensures Spend(w).fates == Drop(w.fates, 1)
    ensures FirstFailure(w.fates) == if FateOf(w) == Done then 1 + FirstFailure(Spend(w).fates) else 0
  {
  }

  lemma DropSum(fates: seq<Fate>, m: nat, n: nat)
    ensures Drop(Drop(fates, m), n) == Drop(fates, m + n)
    ensures FateAt(Drop(fates, m), n) == FateAt(fates, m + n)
  {
  }

  /** The configuration and the fates that a part of a `Save` leaves; it does not touch the keyring. */
  predicate Leaves(w: World, after: World, config: Option<Node>, spent: nat) {
    after.config == config && after.fates == Drop(w.fates, spent) && after.keyring == w.keyring
  }

  /** Whether the file has been replaced when operation number f fails first, the rename being number r. */
  predicate Replaced(fates: seq<Fate>, f: nat, r: nat) {
    f > r || (f == r && FateAt(fates, r) == Botched)
  }

  function FileBy(w: World, pairing: Pairing, r: nat): Option<Node> {
    if Replaced(w.fates, FirstFailure(w.fates), r) then SafeFile(pairing) else w.config
  }

  lemma ReplacedLater(fates: seq<Fate>, n: nat, f: nat, r: nat)
    ensures Replaced(Drop(fates, n), f, r) == Replaced(fates, f + n, r + n)
  {
    DropSum(fates, n, r);
  }

  lemma RenameByFailure(w: World, pairing: Pairing)
    requires w.temporary == SafeFile(pairing)
    ensures var r, f := RenameOver(w), FirstFailure(w.fates);
      && Leaves(w, r.world, FileBy(w, pairing, 0), if f == 0 then 1 else 2)
      && r.failed == if f == 0 then Some(Renaming) else if f == 1 then Some(ChmodConfig) else None
  {
    SpendDrops(w);
    SpendDrops(Spend(w));
    DropSum(w.fates, 1, 1);
  }

  function FillStep(f: nat): Option<Step> {
    if f < 6 then Some([ChmodTemporary, WriteAll, Sync, CloseFile, Renaming, ChmodConfig][f]) else None
  }

  /** Four operations come before the rename, and leave the configuration alone. */
  lemma FillEarly(w: World, pairing: Pairing)
    requires FirstFailure(w.fates) < 4
    ensures var r, f := FillAndRename(w, pairing), FirstFailure(w.fates);
      Leaves(w, r.world, w.config, f + 1) && r.failed == FillStep(f)
  {
    var w1 := MakeTemporaryPrivate(w);
    SpendDrops(w);
    if FateOf(w) == Done {
      SpendDrops(w1);
      DropSum(w.fates, 1, 1);
      if FateOf(w1) == Done {
        FillMiddle(w, Fill(w1, pairing));
      }
    }
  }

  lemma FillMiddle(w: World, w2: World)
    requires Leaves(w, w2, w.config, 2)
    requires FirstFailure(w.fates) == 2 + FirstFailure(w2.fates)
    requires FirstFailure(w.fates) < 4
    ensures var r, f := SyncAndRename(w2), FirstFailure(w.fates);
      Leaves(w, r.world, w.config, f + 1) && r.failed == FillStep(f)
  {
    var w3 := SyncTemporary(w2);
    SpendDrops(w2);
    SpendDrops(w3);
    DropSum(w.fates, 2, 1);
    DropSum(w.fates, 3, 1);
  }

  /** When all four succeed, what is renamed is private, complete and durable. */
  lemma FilledByThen(w: World, pairing: Pairing)
    requires w.temporary.Some? && w.temporary.value.Regular? && FirstFailure(w.fates) >= 4
    ensures var filled := Spend(SyncTemporary(Fill(MakeTemporaryPrivate(w), pairing)));
      && FillAndRename(w, pairing) == RenameOver(filled)
      && filled.temporary == SafeFile(pairing)
      && FirstFailure(filled.fates) == FirstFailure(w.fates) - 4
      && Leaves(w, filled, w.config, 4)
  {
    var w1 := MakeTemporaryPrivate(w);
    var w2 := Fill(w1, pairing);
    SpendDrops(w);
    SpendDrops(w1);
    SpendDrops(w2);
    SpendDrops(SyncTemporary(w2));
    DropSum(w.fates, 1, 1);
    DropSum(w.fates, 2, 1);
    DropSum(w.fates, 3, 1);
  }

  lemma FillByFailure(w: World, pairing: Pairing)
    requires w.temporary.Some? && w.temporary.value.Regular?
    ensures var r, f := FillAndRename(w, pairing), FirstFailure(w.fates);
      && Leaves(w, r.world, FileBy(w, pairing, 4), if f <= 4 then f + 1 else 6)
      && r.failed == FillStep(f)
  {
    if FirstFailure(w.fates) < 4 {
      FillEarly(w, pairing);
    } else {
      FilledByThen(w, pairing);
      RenameByFailure(Spend(SyncTemporary(Fill(MakeTemporaryPrivate(w), pairing))), pairing);
      ReplacedLater(w.fates, 4, FirstFailure(w.fates) - 4, 0);
      DropSum(w.fates, 4, 1);
      DropSum(w.fates, 4, 2);
    }
  }

  function WriteStep(f: nat): Option<Step> {
    if f < 3 then Some([Directory, Stat, Creating][f]) else FillStep(f - 3)
  }

  /**
   The operations of an `atomicWrite` whose first failure is number f; once there is a temporary file, its removal
   counts.
   */
  function WriteSpends(f: nat): nat {
    if f <= 2 then f + 1 else if f <= 7 then f + 2 else 10
  }

  lemma WriteEarly(w: World, pairing: Pairing)
    requires w.config != Some(Symlink) && FirstFailure(w.fates) < 3
    ensures var r, f := AtomicWrite(w, pairing), FirstFailure(w.fates);
      Leaves(w, r.world, w.config, f + 1) && r.failed == WriteStep(f)
  {
    SpendDrops(w);
    if FateOf(w) == Done {
      SpendDrops(Spend(w));
      DropSum(w.fates, 1, 1);
      if FateOf(Spend(w)) == Done {
        CreatesAfterTwo(w);
      }
    }
  }

  lemma CreatesAfterTwo(w: World)
    requires FirstFailure(w.fates) >= 2
    ensures var start := Spend(Spend(w));
      && Leaves(w, start, w.config, 2) && Leaves(w, Create(start), w.config, 3)
      && FirstFailure(w.fates) == 2 + FirstFailure(start.fates)
      && (FateOf(start) == Done <==> FirstFailure(w.fates) >= 3)
  {
    SpendDrops(w);
    SpendDrops(Spend(w));
    SpendDrops(Spend(Spend(w)));
    DropSum(w.fates, 1, 1);
    DropSum(w.fates, 2, 1);
  }

  /** Once the temporary file has been created, its removal comes last. */
  lemma WriteByFailure(w: World, pairing: Pairing)
    requires w.config != Some(Symlink)
    ensures var r, f := AtomicWrite(w, pairing), FirstFailure(w.fates);
      && Leaves(w, r.world, FileBy(w, pairing, 7), WriteSpends(f))
      && r.failed == WriteStep(f)
  {
    if FirstFailure(w.fates) < 3 {
      WriteEarly(w, pairing);
    } else {
      CreatesAfterTwo(w);
      CreatedByFailure(w, Spend(Spend(w)), pairing);
      SpendDrops(w);
      SpendDrops(Spend(w));
    }
  }

  lemma CreatedByFailure(w: World, start: World, pairing: Pairing)
    requires FirstFailure(w.fates) >= 3
    requires start.fates == Drop(w.fates, 2) && FateOf(start) == Done
    requires FirstFailure(w.fates) == 2 + FirstFailure(start.fates)
    requires start.config == w.config && start.keyring == w.keyring
    ensures var f := FirstFailure(w.fates);
      var r := FillAndRename(Create(start), pairing);
      && Leaves(w, RemoveTemporary(r.world), FileBy(w, pairing, 7), WriteSpends(f))
      && r.failed == WriteStep(f)
  {
    var f, created := FirstFailure(w.fates), Create(start);
    SpendDrops(start);
    DropSum(w.fates, 2, 1);
    FillByFailure(created, pairing);
    ReplacedLater(w.fates, 3, f - 3, 4);
    var spent := if f - 3 <= 4 then f - 3 + 1 else 6;
    DropSum(w.fates, 3, spent);
    DropSum(w.fates, 3 + spent, 1);
    SpendIsDrop(FillAndRename(created, pairing).world);
  }

  lemma SpendIsDrop(w: World)
    ensures Spend(w).fates == Drop(w.fates, 1)
  {
  }

  function SaveStep(f: nat): Option<SaveError> {
    if f == 0 then Some(NotEncoded)
    else if WriteStep(f - 1).Some? then Some(NotWritten(WriteStep(f - 1).value))
    else None
  }

  /**
   Whether the keyring entry is taken back when operation number f is the first to fail: after the encoding, and if the
   keyring then obliges. The removal of the temporary file comes in between once there is one.
   */
  predicate TakesBack(fates: seq<Fate>, f: nat) {
    f > 0 && TakesEffect(FateAt(fates, if f <= 3 then f + 1 else f + 2))
  }

  /** The write comes one operation after the encoding. */
  lemma WriteInSave(w: World, pairing: Pairing)
    requires w.config != Some(Symlink) && FirstFailure(w.fates) > 0
    ensures var r, f := AtomicWrite(Spend(w), pairing), FirstFailure(w.fates);
      && Leaves(w, r.world, FileBy(w, pairing, 8), 1 + WriteSpends(f - 1))
      && r.failed == WriteStep(f - 1)
  {
    var f := FirstFailure(w.fates);
    SpendDrops(w);
    WriteByFailure(Spend(w), pairing);
    ReplacedLater(w.fates, 1, f - 1, 7);
    DropSum(w.fates, 1, WriteSpends(f - 1));
  }

  /** Encoding, nine operations of `atomicWrite`, and the keyring entry. */
  lemma SaveFileByFailure(w: World, pairing: Pairing)
    requires w.config != Some(Symlink)
    ensures var f := FirstFailure(w.fates); SavedBy(w, SaveFile(w, pairing), pairing, f)
  {
    var f := FirstFailure(w.fates);
    if f > 0 {
      WriteInSave(w, pairing);
      EntryAfterWrite(w, AtomicWrite(Spend(w), pairing), pairing, f);
    }
  }

  predicate SavedBy(w: World, r: Saved, pairing: Pairing, f: nat) {
    && r.error == SaveStep(f)
    && r.world.config == FileBy(w, pairing, 8)
    && (r.error.Some? ==>
          r.world.keyring == if pairing.tokenInKeyring && TakesBack(w.fates, f)
                             then w.keyring - {pairing.deviceId} else w.keyring)
  }

  lemma EntryAfterWrite(w: World, r: Written, pairing: Pairing, f: nat)
    requires f > 0 && f == FirstFailure(w.fates) && r.failed == WriteStep(f - 1)
    requires Leaves(w, r.world, FileBy(w, pairing, 8), 1 + WriteSpends(f - 1))
    ensures SavedBy(w, AfterWrite(r, pairing), pairing, f)
  {
    FateAfter(w.fates, 1 + WriteSpends(f - 1), r.world);
  }

  lemma FateAfter(fates: seq<Fate>, spent: nat, w: World)
    requires w.fates == Drop(fates, spent)
    ensures FateOf(w) == FateAt(fates, spent)
  {
  }

  // ---------------------------------------------------------------------------------------------
  // The old pair
  // ---------------------------------------------------------------------------------------------

  /** The keyring reports that it holds the token, so that a later failure takes the entry back. */
  predicate StoresToken(setup: Setup, w: World) {
    setup.hasKeyring && FateOf(w) == Done
  }

  /** The keyring entry is overwritten, whatever the keyring reports. */
  predicate TouchesToken(setup: Setup, w: World) {
    setup.hasKeyring && TakesEffect(FateOf(w))
  }

  /** Identifier or token are missing: nothing at all is done. */
  predicate Refuses(pairing: Pairing, token: string) {
    pairing.deviceId == "" || token == ""
  }

  /** The keyring is required and does not report that it holds the token: the file is not touched. */
  predicate GivesUp(setup: Setup, w: World) {
    setup.requireKeyring && !StoresToken(setup, w)
  }

  /** The fates of the encoding and of what follows. */
  function WriteFates(setup: Setup, w: World): seq<Fate> {
    if setup.hasKeyring then Drop(w.fates, 1) else w.fates
  }

  /**
   When the file has not been replaced, the old pair lives unless its token was in the keyring under the device
   identifier being saved and that entry was touched: then it lives only if the token is the same and the entry was not
   taken back. When the file has been replaced, the old pair lives if the new one is the very same and its entry was
   not taken back.
   */
  predicate OldPairLives(setup: Setup, w: World, pairing: Pairing, token: string, present: (Pairing, string)) {
    var stored, fates := StoresToken(setup, w), WriteFates(setup, w);
    var f := FirstFailure(fates);
    var writes := !GivesUp(setup, w);
    var takenBack := writes && stored && TakesBack(fates, f);
    || Refuses(pairing, token)
    || if writes && Replaced(fates, f, 8) then present == (Stored(pairing, token, stored), token) && !takenBack
       else TouchesToken(setup, w) && present.0.tokenInKeyring && present.0.deviceId == pairing.deviceId
            ==> present.1 == token && !takenBack
  }

  lemma PairAfterSave(setup: Setup, w: World, start: World, r: Saved, pairing: Pairing, token: string)
    requires PairOf(setup, w.config, w.keyring).Some? && r.error.Some?
    requires !Refuses(pairing, token) && !GivesUp(setup, w) && start.fates == WriteFates(setup, w)
    requires start == if setup.hasKeyring then KeyringStore(w, pairing.deviceId, token) else w
    requires SavedBy(start, r, Stored(pairing, token, StoresToken(setup, w)), FirstFailure(start.fates))
    ensures var present := PairOf(setup, w.config, w.keyring).value;
      PairOf(setup, r.world.config, r.world.keyring) == Some(present)
      <==> OldPairLives(setup, w, pairing, token, present)
  {
  }

  /**
   A failed `Save` leaves the pair that was stored before exactly when the old pair lives; what that takes can be read
   off the store, the arguments, the first operation that fails, and which operations take effect all the same.
   */
  lemma FailedSaveKeepsPairExactlyWhen(setup: Setup, w: World, pairing: Pairing, token: string)
    requires PairOf(setup, w.config, w.keyring).Some? && Save(setup, w, pairing, token).error.Some?
    ensures var after := Save(setup, w, pairing, token).world;
      var present := PairOf(setup, w.config, w.keyring).value;
      PairOf(setup, after.config, after.keyring) == Some(present) <==> OldPairLives(setup, w, pairing, token, present)
  {
    if !Refuses(pairing, token) && !GivesUp(setup, w) {
      var start := if setup.hasKeyring then KeyringStore(w, pairing.deviceId, token) else w;
      SpendDrops(w);
      SaveFileByFailure(start, Stored(pairing, token, StoresToken(setup, w)));
      PairAfterSave(setup, w, start, Save(setup, w, pairing, token), pairing, token);
    }
  }

  /**
   A failed `Save` can destroy what it replaced: when only the last step fails, the new file stands, its keyring entry
   is taken back, and no load finds a pair.
   */
  lemma LateFailureLosesThePair(setup: Setup, w: World, pairing: Pairing, token: string, later: seq<Fate>)
    requires setup.hasKeyring && pairing.deviceId != "" && token != "" && w.config != Some(Symlink)
    requires w.fates == [Done, Done, Done, Done, Done, Done, Done, Done, Done, Done, Refused, Done, Done]
    ensures var r := Save(setup, w, pairing, token);
      && r.error == Some(NotWritten(ChmodConfig))
      && r.world.config == NewFile(pairing, token, true)
      && Load(setup, r.world.(fates := later)).result.Err?
  {
    var kept := KeyringStore(w, pairing.deviceId, token);
    LateFailureOfSave(kept, Stored(pairing, token, true));
    LoadFindsThePair(setup, SaveFile(kept, Stored(pairing, token, true)).world.(fates := later));
  }

  /**
   So can a failed `Save` that never gets to the file: when the directory cannot be used, the keyring entry that is
   taken back is that of the pairing on disk, if both have the same device identifier.
   */
  lemma EarlyFailureLosesThePair(setup: Setup, w: World, pairing: Pairing, token: string, later: seq<Fate>)
    requires setup.hasKeyring && token != "" && PairOf(setup, w.config, w.keyring).Some?
    requires var present := PairOf(setup, w.config, w.keyring).value.0;
      present.tokenInKeyring && present.deviceId == pairing.deviceId
    requires pairing.deviceId != "" && w.fates == [Done, Done, Refused, Done]
    ensures var r := Save(setup, w, pairing, token);
      && r.error == Some(NotWritten(Directory)) && r.world.config == w.config
      && Load(setup, r.world.(fates := later)).result.Err?
  {
    var kept := KeyringStore(w, pairing.deviceId, token);
    assert kept.fates == [Done, Refused, Done];
    assert kept.fates[1..] == [Refused, Done];
    SaveFileByFailure(kept, Stored(pairing, token, true));
    LoadFindsThePair(setup, Save(setup, w, pairing, token).world.(fates := later));
  }

  lemma LateFailureOfSave(w: World, pairing: Pairing)
    requires w.config != Some(Symlink) && pairing.tokenInKeyring
    requires w.fates == [Done, Done, Done, Done, Done, Done, Done, Done, Done, Refused, Done, Done]
    ensures var r := SaveFile(w, pairing);
      && r.error == Some(NotWritten(ChmodConfig)) && r.world.config == SafeFile(pairing)
      && r.world.keyring == w.keyring - {pairing.deviceId}
  {
    LateFailureOfWrite(Spend(w), pairing);
  }

  lemma LateFailureOfWrite(w: World, pairing: Pairing)
    requires w.config != Some(Symlink)
    requires w.fates == [Done, Done, Done, Done, Done, Done, Done, Done, Refused, Done, Done]
    ensures var r := AtomicWrite(w, pairing);
      && r.failed == Some(ChmodConfig) && r.world.config == SafeFile(pairing)
      && r.world.fates == [Done] && r.world.keyring == w.keyring
  {
    var filling := Create(Spend(Spend(w)));
    assert filling.fates == [Done, Done, Done, Done, Done, Refused, Done, Done];
    LateFailureOfFill(filling, pairing);
  }

  lemma LateFailureOfFill(w: World, pairing: Pairing)
    requires w.temporary.Some? && w.temporary.value.Regular?
    requires w.fates == [Done, Done, Done, Done, Done, Refused, Done, Done]
    ensures var r := FillAndRename(w, pairing);
      && r.failed == Some(ChmodConfig) && r.world.config == SafeFile(pairing)
      && r.world.fates == [Done, Done] && r.world.keyring == w.keyring
  {
  }
}
