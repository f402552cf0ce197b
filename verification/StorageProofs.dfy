/** Crash consistency of `Save`, and what any sequence of store operations keeps. */
module StorageProofs {
  import opened Wrappers
  import opened Storage

  /** What a load with an obliging environment finds. */
  function PairOf(setup: Setup, config: Option<Node>, keyring: map<string, string>): Option<(Pairing, string)> {
    if config.None? || !config.value.Regular? || !config.value.private || config.value.content.Garbage? then None
    else
      var p := config.value.content.pairing;
      if !Complete(p) then None
      else if p.tokenInKeyring then
        if setup.hasKeyring && p.deviceId in keyring then Some((p, keyring[p.deviceId])) else None
      else if p.deviceToken == "" then None
      else Some((p, p.deviceToken))
  }

  /** A file that a crash leaves alone and everybody but its owner too. */
  function SafeFile(pairing: Pairing): Option<Node> {
    Some(Regular(Encoded(pairing), true, true))
  }

  function NewFile(pairing: Pairing, token: string, inKeyring: bool): Option<Node> {
    SafeFile(Stored(pairing, token, inKeyring))
  }

  lemma LoadFindsThePair(setup: Setup, w: World)
    ensures var r := Load(setup, w).result;
      (r.Ok? ==> PairOf(setup, w.config, w.keyring) == Some(r.value))
    ensures |w.fates| >= 3 && w.fates[0] == w.fates[1] == w.fates[2] == Done && PairOf(setup, w.config, w.keyring).Some?
      ==> Load(setup, w).result == Ok(PairOf(setup, w.config, w.keyring).value)
  {
  }

  /** The configuration is as before, or the complete new one; the keyring and the status file are as before. */
  predicate OldOrNew(before: World, after: World, pairing: Pairing) {
    && after.keyring == before.keyring && after.status == before.status
    && Replaces(before, after, SafeFile(pairing))
  }

  /** The configuration is as before, or the given one, and then the one before is among the earlier entries. */
  predicate Replaces(before: World, after: World, node: Option<Node>) {
    || (after.config == before.config && after.earlier == before.earlier)
    || (after.config == node && after.earlier == before.earlier + [before.config])
  }

  /** A rename installs the new pairing because it was written, synced and made private before. */
  lemma RenameCases(w: World, pairing: Pairing)
    requires w.temporary == SafeFile(pairing)
    ensures var r := RenameOver(w);
      && OldOrNew(w, r.world, pairing)
      && (r.failed.None? ==> r.world.config == SafeFile(pairing))
  {
  }

  /** Nothing is renamed before the temporary file has become private, complete and durable, in this order. */
  lemma FillCases(w: World, pairing: Pairing)
    requires w.temporary.Some? && w.temporary.value.Regular?
    ensures var r := FillAndRename(w, pairing);
      && OldOrNew(w, r.world, pairing)
      && (r.failed.None? ==> r.world.config == SafeFile(pairing))
  {
    var filled := Fill(MakeTemporaryPrivate(w), pairing);
    if FateOf(w) == Done && FateOf(MakeTemporaryPrivate(w)) == Done && FateOf(filled) == Done {
      assert SyncTemporary(filled).temporary == SafeFile(pairing);
      RenameCases(Spend(SyncTemporary(filled)), pairing);
    }
  }

  /** Whatever happens in `atomicWrite`, the configuration is the old one or the complete new one. */
  lemma AtomicWriteCases(w: World, pairing: Pairing)
    ensures var r := AtomicWrite(w, pairing);
      && OldOrNew(w, r.world, pairing)
      && (r.failed.None? ==> r.world.config == SafeFile(pairing))
  {
    var start := Spend(Spend(w));
    if FateOf(start) == Done {
      FillCases(Create(start), pairing);
    }
  }

  predicate NoneRefused(fates: seq<Fate>) {
    forall i :: 0 <= i < |fates| ==> fates[i] != Refused
  }

  lemma RenameSpends(w: World)
    requires NoneRefused(w.fates) && |w.fates| >= 2
    ensures var after := RenameOver(w).world.fates; NoneRefused(after) && |after| >= |w.fates| - 2
  {
  }

  lemma FillSpends(w: World, pairing: Pairing)
    requires NoneRefused(w.fates) && |w.fates| >= 6
    ensures var after := FillAndRename(w, pairing).world.fates; NoneRefused(after) && |after| >= |w.fates| - 6
  {
    RenameSpends(Spend(SyncTemporary(Fill(MakeTemporaryPrivate(w), pairing))));
  }

  /**
   Whichever step of `atomicWrite` fails, if operations at least take effect the temporary file is gone in the end;
   except when it was created although its creation failed.
   */
  lemma TemporaryIsRemoved(w: World, pairing: Pairing)
    requires w.temporary == None && NoneRefused(w.fates) && |w.fates| >= 10
    ensures var r := AtomicWrite(w, pairing); r.failed != Some(Creating) ==> r.world.temporary == None
  {
    FillSpends(Create(Spend(Spend(w))), pairing);
  }

  /** The keyring differs at most in the entry of the saved device, which is gone, as before, or the new token. */
  predicate KeyringChange(before: map<string, string>, after: map<string, string>, deviceId: string, token: string) {
    || after == before
    || after == before[deviceId := token]
    || after == before - {deviceId}
    || after == before[deviceId := token] - {deviceId}
  }

  lemma SaveFileCases(w: World, pairing: Pairing)
    ensures var r := SaveFile(w, pairing);
      && Replaces(w, r.world, SafeFile(pairing))
      && (r.world.keyring == w.keyring || r.world.keyring == w.keyring - {pairing.deviceId})
      && (r.error.None? ==> r.world.config == SafeFile(pairing) && r.world.keyring == w.keyring)
  {
    AtomicWriteCases(Spend(w), pairing);
  }

  /** What `Save` may have done to the world by the time it ends or stops. */
  predicate SaveEffect(setup: Setup, w: World, after: World, pairing: Pairing, token: string) {
    && KeyringChange(w.keyring, after.keyring, pairing.deviceId, token)
    && (Replaces(w, after, NewFile(pairing, token, false))
        || (Replaces(w, after, NewFile(pairing, token, true)) && setup.hasKeyring
            && (pairing.deviceId in after.keyring ==> after.keyring[pairing.deviceId] == token)))
    && (!setup.hasKeyring ==> after.keyring == w.keyring)
    && (pairing.deviceId == "" || token == "" ==> after == w)
  }

  lemma SaveCases(setup: Setup, w: World, pairing: Pairing, token: string)
    ensures SaveEffect(setup, w, Save(setup, w, pairing, token).world, pairing, token)
  {
    if pairing.deviceId != "" && token != "" {
      if setup.hasKeyring {
        SaveWithKeyringCases(setup, w, pairing, token);
      } else if !setup.requireKeyring {
        FileOnlyCases(w, Stored(pairing, token, false));
      }
    }
  }

  lemma SaveWithKeyringCases(setup: Setup, w: World, pairing: Pairing, token: string)
    requires setup.hasKeyring && pairing.deviceId != "" && token != ""
    ensures SaveEffect(setup, w, Save(setup, w, pairing, token).world, pairing, token)
  {
    var kept := KeyringStore(w, pairing.deviceId, token);
    if FateOf(w) == Done {
      SaveFileCases(kept, Stored(pairing, token, true));
    } else if !setup.requireKeyring {
      FileOnlyCases(kept, Stored(pairing, token, false));
    }
  }

  /** A pairing that keeps its token in the file leaves the keyring alone. */
  lemma FileOnlyCases(w: World, pairing: Pairing)
    requires !pairing.tokenInKeyring
    ensures var r := SaveFile(w, pairing);
      && Replaces(w, r.world, SafeFile(pairing))
      && r.world.keyring == w.keyring
  {
    AtomicWriteCases(Spend(w), pairing);
  }

  // ---------------------------------------------------------------------------------------------
  // Crash consistency
  // ---------------------------------------------------------------------------------------------

  /** A pairing without the two fields that say where its token is. */
  function Bare(p: Pairing): Pairing {
    p.(version := VERSION, tokenInKeyring := false, deviceToken := "")
  }

  predicate IsNewPair(found: (Pairing, string), pairing: Pairing, token: string) {
    Bare(found.0) == Bare(pairing) && found.1 == token
  }

  /**
   What a load finds after a `Save` during which anything may have failed, everything stopped, or the system crashed.
   */
  function After(setup: Setup, w: World, pairing: Pairing, token: string, fates: seq<Fate>, crash: Option<nat>,
                 loader: Setup, later: seq<Fate>): Result<(Pairing, string), LoadError> {
    var saved := Save(setup, w.(fates := fates), pairing, token).world;
    Load(loader, (if crash.Some? then Crash(saved, crash.value) else saved).(fates := later)).result
  }

  /** A pair that a load could find before the `Save`, or after a crash before it. */
  predicate Findable(loader: Setup, w: World, found: (Pairing, string)) {
    || PairOf(loader, w.config, w.keyring) == Some(found)
    || exists k :: 0 <= k < |w.earlier| && PairOf(loader, Settled(w.earlier[k]), w.keyring) == Some(found)
  }

  /** It finds a whole old pair, the whole new pair, or an error. */
  predicate Whole(setup: Setup, w: World, pairing: Pairing, token: string, fates: seq<Fate>, crash: Option<nat>,
                  loader: Setup, later: seq<Fate>) {
    var found := After(setup, w, pairing, token, fates, crash, loader, later);
    found.Ok? ==> Findable(loader, w, found.value) || IsNewPair(found.value, pairing, token)
  }

  /**
   The one dangerous situation: a directory entry is paired under the very device identifier being saved, with the token
   in the keyring, and the saved pairing differs both in its fields and in its token.
   */
  predicate OverwritesToken(setup: Setup, entry: Option<Node>, keyring: map<string, string>, pairing: Pairing,
                            token: string) {
    && setup.hasKeyring && pairing.deviceId != "" && token != ""
    && entry.Some? && entry.value.Regular? && entry.value.private && entry.value.content.Encoded?
    && var present := entry.value.content.pairing;
      && Complete(present) && present.tokenInKeyring && present.deviceId == pairing.deviceId
      && Bare(present) != Bare(pairing)
      && !(present.deviceId in keyring && keyring[present.deviceId] == token)
  }

  /** The entry is one that a crash can bring back. */
  predicate OverwritesEarlier(setup: Setup, w: World, pairing: Pairing, token: string) {
    exists k :: 0 <= k < |w.earlier| && OverwritesToken(setup, Settled(w.earlier[k]), w.keyring, pairing, token)
  }

  /** The entry is the present one, or one that a crash can bring back. */
  predicate Overwrites(setup: Setup, w: World, pairing: Pairing, token: string) {
    OverwritesToken(setup, w.config, w.keyring, pairing, token) || OverwritesEarlier(setup, w, pairing, token)
  }

  lemma SettlingKeepsPair(loader: Setup, entry: Option<Node>, keyring: map<string, string>)
    ensures PairOf(loader, Settled(entry), keyring) == PairOf(loader, entry, keyring)
      || PairOf(loader, Settled(entry), keyring) == None
  {
  }

  /** With the keyring that a `Save` leaves, an entry is found as before or as the new pair. */
  lemma EntryStaysWhole(setup: Setup, w: World, after: World, pairing: Pairing, token: string, loader: Setup,
                        entry: Option<Node>)
    requires SaveEffect(setup, w, after, pairing, token)
    requires !OverwritesToken(setup, entry, w.keyring, pairing, token)
    ensures var found := PairOf(loader, entry, after.keyring);
      found.Some? ==> PairOf(loader, entry, w.keyring) == found || IsNewPair(found.value, pairing, token)
  {
  }

  lemma ReplacementIsNew(setup: Setup, w: World, after: World, pairing: Pairing, token: string, loader: Setup)
    requires SaveEffect(setup, w, after, pairing, token)
    requires !(after.config == w.config && after.earlier == w.earlier)
    ensures after.earlier == w.earlier + [w.config]
    ensures var found := PairOf(loader, after.config, after.keyring);
      found.Some? ==> IsNewPair(found.value, pairing, token)
  {
  }

  /** After a `Save` that overwrites no token, what anyone can load is a pair from before or the new one. */
  lemma SaveKeepsPairsWhole(setup: Setup, w: World, pairing: Pairing, token: string, loader: Setup)
    requires !Overwrites(setup, w, pairing, token)
    ensures var after := Save(setup, w, pairing, token).world;
      var found := PairOf(loader, after.config, after.keyring);
      found.Some? ==> PairOf(loader, w.config, w.keyring) == found || IsNewPair(found.value, pairing, token)
  {
    var after := Save(setup, w, pairing, token).world;
    SaveCases(setup, w, pairing, token);
    EntryStaysWhole(setup, w, after, pairing, token, loader, w.config);
    if !(after.config == w.config && after.earlier == w.earlier) {
      ReplacementIsNew(setup, w, after, pairing, token, loader);
    }
  }

  /** The same for each entry that a crash after the `Save`, or in its middle, can bring back. */
  lemma SaveKeepsEarlierWhole(setup: Setup, w: World, pairing: Pairing, token: string, loader: Setup, k: nat)
    requires !Overwrites(setup, w, pairing, token) && k < |Save(setup, w, pairing, token).world.earlier|
    ensures var after := Save(setup, w, pairing, token).world;
      var found := PairOf(loader, Settled(after.earlier[k]), after.keyring);
      found.Some? ==>
        || (k < |w.earlier| && PairOf(loader, Settled(w.earlier[k]), w.keyring) == found)
        || (k == |w.earlier| && PairOf(loader, w.config, w.keyring) == found)
        || IsNewPair(found.value, pairing, token)
  {
    var after := Save(setup, w, pairing, token).world;
    SaveCases(setup, w, pairing, token);
    if k < |w.earlier| {
      assert after.earlier[k] == w.earlier[k];
      assert !OverwritesToken(setup, Settled(w.earlier[k]), w.keyring, pairing, token);
      EntryStaysWhole(setup, w, after, pairing, token, loader, Settled(w.earlier[k]));
    } else {
      assert after.earlier[k] == w.config && k == |w.earlier|;
      EntryStaysWhole(setup, w, after, pairing, token, loader, w.config);
      SettlingKeepsPair(loader, w.config, after.keyring);
    }
  }

  lemma SavedIsWhole(setup: Setup, w: World, pairing: Pairing, token: string, fates: seq<Fate>, crash: Option<nat>,
                     loader: Setup, later: seq<Fate>)
    requires !Overwrites(setup, w, pairing, token)
    ensures Whole(setup, w, pairing, token, fates, crash, loader, later)
  {
    var start := w.(fates := fates);
    var saved := Save(setup, start, pairing, token).world;
    SaveKeepsPairsWhole(setup, start, pairing, token, loader);
    LoadFindsThePair(loader, (if crash.Some? then Crash(saved, crash.value) else saved).(fates := later));
    if crash.Some? {
      if crash.value < |saved.earlier| {
        SaveKeepsEarlierWhole(setup, start, pairing, token, loader, crash.value);
      } else {
        SettlingKeepsPair(loader, saved.config, saved.keyring);
      }
    }
  }

  /** The crash that brings an entry back; none is needed for the present one. */
  predicate Reveals(w: World, crash: Option<nat>, entry: Option<Node>) {
    match crash
    case None => entry == w.config
    case Some(k) => k < |w.earlier| && entry == Settled(w.earlier[k])
  }

  lemma OverwritingCanMix(setup: Setup, w: World, pairing: Pairing, token: string, crash: Option<nat>,
                          entry: Option<Node>)
    requires Reveals(w, crash, entry) && OverwritesToken(setup, entry, w.keyring, pairing, token)
    ensures !Whole(setup, w, pairing, token, [Done], crash, setup, [Done, Done, Done])
  {
    var fates, later := [Done], [Done, Done, Done];
    var saved := Save(setup, w.(fates := fates), pairing, token).world;
    assert fates[1..] == [];
    assert saved == w.(fates := [], keyring := w.keyring[pairing.deviceId := token]);
    var loaded := (if crash.Some? then Crash(saved, crash.value) else saved).(fates := later);
    assert PairOf(setup, loaded.config, loaded.keyring) == Some((entry.value.content.pairing, token));
    LoadFindsThePair(setup, loaded);
  }

  /**
   No failure at any step of `Save`, and no crash, whatever renames and removals it undoes, can make a later load pair
   one pairing's fields with another's token, exactly when `Save` does not overwrite the keyring token of the pairing
   on disk or of one that a crash can bring back.
   */
  lemma NeverMixedExactlyWhen(setup: Setup, w: World, pairing: Pairing, token: string)
    ensures (forall fates, crash, loader, later :: Whole(setup, w, pairing, token, fates, crash, loader, later))
      <==> !Overwrites(setup, w, pairing, token)
  {
    if OverwritesToken(setup, w.config, w.keyring, pairing, token) {
      OverwritingCanMix(setup, w, pairing, token, None, w.config);
      assert !Whole(setup, w, pairing, token, [Done], None, setup, [Done, Done, Done]);
    } else if OverwritesEarlier(setup, w, pairing, token) {
      var k: nat :| k < |w.earlier| && OverwritesToken(setup, Settled(w.earlier[k]), w.keyring, pairing, token);
      OverwritingCanMix(setup, w, pairing, token, Some(k), Settled(w.earlier[k]));
      assert !Whole(setup, w, pairing, token, [Done], Some(k), setup, [Done, Done, Done]);
    } else {
      forall fates, crash, loader, later
        ensures Whole(setup, w, pairing, token, fates, crash, loader, later)
      {
        SavedIsWhole(setup, w, pairing, token, fates, crash, loader, later);
      }
    }
  }

  /** `Exists`, which the `pair` command asks before it enrols and saves. */
  function Exists(w: World): Result<bool, LoadError> {
    if FateOf(w) != Done then Err(NotRead) else Ok(w.config.Some?)
  }

  /**
   Behind the test of the `pair` command, nothing is ever mixed exactly when no crash can bring back a pairing whose
   token is overwritten; with nothing removed or replaced since the last crash, nothing is.
   */
  lemma PairingIsWholeExactlyWhen(setup: Setup, w: World, pairing: Pairing, token: string)
    requires Exists(w) == Ok(false)
    ensures (forall fates, crash, loader, later :: Whole(setup, w, pairing, token, fates, crash, loader, later))
      <==> !OverwritesEarlier(setup, w, pairing, token)
    ensures w.earlier == [] ==> !OverwritesEarlier(setup, w, pairing, token)
  {
    NeverMixedExactlyWhen(setup, w, pairing, token);
  }

  /**
   A successful `Save` is found by every load with a working keyring; a crash takes none of it, if it does not undo the
   rename.
   */
  lemma SavedIsLoaded(setup: Setup, w: World, pairing: Pairing, token: string, crash: Option<nat>, later: seq<Fate>)
    requires Save(setup, w, pairing, token).error.None?
    requires crash.Some? ==> crash.value > |w.earlier|
    requires |later| >= 3 && later[0] == later[1] == later[2] == Done
    ensures var found := After(setup, w, pairing, token, w.fates, crash, setup, later);
      if pairing.webSocketUrl != "" && pairing.localBaseUrl != ""
      then found.Ok? && IsNewPair(found.value, pairing, token) && found.value.0.version == VERSION
      else found == Err(Unsupported)
  {
    var saved := Save(setup, w, pairing, token).world;
    assert w.(fates := w.fates) == w;
    SavedReplaces(setup, w, pairing, token);
    assert Settled(saved.config) == saved.config;
    var loaded := (if crash.Some? then Crash(saved, crash.value) else saved).(fates := later);
    assert loaded.config == saved.config && loaded.keyring == saved.keyring;
    LoadFindsThePair(setup, loaded);
  }

  lemma SavedReplaces(setup: Setup, w: World, pairing: Pairing, token: string)
    requires Save(setup, w, pairing, token).error.None?
    ensures var after := Save(setup, w, pairing, token).world;
      && |after.earlier| <= |w.earlier| + 1
      && (after.config == NewFile(pairing, token, false)
          || (setup.hasKeyring && after.config == NewFile(pairing, token, true)
              && pairing.deviceId in after.keyring && after.keyring[pairing.deviceId] == token))
  {
    if setup.hasKeyring {
      var kept := KeyringStore(w, pairing.deviceId, token);
      SaveFileCases(kept, Stored(pairing, token, true));
      SaveFileCases(kept, Stored(pairing, token, false));
    } else {
      SaveFileCases(w, Stored(pairing, token, false));
    }
  }

  /** A crash that undoes the rename of a first successful `Save` leaves nothing to load. */
  lemma SavedCanBeLost(setup: Setup, w: World, pairing: Pairing, token: string, loader: Setup, later: seq<Fate>)
    requires w.config.None? && Save(setup, w, pairing, token).error.None?
    ensures After(setup, w, pairing, token, w.fates, Some(|w.earlier|), loader, later) == Err(NoFile)
  {
    assert w.(fates := w.fates) == w;
    SaveCases(setup, w, pairing, token);
    SavedReplaces(setup, w, pairing, token);
  }
}
