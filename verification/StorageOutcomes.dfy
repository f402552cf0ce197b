/**
 How the operations of the store end: exactly when each of them succeeds, with which error it fails otherwise, and where
 the token is then.
 */
module StorageOutcomes {
  import opened Wrappers
  import opened Storage
  import opened StorageProofs
  import opened StorageFailures

  // ---------------------------------------------------------------------------------------------
  // Save
  // ---------------------------------------------------------------------------------------------

  lemma SymlinkIsRefused(w: World, pairing: Pairing)
    requires w.config == Some(Symlink)
    ensures SaveFile(w, pairing).error.Some? && SaveFile(w, pairing).error != Some(Incomplete)
    ensures SaveFile(w, pairing).error != Some(KeyringRefused) && SaveFile(w, pairing).world.config == w.config
    ensures FirstFailure(w.fates) >= 3 ==> SaveFile(w, pairing).error == Some(NotWritten(SymlinkFound))
  {
    SpendDrops(w);
    SpendDrops(Spend(w));
    SpendDrops(Spend(Spend(w)));
  }

  /** The file is written exactly when the encoding and the nine operations of `atomicWrite` succeed. */
  lemma FileIsWrittenExactlyWhen(w: World, pairing: Pairing)
    ensures SaveFile(w, pairing).error.None? <==> w.config != Some(Symlink) && FirstFailure(w.fates) >= 10
    ensures var error := SaveFile(w, pairing).error; error != Some(Incomplete) && error != Some(KeyringRefused)
  {
    if w.config == Some(Symlink) {
      SymlinkIsRefused(w, pairing);
    } else {
      SaveFileByFailure(w, pairing);
    }
  }

  /**
   A `Save` succeeds exactly when device identifier and token are there, the keyring took the token if it is required,
   and all of the encoding and the nine operations of `atomicWrite` succeed. Then the keyring holds the token if it took
   it, and the file holds it if not.
   */
  lemma SaveSucceedsExactlyWhen(setup: Setup, w: World, pairing: Pairing, token: string)
    ensures var r, inKeyring := Save(setup, w, pairing, token), setup.hasKeyring && FateOf(w) == Done;
      && (r.error.None? <==>
            && pairing.deviceId != "" && token != ""
            && (setup.requireKeyring ==> inKeyring)
            && w.config != Some(Symlink) && FirstFailure(WriteFates(setup, w)) >= 10)
      && (r.error == Some(Incomplete) <==> pairing.deviceId == "" || token == "")
      && (r.error == Some(KeyringRefused) <==>
            pairing.deviceId != "" && token != "" && setup.requireKeyring && !inKeyring)
      && (r.error.None? ==>
            && r.world.config == NewFile(pairing, token, inKeyring)
            && (inKeyring ==> r.world.keyring == w.keyring[pairing.deviceId := token]))
  {
    if pairing.deviceId != "" && token != "" && !GivesUp(setup, w) {
      var start := if setup.hasKeyring then KeyringStore(w, pairing.deviceId, token) else w;
      SpendDrops(w);
      FileIsWrittenExactlyWhen(start, Stored(pairing, token, StoresToken(setup, w)));
      SaveFileCases(start, Stored(pairing, token, StoresToken(setup, w)));
    }
  }

  /** The file does not hold a token. */
  predicate IsTokenFree(node: Option<Node>) {
    node.Some? && node.value.Regular? && node.value.content.Encoded? ==> node.value.content.pairing.deviceToken == ""
  }

  /** Whatever fails, neither the configuration nor the temporary file comes to hold another token than it did. */
  predicate KeepsTokenFree(before: World, after: World) {
    && (after.config == before.config || IsTokenFree(after.config))
    && (IsTokenFree(before.temporary) ==> IsTokenFree(after.temporary))
  }

  lemma RenameKeepsTokenFree(w: World)
    requires IsTokenFree(w.temporary)
    ensures KeepsTokenFree(w, RenameOver(w).world)
  {
  }

  lemma FillKeepsTokenFree(w: World, pairing: Pairing)
    requires IsTokenFree(w.temporary) && pairing.deviceToken == ""
    ensures KeepsTokenFree(w, FillAndRename(w, pairing).world)
  {
    var w1 := MakeTemporaryPrivate(w);
    SyncKeepsTokenFree(Fill(w1, pairing));
    assert IsTokenFree(w1.temporary) && IsTokenFree(Fill(w1, pairing).temporary);
    assert w1.config == w.config && Fill(w1, pairing).config == w.config;
  }

  lemma SyncKeepsTokenFree(w: World)
    requires IsTokenFree(w.temporary)
    ensures KeepsTokenFree(w, SyncAndRename(w).world)
  {
    RenameKeepsTokenFree(Spend(SyncTemporary(w)));
  }

  lemma WriteKeepsTokenFree(w: World, pairing: Pairing)
    requires pairing.deviceToken == ""
    ensures KeepsTokenFree(w, AtomicWrite(w, pairing).world)
  {
    var start := Spend(Spend(w));
    if FateOf(start) == Done {
      FillKeepsTokenFree(Create(start), pairing);
    }
  }

  /** With a required keyring the token never reaches the disk, whatever fails. */
  lemma RequiredKeyringKeepsTokenOffDisk(setup: Setup, w: World, pairing: Pairing, token: string)
    requires setup.requireKeyring
    ensures KeepsTokenFree(w, Save(setup, w, pairing, token).world)
  {
    if setup.hasKeyring {
      var kept := KeyringStore(w, pairing.deviceId, token);
      WriteKeepsTokenFree(Spend(kept), Stored(pairing, token, true));
    }
  }

  // ---------------------------------------------------------------------------------------------
  // Load
  // ---------------------------------------------------------------------------------------------

  /** The file is there, regular and private, and can be read. */
  predicate IsRead(w: World) {
    && FateAt(w.fates, 0) == Done && FateAt(w.fates, 1) == Done
    && w.config.Some? && w.config.value.Regular? && w.config.value.private
  }

  /** And it holds a pairing of version 1 with its identifier and both URLs. */
  predicate IsSupported(w: World) {
    && IsRead(w) && w.config.value.content.Encoded?
    && var p := w.config.value.content.pairing;
      p.version == 1 && p.deviceId != "" && p.webSocketUrl != "" && p.localBaseUrl != ""
  }

  /** Every way in which a `Load` ends, exactly for its reason. */
  lemma LoadEndsExactly(setup: Setup, w: World)
    ensures var r := Load(setup, w).result;
      var stat := FateAt(w.fates, 0) == Done;
      && (r == Err(NoFile) <==> !stat || w.config == None)
      && (r == Err(NotRegular) <==> stat && w.config.Some? && !w.config.value.Regular?)
      && (r == Err(NotPrivate) <==> stat && w.config.Some? && w.config.value.Regular? && !w.config.value.private)
      && (r == Err(NotRead) <==>
            && stat && FateAt(w.fates, 1) != Done
            && w.config.Some? && w.config.value.Regular? && w.config.value.private)
      && (r == Err(NotDecoded) <==> IsRead(w) && w.config.value.content.Garbage?)
      && (r == Err(Unsupported) <==> IsRead(w) && w.config.value.content.Encoded? && !IsSupported(w))
      && (IsSupported(w) ==>
            var p := w.config.value.content.pairing;
            r == if !p.tokenInKeyring then (if p.deviceToken == "" then Err(NoToken) else Ok((p, p.deviceToken)))
                 else if !setup.hasKeyring then Err(NoKeyring)
                 else if FateAt(w.fates, 2) == Done && p.deviceId in w.keyring then Ok((p, w.keyring[p.deviceId]))
                 else Err(KeyringFailed))
  {
    SpendDrops(w);
    SpendDrops(Spend(w));
    DropSum(w.fates, 1, 1);
    FateAfter(w.fates, 1, Spend(w));
    FateAfter(w.fates, 2, Spend(Spend(w)));
  }

  // ---------------------------------------------------------------------------------------------
  // Delete
  // ---------------------------------------------------------------------------------------------

  /** How the removal of one file ends, and whether the file is then gone. */
  lemma RemovalEndsExactly(node: Option<Node>, fates: seq<Fate>)
    ensures var r := RemoveNode(node, fates);
      var stat := FateAt(fates, 0) == Done;
      var present := node.Some? && node != Some(Symlink);
      && (r.error == Some(StatFailed) <==> !stat)
      && (r.error == Some(SymlinkRefused) <==> stat && node == Some(Symlink))
      && (r.error == Some(RemoveFailed) <==> stat && present && FateAt(fates, 1) != Done)
      && (r.error == None <==> stat && (node == None || (present && FateAt(fates, 1) == Done)))
      && r.node == (if stat && present && FateAt(fates, 1) != Refused then None else node)
      && r.fates == Drop(fates, if stat && present then 2 else 1)
  {
  }

  predicate AllDone(fates: seq<Fate>) {
    forall i :: 0 <= i < |fates| ==> fates[i] == Done
  }

  /**
   In an obliging environment `Delete` succeeds exactly when neither file is a symbolic link, and a missing file is no
   obstacle. A symbolic link stays, with it the files after it; the files before it are removed. The keyring loses the
   entry of the pairing, if there was one to be loaded, in any case.
   */
  lemma DeleteSucceedsExactlyWhen(setup: Setup, w: World)
    requires AllDone(w.fates) && |w.fates| >= 8
    ensures var r, found := Delete(setup, w), PairOf(setup, w.config, w.keyring);
      && (r.error == None <==> w.config != Some(Symlink) && w.status != Some(Symlink))
      && (r.error == None || r.error == Some(SymlinkRefused))
      && r.world.config == (if w.config == Some(Symlink) then w.config else None)
      && r.world.status == (if w.config == Some(Symlink) || w.status == Some(Symlink) then w.status else None)
      && r.world.keyring == if found.Some? && found.value.0.tokenInKeyring then w.keyring - {found.value.0.deviceId}
                            else w.keyring
  {
    LoadFindsThePair(setup, w);
    DoneAfterLoad(setup, w);
    var loaded := Load(setup, w);
    var clears := loaded.result.Ok? && loaded.result.value.0.tokenInKeyring && setup.hasKeyring;
    var start := if clears then KeyringDelete(loaded.world, loaded.result.value.0.deviceId) else loaded.world;
    RemovalsWhenDone(start);
  }

  /** The two removals, when nothing fails. */
  lemma RemovalsWhenDone(w: World)
    requires AllDone(w.fates) && |w.fates| >= 4
    ensures var first := RemoveNode(w.config, w.fates);
      var second := RemoveNode(w.status, first.fates);
      && (first.error == if w.config == Some(Symlink) then Some(SymlinkRefused) else None)
      && (second.error == if w.status == Some(Symlink) then Some(SymlinkRefused) else None)
      && first.node == (if w.config == Some(Symlink) then w.config else None)
      && second.node == (if w.status == Some(Symlink) then w.status else None)
  {
    RemovalEndsExactly(w.config, w.fates);
    RemovalEndsExactly(w.status, RemoveNode(w.config, w.fates).fates);
  }

  lemma DoneAfterLoad(setup: Setup, w: World)
    requires AllDone(w.fates) && |w.fates| >= 8
    ensures var l := Load(setup, w).world; AllDone(l.fates) && |l.fates| >= 5 && l == w.(fates := l.fates)
  {
  }

  /** The status file goes only after the configuration is gone, whatever fails. */
  lemma StatusGoesLast(setup: Setup, w: World)
    ensures var after := Delete(setup, w).world; after.status != w.status ==> after.config == None
  {
  }
}
