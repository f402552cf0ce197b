/** The store as an object: the operations carried out one by one on the file system and the keyring. */
module PairingStore {
  import opened Wrappers
  import opened Storage

  class Store {
    const setup: Setup
    var config: Option<Node>
    var earlier: seq<Option<Node>>
    const createsPrivate: bool
    var temporary: Option<Node>
    var status: Option<Node>
    var keyring: map<string, string>
    var fates: seq<Fate>

    constructor (setup: Setup, w: World)
      ensures this.setup == setup && Snapshot() == w
    {
      this.setup, createsPrivate := setup, w.createsPrivate;
      config, earlier, temporary, status := w.config, w.earlier, w.temporary, w.status;
      keyring, fates := w.keyring, w.fates;
    }

    function Snapshot(): World
      reads this
    {
      World(config, earlier, temporary, status, keyring, createsPrivate, fates)
    }

    /** The fate of the next operation. */
    method Next() returns (fate: Fate)
      modifies this`fates
      ensures fate == FateOf(old(Snapshot())) && Snapshot() == Spend(old(Snapshot()))
    {
      if |fates| == 0 {
        return Refused;
      }
      fate := fates[0];
      fates := fates[1..];
    }

    method RenameTemporary() returns (failed: Option<Step>)
      modifies this`config, this`earlier, this`temporary, this`fates
      ensures Written(failed, Snapshot()) == RenameOver(old(Snapshot()))
    {
      var renamed := Next();
      var present := temporary.Some?;
      if TakesEffect(renamed) && present {
        config, earlier, temporary := temporary, earlier + [config], None;
      }
      if renamed != Done || !present {
        return Some(Renaming);
      }
      var chmod := Next();
      if TakesEffect(chmod) {
        config := Private(config);
      }
      return if chmod == Done then None else Some(ChmodConfig);
    }

    method FillTemporary(pairing: Pairing) returns (failed: Option<Step>)
      modifies this`config, this`earlier, this`temporary, this`fates
      ensures Written(failed, Snapshot()) == FillAndRename(old(Snapshot()), pairing)
    {
      var chmod := Next();
      if TakesEffect(chmod) {
        temporary := Private(temporary);
      }
      if chmod != Done {
        return Some(ChmodTemporary);
      }
      var write := Next();
      if TakesEffect(write) {
        temporary := Holding(temporary, Encoded(pairing));
      }
      if write != Done {
        return Some(WriteAll);
      }
      var sync := Next();
      if TakesEffect(sync) {
        temporary := Durable(temporary);
      }
      if sync != Done {
        return Some(Sync);
      }
      var close := Next();
      if close != Done {
        return Some(CloseFile);
      }
      failed := RenameTemporary();
    }

    method AtomicWrite(pairing: Pairing) returns (failed: Option<Step>)
      modifies this`config, this`earlier, this`temporary, this`fates
      ensures Written(failed, Snapshot()) == Storage.AtomicWrite(old(Snapshot()), pairing)
    {
      var directory := Next();
      if directory != Done {
        return Some(Directory);
      }
      var stat := Next();
      if stat == Done && config == Some(Symlink) {
        return Some(SymlinkFound);
      } else if stat != Done {
        return Some(Stat);
      }
      var create := Next();
      if TakesEffect(create) {
        temporary := Some(Regular(Garbage, createsPrivate, false));
      }
      if create != Done {
        return Some(Creating);
      }
      failed := FillTemporary(pairing);
      var removal := Next();
      if TakesEffect(removal) {
        temporary := None;
      }
    }

    method StoreInKeyring(deviceId: string, token: string) returns (ok: bool)
      modifies this`keyring, this`fates
      ensures ok == (FateOf(old(Snapshot())) == Done) && Snapshot() == KeyringStore(old(Snapshot()), deviceId, token)
    {
      var fate := Next();
      if TakesEffect(fate) {
        keyring := keyring[deviceId := token];
      }
      ok := fate == Done;
    }

    method DeleteFromKeyring(deviceId: string)
      modifies this`keyring, this`fates
      ensures Snapshot() == KeyringDelete(old(Snapshot()), deviceId)
    {
      var fate := Next();
      if TakesEffect(fate) {
        keyring := keyring - {deviceId};
      }
    }

    /** The fields of the caller's copy are set first; then the keyring is tried, then the file is written. */
    method Save(pairing: Pairing, token: string) returns (error: Option<SaveError>)
      modifies this
      ensures Saved(error, Snapshot()) == Storage.Save(setup, old(Snapshot()), pairing, token)
    {
      if pairing.deviceId == "" || token == "" {
        return Some(Incomplete);
      }
      var state := pairing.(version := VERSION, deviceToken := "", tokenInKeyring := false);
      var stored := false;
      if setup.hasKeyring {
        stored := StoreInKeyring(state.deviceId, token);
      }
      if setup.hasKeyring && stored {
        state := state.(tokenInKeyring := true);
      } else if setup.requireKeyring {
        return Some(KeyringRefused);
      } else {
        state := state.(deviceToken := token);
      }
      error := WriteState(state);
    }

    method WriteState(state: Pairing) returns (error: Option<SaveError>)
      requires state.tokenInKeyring ==> setup.hasKeyring
      modifies this
      ensures Saved(error, Snapshot()) == SaveFile(old(Snapshot()), state)
    {
      var encoded := Next();
      if encoded != Done {
        return Some(NotEncoded);
      }
      var failed := AtomicWrite(state);
      if failed.Some? {
        if state.tokenInKeyring && setup.hasKeyring {
          DeleteFromKeyring(state.deviceId);
        }
        return Some(NotWritten(failed.value));
      }
      error := None;
    }

    method Load() returns (r: Result<(Pairing, string), LoadError>)
      modifies this`fates
      ensures Loaded(r, Snapshot()) == Storage.Load(setup, old(Snapshot()))
    {
      var stat := Next();
      if stat != Done || config.None? {
        return Err(NoFile);
      }
      if !config.value.Regular? {
        return Err(NotRegular);
      }
      if !config.value.private {
        return Err(NotPrivate);
      }
      var read := Next();
      if read != Done {
        return Err(NotRead);
      }
      r := Decode(config.value.content);
    }

    method Decode(content: Content) returns (r: Result<(Pairing, string), LoadError>)
      modifies this`fates
      ensures Loaded(r, Snapshot()) == LoadDecoded(setup, old(Snapshot()), content)
    {
      if content.Garbage? {
        return Err(NotDecoded);
      }
      var state := content.pairing;
      if state.version != VERSION || state.deviceId == "" || state.webSocketUrl == "" || state.localBaseUrl == "" {
        return Err(Unsupported);
      }
      if state.tokenInKeyring {
        if !setup.hasKeyring {
          return Err(NoKeyring);
        }
        var lookup := Next();
        if lookup == Done && state.deviceId in keyring {
          return Ok((state, keyring[state.deviceId]));
        }
        return Err(KeyringFailed);
      }
      if state.deviceToken == "" {
        return Err(NoToken);
      }
      return Ok((state, state.deviceToken));
    }

    /** `Lstat`, the symbolic link test and `Remove`, of the configuration or of the status file. */
    method Remove(isConfig: bool) returns (error: Option<DeleteError>)
      modifies this`config, this`earlier, this`status, this`fates
      ensures var before := old(Snapshot());
        var r := RemoveNode(if isConfig then before.config else before.status, before.fates);
        && error == r.error
        && Snapshot() == (if !isConfig then before.(status := r.node)
                          else if r.node == before.config then before
                          else Replace(before, r.node)).(fates := r.fates)
    {
      var node := if isConfig then config else status;
      var stat := Next();
      if stat != Done {
        return Some(StatFailed);
      }
      if node.None? {
        return None;
      }
      if node.value.Symlink? {
        return Some(SymlinkRefused);
      }
      var removal := Next();
      if TakesEffect(removal) {
        if isConfig {
          config, earlier := None, earlier + [config];
        } else {
          status := None;
        }
      }
      return if removal == Done then None else Some(RemoveFailed);
    }

    method Delete() returns (error: Option<DeleteError>)
      modifies this
      ensures Deleted(error, Snapshot()) == Storage.Delete(setup, old(Snapshot()))
    {
      var loaded := Load();
      if loaded.Ok? && loaded.value.0.tokenInKeyring && setup.hasKeyring {
        DeleteFromKeyring(loaded.value.0.deviceId);
      }
      ghost var before := Snapshot();
      ghost var first := RemoveNode(before.config, before.fates);
      ghost var after := if first.node == before.config then before else Replace(before, first.node);
      ghost var second := RemoveNode(before.status, first.fates);
      var isConfig := [true, false];
      for i := 0 to |isConfig|
        invariant i == 0 ==> Snapshot() == before
        invariant i >= 1 ==> first.error.None?
        invariant i == 1 ==> Snapshot() == after.(fates := first.fates)
        invariant i == 2 ==> second.error.None? && Snapshot() == after.(status := second.node, fates := second.fates)
      {
        error := Remove(isConfig[i]);
        if error.Some? {
          return;
        }
      }
      error := None;
    }
  }
}
