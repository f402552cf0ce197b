/**
 What the pairing store does to the file system and the keyring, operation by operation. The environment decides the
 fate of every operation. Stopping in the middle is the same as every later operation being refused. A crash moreover
 takes the contents of files that have not been synced, and may undo renames and removals, since the directory never is.
 */
module Storage {
  import opened Wrappers

  const VERSION := 1

  datatype Pairing = Pairing(
    version: int, schoolOrigin: string, deviceId: string, deviceName: string,
    webSocketUrl: string, localBaseUrl: string, pairedAt: int,
    tokenInKeyring: bool, deviceToken: string)

  /** A file's bytes: the complete encoding of a pairing, or anything that does not decode to one. */
  datatype Content = Encoded(pairing: Pairing) | Garbage

  /** A regular file is private if only its owner may use it, and durable if a crash does not take its contents. */
  datatype Node = Regular(content: Content, private: bool, durable: bool) | Symlink | Irregular

  /** Done; refused without effect; or carried out although an error is reported. */
  datatype Fate = Done | Refused | Botched

  /**
   The earlier entries are what the directory has held, since the last crash, in the place of the configuration; a crash
   may bring any of them back. Nothing is taken for granted about the mode in which a temporary file is created.
   */
  datatype World = World(
    config: Option<Node>, earlier: seq<Option<Node>>, temporary: Option<Node>, status: Option<Node>,
    keyring: map<string, string>, createsPrivate: bool, fates: seq<Fate>)

  datatype Setup = Setup(hasKeyring: bool, requireKeyring: bool)

  datatype SaveError = Incomplete | KeyringRefused | NotEncoded | NotWritten(step: Step)

  datatype Step =
    | Directory | Stat | SymlinkFound | Creating | ChmodTemporary | WriteAll | Sync | CloseFile | Renaming | ChmodConfig

  datatype LoadError =
    | NoFile | NotRegular | NotPrivate | NotRead | NotDecoded | Unsupported | NoKeyring | KeyringFailed | NoToken

  datatype DeleteError = SymlinkRefused | StatFailed | RemoveFailed

  function FateOf(w: World): Fate {
    if |w.fates| == 0 then Refused else w.fates[0]
  }

  function Spend(w: World): World {
    if |w.fates| == 0 then w else w.(fates := w.fates[1..])
  }

  predicate TakesEffect(fate: Fate) {
    fate != Refused
  }

  // ---------------------------------------------------------------------------------------------
  // Save
  // ---------------------------------------------------------------------------------------------

  datatype Written = Written(failed: Option<Step>, world: World)

  /** `atomicWrite` of the configuration. */
  function AtomicWrite(w: World, pairing: Pairing): Written {
    if FateOf(w) != Done then Written(Some(Directory), Spend(w))
    else
      var w1 := Spend(w);
      if w1.config == Some(Symlink) && FateOf(w1) == Done then Written(Some(SymlinkFound), Spend(w1))
      else if FateOf(w1) != Done then Written(Some(Stat), Spend(w1))
      else
        var w2 := Spend(w1);
        if FateOf(w2) != Done then Written(Some(Creating), Create(w2))
        else
          var r := FillAndRename(Create(w2), pairing);
          Written(r.failed, RemoveTemporary(r.world))
  }

  function Create(w: World): World {
    Spend(w).(temporary := if TakesEffect(FateOf(w)) then Some(Regular(Garbage, w.createsPrivate, false))
                           else w.temporary)
  }

  /** The deferred removal; after a successful rename it finds nothing. */
  function RemoveTemporary(w: World): World {
    Spend(w).(temporary := if TakesEffect(FateOf(w)) then None else w.temporary)
  }

  /**
   The temporary file is made private, filled, synced and closed, renamed over the configuration, and that made
   private.
   */
  function FillAndRename(w: World, pairing: Pairing): Written {
    var w1 := MakeTemporaryPrivate(w);
    if FateOf(w) != Done then Written(Some(ChmodTemporary), w1)
    else
      var w2 := Fill(w1, pairing);
      if FateOf(w1) != Done then Written(Some(WriteAll), w2) else SyncAndRename(w2)
  }

  function SyncAndRename(w: World): Written {
    var w1 := SyncTemporary(w);
    if FateOf(w) != Done then Written(Some(Sync), w1)
    else if FateOf(w1) != Done then Written(Some(CloseFile), Spend(w1))
    else RenameOver(Spend(w1))
  }

  function Private(node: Option<Node>): Option<Node> {
    if node.Some? && node.value.Regular? then Some(node.value.(private := true)) else node
  }

  function Holding(node: Option<Node>, content: Content): Option<Node> {
    if node.Some? && node.value.Regular? then Some(node.value.(content := content, durable := false)) else node
  }

  function Durable(node: Option<Node>): Option<Node> {
    if node.Some? && node.value.Regular? then Some(node.value.(durable := true)) else node
  }

  function MakeTemporaryPrivate(w: World): World {
    Spend(w).(temporary := if TakesEffect(FateOf(w)) then Private(w.temporary) else w.temporary)
  }

  function Fill(w: World, pairing: Pairing): World {
    Spend(w).(temporary := if TakesEffect(FateOf(w)) then Holding(w.temporary, Encoded(pairing)) else w.temporary)
  }

  function SyncTemporary(w: World): World {
    Spend(w).(temporary := if TakesEffect(FateOf(w)) then Durable(w.temporary) else w.temporary)
  }

  /** Another entry in the place of the configuration. */
  function Replace(w: World, node: Option<Node>): World {
    w.(config := node, earlier := w.earlier + [w.config])
  }

  /** The temporary file, such as it is, becomes the configuration. */
  function Rename(w: World): World {
    if TakesEffect(FateOf(w)) && w.temporary.Some? then Replace(Spend(w), w.temporary).(temporary := None) else Spend(w)
  }

  function MakeConfigPrivate(w: World): World {
    Spend(w).(config := if TakesEffect(FateOf(w)) then Private(w.config) else w.config)
  }

  function RenameOver(w: World): Written {
    var renamed := Rename(w);
    if FateOf(w) != Done || w.temporary.None? then Written(Some(Renaming), renamed)
    else Written(if FateOf(renamed) == Done then None else Some(ChmodConfig), MakeConfigPrivate(renamed))
  }

  /** A crash takes the contents of what has not been synced. */
  function Settled(node: Option<Node>): Option<Node> {
    if node.Some? && node.value.Regular? && !node.value.durable then Some(node.value.(content := Garbage)) else node
  }

  /** The entry that a crash leaves: one of the earlier ones, or the last. */
  function Survivor(w: World, k: nat): Option<Node> {
    if k < |w.earlier| then w.earlier[k] else w.config
  }

  function Crash(w: World, k: nat): World {
    w.(config := Settled(Survivor(w, k)), earlier := [], temporary := Settled(w.temporary), status := Settled(w.status))
  }

  /** What a successful keyring store, or the fallback to the file, makes of a pairing. */
  function Stored(pairing: Pairing, token: string, inKeyring: bool): Pairing {
    pairing.(version := VERSION, tokenInKeyring := inKeyring, deviceToken := if inKeyring then "" else token)
  }

  function KeyringStore(w: World, deviceId: string, token: string): World {
    Spend(w).(keyring := if TakesEffect(FateOf(w)) then w.keyring[deviceId := token] else w.keyring)
  }

  function KeyringDelete(w: World, deviceId: string): World {
    Spend(w).(keyring := if TakesEffect(FateOf(w)) then w.keyring - {deviceId} else w.keyring)
  }

  datatype Saved = Saved(error: Option<SaveError>, world: World)

  function Save(setup: Setup, w: World, pairing: Pairing, token: string): Saved {
    if pairing.deviceId == "" || token == "" then Saved(Some(Incomplete), w)
    else if setup.hasKeyring then
      var kept := KeyringStore(w, pairing.deviceId, token);
      if FateOf(w) == Done then SaveFile(kept, Stored(pairing, token, true))
      else if setup.requireKeyring then Saved(Some(KeyringRefused), kept)
      else SaveFile(kept, Stored(pairing, token, false))
    else if setup.requireKeyring then Saved(Some(KeyringRefused), w)
    else SaveFile(w, Stored(pairing, token, false))
  }

  function SaveFile(w: World, pairing: Pairing): Saved {
    if FateOf(w) != Done then Saved(Some(NotEncoded), Spend(w)) else AfterWrite(AtomicWrite(Spend(w), pairing), pairing)
  }

  /** A keyring entry made for a file that could not be written is taken back. */
  function AfterWrite(r: Written, pairing: Pairing): Saved {
    if r.failed.None? then Saved(None, r.world)
    else Saved(Some(NotWritten(r.failed.value)),
               if pairing.tokenInKeyring then KeyringDelete(r.world, pairing.deviceId) else r.world)
  }

  // ---------------------------------------------------------------------------------------------
  // Load and Delete
  // ---------------------------------------------------------------------------------------------

  datatype Loaded = Loaded(result: Result<(Pairing, string), LoadError>, world: World)

  predicate Complete(p: Pairing) {
    p.version == VERSION && p.deviceId != "" && p.webSocketUrl != "" && p.localBaseUrl != ""
  }

  function Load(setup: Setup, w: World): Loaded {
    if FateOf(w) != Done || w.config.None? then Loaded(Err(NoFile), Spend(w))
    else if !w.config.value.Regular? then Loaded(Err(NotRegular), Spend(w))
    else if !w.config.value.private then Loaded(Err(NotPrivate), Spend(w))
    else
      var w1 := Spend(w);
      if FateOf(w1) != Done then Loaded(Err(NotRead), Spend(w1))
      else LoadDecoded(setup, Spend(w1), w.config.value.content)
  }

  function LoadDecoded(setup: Setup, w: World, content: Content): Loaded {
    if content.Garbage? then Loaded(Err(NotDecoded), w)
    else
      var p := content.pairing;
      if !Complete(p) then Loaded(Err(Unsupported), w)
      else if p.tokenInKeyring then
        if !setup.hasKeyring then Loaded(Err(NoKeyring), w)
        else if FateOf(w) == Done && p.deviceId in w.keyring then Loaded(Ok((p, w.keyring[p.deviceId])), Spend(w))
        else Loaded(Err(KeyringFailed), Spend(w))
      else if p.deviceToken == "" then Loaded(Err(NoToken), w)
      else Loaded(Ok((p, p.deviceToken)), w)
  }

  datatype Removed = Removed(error: Option<DeleteError>, node: Option<Node>, fates: seq<Fate>)

  /** `Lstat` and `Remove` of one file. */
  function RemoveNode(node: Option<Node>, fates: seq<Fate>): Removed {
    var stat := if |fates| == 0 then Refused else fates[0];
    var rest := if |fates| == 0 then fates else fates[1..];
    if stat != Done then Removed(Some(StatFailed), node, rest)
    else if node.None? then Removed(None, node, rest)
    else if node.value.Symlink? then Removed(Some(SymlinkRefused), node, rest)
    else
      var removal := if |rest| == 0 then Refused else rest[0];
      var rest' := if |rest| == 0 then rest else rest[1..];
      Removed(if removal == Done then None else Some(RemoveFailed), if TakesEffect(removal) then None else node, rest')
  }

  datatype Deleted = Deleted(error: Option<DeleteError>, world: World)

  function Delete(setup: Setup, w: World): Deleted {
    var l := Load(setup, w);
    var w1 := if l.result.Ok? && l.result.value.0.tokenInKeyring && setup.hasKeyring
              then KeyringDelete(l.world, l.result.value.0.deviceId) else l.world;
    var r := RemoveNode(w1.config, w1.fates);
    var w2 := (if r.node == w1.config then w1 else Replace(w1, r.node)).(fates := r.fates);
    if r.error.Some? then Deleted(r.error, w2)
    else
      var q := RemoveNode(w2.status, w2.fates);
      Deleted(q.error, w2.(status := q.node, fates := q.fates))
  }
}
