/** What sequences of store operations keep, and where the pair that is loaded comes from. */
module StorageHistory {
  import opened Wrappers
  import opened Storage
  import opened StorageProofs

  datatype Command =
    | DoSave(setup: Setup, pairing: Pairing, token: string, fates: seq<Fate>)
    | DoLoad(setup: Setup, fates: seq<Fate>)
    | DoDelete(setup: Setup, fates: seq<Fate>)
    | DoCrash(undone: nat)

  function Perform(w: World, c: Command): World {
    match c
    case DoSave(setup, pairing, token, fates) => Save(setup, w.(fates := fates), pairing, token).world
    case DoLoad(setup, fates) => Load(setup, w.(fates := fates)).world
    case DoDelete(setup, fates) => Delete(setup, w.(fates := fates)).world
    case DoCrash(k) => Crash(w, k)
  }

  function PerformAll(w: World, commands: seq<Command>): World {
    if |commands| == 0 then w else Perform(PerformAll(w, commands[..|commands| - 1]), commands[|commands| - 1])
  }

  /** The configuration is missing, or a private, complete and durable file whose token is in exactly one place. */
  predicate OwnFile(config: Option<Node>) {
    config.Some? ==>
      && config.value.Regular? && config.value.private && config.value.durable && config.value.content.Encoded?
      && var p := config.value.content.pairing;
        p.version == VERSION && p.deviceId != "" && (p.tokenInKeyring <==> p.deviceToken == "")
  }

  /** So are all entries that a crash can bring back. */
  predicate OwnFiles(w: World) {
    OwnFile(w.config) && forall k :: 0 <= k < |w.earlier| ==> OwnFile(w.earlier[k])
  }

  lemma PerformKeepsOwnFiles(w: World, c: Command)
    requires OwnFiles(w)
    ensures OwnFiles(Perform(w, c))
  {
    match c
    case DoSave(setup, pairing, token, fates) => SaveKeepsOwnFiles(setup, w.(fates := fates), pairing, token);
    case DoLoad(setup, fates) => LoadChangesNothing(setup, w.(fates := fates));
    case DoDelete(setup, fates) => DeleteKeepsOrRemoves(setup, w.(fates := fates));
    case DoCrash(k) => assert Settled(Survivor(w, k)) == Survivor(w, k);
  }

  lemma SaveKeepsOwnFiles(setup: Setup, w: World, pairing: Pairing, token: string)
    requires OwnFiles(w)
    ensures OwnFiles(Save(setup, w, pairing, token).world)
  {
    SaveCases(setup, w, pairing, token);
  }

  lemma LoadChangesNothing(setup: Setup, w: World)
    ensures Load(setup, w).world.(fates := w.fates) == w
  {
  }

  lemma DeleteKeepsOrRemoves(setup: Setup, w: World)
    ensures Replaces(w, Delete(setup, w).world, None)
  {
    LoadChangesNothing(setup, w);
  }

  /**
   Over any sequence of operations with any failures and crashes, whatever the crashes undo, the file that is found is
   never partly written.
   */
  lemma {:induction false} OperationsKeepOwnFile(w: World, commands: seq<Command>)
    requires OwnFiles(w)
    ensures OwnFiles(PerformAll(w, commands))
  {
    if |commands| == 0 {
    } else {
      OperationsKeepOwnFile(w, commands[..|commands| - 1]);
      PerformKeepsOwnFiles(PerformAll(w, commands[..|commands| - 1]), commands[|commands| - 1]);
    }
  }

  // ---------------------------------------------------------------------------------------------
  // Where a loaded pair comes from
  // ---------------------------------------------------------------------------------------------

  predicate FromOneSave(found: (Pairing, string), commands: seq<Command>) {
    exists k :: 0 <= k < |commands| && commands[k].DoSave? && IsNewPair(found, commands[k].pairing, commands[k].token)
  }

  /** Whatever can be loaded, in whatever setup and after whatever crash, was saved by one command. */
  ghost predicate Traced(w: World, commands: seq<Command>) {
    && (forall loader: Setup :: Traceable(PairOf(loader, w.config, w.keyring), commands))
    && (forall loader: Setup, k :: 0 <= k < |w.earlier| ==>
          Traceable(PairOf(loader, Settled(w.earlier[k]), w.keyring), commands))
  }

  predicate Traceable(found: Option<(Pairing, string)>, commands: seq<Command>) {
    found.Some? ==> FromOneSave(found.value, commands)
  }

  /** No save overwrites the token of the pairing it finds, or of one that a crash can bring back at that time. */
  predicate Careful(w: World, commands: seq<Command>) {
    |commands| == 0
    || (var front, last := commands[..|commands| - 1], commands[|commands| - 1];
        && Careful(w, front)
        && (last.DoSave? ==> !Overwrites(last.setup, PerformAll(w, front), last.pairing, last.token)))
  }

  lemma LongerIsTraceable(found: Option<(Pairing, string)>, commands: seq<Command>, c: Command)
    requires Traceable(found, commands)
    ensures Traceable(found, commands + [c])
  {
    if found.Some? {
      var k :| 0 <= k < |commands| && commands[k].DoSave?
               && IsNewPair(found.value, commands[k].pairing, commands[k].token);
      assert (commands + [c])[k] == commands[k];
    }
  }

  lemma NewIsTraceable(found: (Pairing, string), commands: seq<Command>, c: Command)
    requires c.DoSave? && IsNewPair(found, c.pairing, c.token)
    ensures Traceable(Some(found), commands + [c])
  {
    assert (commands + [c])[|commands|] == c;
  }

  lemma ShrinkingMakesNoPair(loader: Setup, entry: Option<Node>,
                             before: map<string, string>, after: map<string, string>)
    requires forall id :: id in after ==> id in before && after[id] == before[id]
    ensures PairOf(loader, entry, after) == None || PairOf(loader, entry, after) == PairOf(loader, entry, before)
  {
  }

  lemma DeleteShrinksKeyring(setup: Setup, w: World)
    ensures var after := Delete(setup, w).world;
      forall id :: id in after.keyring ==> id in w.keyring && after.keyring[id] == w.keyring[id]
  {
    LoadChangesNothing(setup, w);
  }

  /** What a command makes of the entries: as they were, or with one more, and the pairs to be found through them. */
  lemma SaveKeepsTraced(w: World, commands: seq<Command>, c: Command)
    requires Traced(w, commands) && c.DoSave? && !Overwrites(c.setup, w, c.pairing, c.token)
    ensures Traced(Perform(w, c), commands + [c])
  {
    var start := w.(fates := c.fates);
    var after := Perform(w, c);
    SaveCases(c.setup, start, c.pairing, c.token);
    forall loader: Setup
      ensures Traceable(PairOf(loader, after.config, after.keyring), commands + [c])
    {
      var found := PairOf(loader, after.config, after.keyring);
      SaveKeepsPairsWhole(c.setup, start, c.pairing, c.token, loader);
      FoundIsTraceable(found, PairOf(loader, w.config, w.keyring), commands, c);
    }
    forall loader: Setup, k | 0 <= k < |after.earlier|
      ensures Traceable(PairOf(loader, Settled(after.earlier[k]), after.keyring), commands + [c])
    {
      var found := PairOf(loader, Settled(after.earlier[k]), after.keyring);
      SaveKeepsEarlierWhole(c.setup, start, c.pairing, c.token, loader, k);
      var entry := if k < |w.earlier| then Settled(w.earlier[k]) else w.config;
      FoundIsTraceable(found, PairOf(loader, entry, w.keyring), commands, c);
    }
  }

  lemma FoundIsTraceable(found: Option<(Pairing, string)>, before: Option<(Pairing, string)>, commands: seq<Command>,
                         c: Command)
    requires Traceable(before, commands) && c.DoSave?
    requires found.Some? ==> found == before || IsNewPair(found.value, c.pairing, c.token)
    ensures Traceable(found, commands + [c])
  {
    if found.Some? {
      if found == before {
        LongerIsTraceable(found, commands, c);
      } else {
        NewIsTraceable(found.value, commands, c);
      }
    }
  }

  /** Entries come, go and come back, and keyring entries go: no new pair can be found. */
  lemma OthersKeepTraced(w: World, after: World, commands: seq<Command>, c: Command)
    requires Traced(w, commands) && Replaces(w, after, None)
    requires forall id :: id in after.keyring ==> id in w.keyring && after.keyring[id] == w.keyring[id]
    ensures Traced(after, commands + [c])
  {
    forall loader: Setup
      ensures Traceable(PairOf(loader, after.config, after.keyring), commands + [c])
    {
      ShrinkingMakesNoPair(loader, after.config, w.keyring, after.keyring);
      LongerIsTraceable(PairOf(loader, w.config, w.keyring), commands, c);
    }
    forall loader: Setup, k | 0 <= k < |after.earlier|
      ensures Traceable(PairOf(loader, Settled(after.earlier[k]), after.keyring), commands + [c])
    {
      ShrinkingMakesNoPair(loader, Settled(after.earlier[k]), w.keyring, after.keyring);
      if k < |w.earlier| {
        LongerIsTraceable(PairOf(loader, Settled(w.earlier[k]), w.keyring), commands, c);
      } else {
        SettlingKeepsPair(loader, w.config, w.keyring);
        LongerIsTraceable(PairOf(loader, w.config, w.keyring), commands, c);
      }
    }
  }

  lemma CrashKeepsTraced(w: World, commands: seq<Command>, c: Command)
    requires Traced(w, commands) && c.DoCrash?
    ensures Traced(Perform(w, c), commands + [c])
  {
    var after := Perform(w, c);
    forall loader: Setup
      ensures Traceable(PairOf(loader, after.config, after.keyring), commands + [c])
    {
      if c.undone < |w.earlier| {
        LongerIsTraceable(PairOf(loader, Settled(w.earlier[c.undone]), w.keyring), commands, c);
      } else {
        SettlingKeepsPair(loader, w.config, w.keyring);
        LongerIsTraceable(PairOf(loader, w.config, w.keyring), commands, c);
      }
    }
  }

  lemma PerformKeepsTraced(w: World, commands: seq<Command>, c: Command)
    requires Traced(w, commands)
    requires c.DoSave? ==> !Overwrites(c.setup, w, c.pairing, c.token)
    ensures Traced(Perform(w, c), commands + [c])
  {
    match c
    case DoSave(_, _, _, _) => SaveKeepsTraced(w, commands, c);
    case DoLoad(setup, fates) =>
      LoadChangesNothing(setup, w.(fates := fates));
      OthersKeepTraced(w, Perform(w, c), commands, c);
    case DoDelete(setup, fates) =>
      DeleteKeepsOrRemoves(setup, w.(fates := fates));
      DeleteShrinksKeyring(setup, w.(fates := fates));
      OthersKeepTraced(w, Perform(w, c), commands, c);
    case DoCrash(_) => CrashKeepsTraced(w, commands, c);
  }

  lemma {:induction false} CarefulIsTraced(w: World, commands: seq<Command>)
    requires w.config.None? && w.earlier == [] && Careful(w, commands)
    ensures Traced(PerformAll(w, commands), commands)
  {
    if |commands| == 0 {
    } else {
      var front, last := commands[..|commands| - 1], commands[|commands| - 1];
      CarefulIsTraced(w, front);
      assert commands == front + [last];
      PerformKeepsTraced(PerformAll(w, front), front, last);
    }
  }

  /**
   Over any sequence of operations with any failures and crashes, whatever the crashes undo, from no file and with no
   save that overwrites the token of an entry there is or may be again, every load that succeeds returns the fields and
   the token of one and the same save.
   */
  lemma LoadedIsFromOneSave(w: World, commands: seq<Command>, loader: Setup, fates: seq<Fate>)
    requires w.config.None? && w.earlier == [] && Careful(w, commands)
    ensures var found := Load(loader, PerformAll(w, commands).(fates := fates)).result;
      found.Ok? ==> FromOneSave(found.value, commands)
  {
    var after := PerformAll(w, commands);
    CarefulIsTraced(w, commands);
    LoadFindsThePair(loader, after.(fates := fates));
    assert Traceable(PairOf(loader, after.config, after.keyring), commands);
  }

  /**
   A delete that succeeds leaves no file; and no keyring entry either, if it could load the pair and clear the entry.
   */
  lemma DeleteCleans(setup: Setup, w: World)
    requires Delete(setup, w).error.None?
    ensures var after := Delete(setup, w).world;
      && after.config == None && after.status == None
      && var l := Load(setup, w);
         l.result.Ok? && l.result.value.0.tokenInKeyring && TakesEffect(FateOf(l.world))
         ==> after.keyring == w.keyring - {l.result.value.0.deviceId}
  {
    LoadChangesNothing(setup, w);
    var l := Load(setup, w);
    if l.result.Ok? && l.result.value.0.tokenInKeyring && TakesEffect(FateOf(l.world)) {
      LoadedTokenHasKeyring(setup, w);
    }
  }

  lemma LoadedTokenHasKeyring(setup: Setup, w: World)
    requires Load(setup, w).result.Ok? && Load(setup, w).result.value.0.tokenInKeyring
    ensures setup.hasKeyring
  {
  }

  /**
   After a successful delete of a pairing whose token is in the keyring, the entry is gone exactly when the pair could
   be loaded and clearing the entry took effect; a locked keyring keeps the credential although the file goes.
   */
  lemma EntryGoneExactlyWhen(setup: Setup, w: World)
    requires Delete(setup, w).error.None?
    requires PairOf(setup, w.config, w.keyring).Some? && PairOf(setup, w.config, w.keyring).value.0.tokenInKeyring
    ensures var p := PairOf(setup, w.config, w.keyring).value.0;
      var l := Load(setup, w);
      p.deviceId !in Delete(setup, w).world.keyring <==> l.result.Ok? && TakesEffect(FateOf(l.world))
  {
    LoadFindsThePair(setup, w);
    LoadChangesNothing(setup, w);
  }

  lemma RemovedIsOverwritten(setup: Setup, w: World, after: World, pairing: Pairing, token: string)
    requires Replaces(w, after, None) && after.config == None && w.config.Some? && Settled(w.config) == w.config
    requires OverwritesToken(setup, w.config, after.keyring, pairing, token)
    ensures OverwritesEarlier(setup, after, pairing, token)
  {
    assert Settled(after.earlier[|w.earlier|]) == w.config;
  }

  /**
   The test of the `pair` command does not see a removal that a crash undoes: after deleting a pairing with its token
   in the keyring, pairing again under the same device identifier, with other fields and another token, can be mixed
   with it.
   */
  lemma DeletedPairingCanBeMixed(setup: Setup, w: World, pairing: Pairing, token: string)
    requires Delete(setup, w).error.None? && Settled(w.config) == w.config
    requires OverwritesToken(setup, w.config, Delete(setup, w).world.keyring, pairing, token)
    ensures var after := Delete(setup, w).world;
      && Exists(after.(fates := [Done])) == Ok(false)
      && !(forall fates, crash, loader, later :: Whole(setup, after, pairing, token, fates, crash, loader, later))
  {
    var after := Delete(setup, w).world;
    DeleteCleans(setup, w);
    DeleteKeepsOrRemoves(setup, w);
    RemovedIsOverwritten(setup, w, after, pairing, token);
    NeverMixedExactlyWhen(setup, after, pairing, token);
  }
}
