/** Whole runs of the component store: any sequence of operations, each step of which may fail or
    be where the process stops. */
module InstallRuns {
  import opened Common
  import opened Manifest
  import opened InstallStore

  datatype Command =
    | DoRecord(vm: Verified)
    | DoInstall(vm: Verified, name: string, platform: string, now: Circumstances)
    | DoRollback(name: string)
    | DoRecover
    | DoRestart(faults: seq<Outcome>)

  ghost predicate Genuine(c: Crypto, script: seq<Command>) {
    forall i :: 0 <= i < |script| && script[i].DoInstall? ==> Trusted(c, script[i].vm)
  }

  /** The tree of a component's current version. */
  function CurrentTree(versions: Versions, st: StoreState, name: string): Option<Entry> {
    if name in st.components && st.components[name].current.dir in Dirs(versions, name)
    then Some(Dirs(versions, name)[st.components[name].current.dir]) else None
  }

  /** The recorded current version stands on disk, unpacked from bytes that passed the size, hash
      and signature checks; version and the first twelve digits of the hash are the recorded ones. */
  ghost predicate CurrentIsChecked(c: Crypto, versions: Versions, st: StoreState, name: string) {
    var e := CurrentTree(versions, st, name);
    && e.Some? && e.value.Tree?
    && Checked(c, e.value.artifact, e.value.bytes)
    && e.value.version == st.components[name].current.version
    && |e.value.artifact.sha256| >= 12 && |st.components[name].current.sha256| >= 12
    && e.value.artifact.sha256[..12] == st.components[name].current.sha256[..12]
  }

  /** The recorded current version and its tree agree in the full hash. */
  ghost predicate AgreesInFull(versions: Versions, st: StoreState, name: string) {
    var e := CurrentTree(versions, st, name);
    e.Some? && e.value.Tree? && e.value.artifact.sha256 == st.components[name].current.sha256
  }

  lemma InvMeansChecked(store: Store, name: string)
    requires store.Inv() && name in store.State().components
    ensures CurrentIsChecked(store.crypto, store.versions, store.State(), name)
    ensures CollisionFree(store.used) ==> AgreesInFull(store.versions, store.State(), name)
  {
    hide Checked, Monotone;
    var v := store.State().components[name].current;
    assert KeptOnDisk(store.versions, name, store.State().components[name]);
    var e := store.versions[name][v.dir];
    assert Sound(store.crypto, v.dir, e);
    DirNameTellsApart(e.version, e.artifact.sha256, v.version, v.sha256);
    assert RecordFrom(store.used, name, store.State().components[name]);
    assert Alike(Origin(name, e.version, e.artifact.sha256), Origin(name, v.version, v.sha256));
  }

  /** The sequence numbers never go back, and one number is one document. */
  ghost predicate NeverGoesBack(seen: seq<SeenManifest>) {
    forall i, j :: 0 <= i < j < |seen| ==>
      seen[i].sequence <= seen[j].sequence && (seen[i].sequence == seen[j].sequence ==> seen[i].digest == seen[j].digest)
  }

  /** What the installs of a script were asked to put in place. */
  function AskedFor(script: seq<Command>): set<Origin> {
    if script == [] then {}
    else
      var last := script[|script| - 1];
      AskedFor(script[..|script| - 1]) + if last.DoInstall? then Planned(last.vm, last.name, last.platform) else {}
  }

  /** What one operation may do to the recorded state. */
  predicate StepOk(command: Command, before: StoreState, after: StoreState) {
    match command
    case DoRecord(vm) => after in {before, Noted(before, vm)}
    case DoInstall(vm, name, platform, _) =>
      || after in {before, Noted(before, vm)}
      || (IsCommit(Noted(before, vm), name, after) && AlreadyThere(vm, name, platform, after))
    case DoRollback(name) => after == before || (CanRollBack(before, name) && after == RolledBack(before, name))
    case _ => after == before
  }

  /** The recorded states of a run, before and after each operation. */
  predicate Told(script: seq<Command>, states: seq<StoreState>) {
    |states| == |script| + 1 && forall i :: 0 <= i < |script| ==> StepOk(script[i], states[i], states[i + 1])
  }

  /** An install that was to put its version where the previous one of the component stands, and
      that did not get as far as recording it. */
  predicate MayLose(command: Command, before: StoreState, after: StoreState, name: string, dir: string) {
    && command.DoInstall? && command.name == name && after.components == before.components
    && TakesPreviousPlace(command.vm, name, command.platform, before) && before.components[name].previous.value.dir == dir
  }

  /** The version recorded as previous stands, unless an install may have lost it. */
  ghost predicate StandsOrLost(versions: Versions, script: seq<Command>, states: seq<StoreState>, name: string)
    requires |states| == |script| + 1
  {
    var st := states[|script|];
    PreviousStands(versions, st, name)
    || exists i :: 0 <= i < |script| && MayLose(script[i], states[i], states[i + 1], name, st.components[name].previous.value.dir)
  }

  /** What one operation may do to the tree of a previous version. */
  ghost predicate PreviousStep(command: Command, before: Versions, st: StoreState, after: Versions, st': StoreState, name: string) {
    PreviousStands(after, st', name)
    || (CanRollBack(st, name) && CanRollBack(st', name) && st'.components[name] == st.components[name]
        && (PreviousStands(before, st, name) ==> MayLose(command, st, st', name, st.components[name].previous.value.dir)))
  }

  lemma PreviousGoesOn(script: seq<Command>, states: seq<StoreState>, command: Command, before: Versions, after: Versions,
      st': StoreState, name: string)
    requires |states| == |script| + 1 && StandsOrLost(before, script, states, name)
    requires PreviousStep(command, before, states[|script|], after, st', name)
    ensures StandsOrLost(after, script + [command], states + [st'], name)
  {
    hide PreviousStands, MayLose;
    var st, script', states' := states[|script|], script + [command], states + [st'];
    if !PreviousStands(after, st', name) {
      var dir := st.components[name].previous.value.dir;
      if PreviousStands(before, st, name) {
        assert MayLose(script'[|script|], states'[|script|], states'[|script| + 1], name, dir);
      } else {
        var i :| 0 <= i < |script| && MayLose(script[i], states[i], states[i + 1], name, dir);
        assert MayLose(script'[i], states'[i], states'[i + 1], name, dir);
      }
    }
  }

  /** The previous version after an install. */
  lemma InstallKeepsPrevious(vm: Verified, name: string, platform: string, now: Circumstances,
      before: Versions, st: StoreState, after: Versions, st': StoreState, failed: bool)
    requires AllKept(before, st.components) && CurrentUntouched(before, after, st.components, name)
    requires StepOk(DoInstall(vm, name, platform, now), st, st')
    requires PreviousKept(before, st, after, st', name,
               failed && st'.components == st.components && TakesPreviousPlace(vm, name, platform, st))
    ensures forall other :: PreviousStep(DoInstall(vm, name, platform, now), before, st, after, st', other)
  {
    hide AlreadyThere, TakesPreviousPlace;
    assert name in st.components ==> KeptOnDisk(before, name, st.components[name]);
  }

  /** The previous version after any other operation. */
  lemma OthersKeepPrevious(command: Command, before: Versions, st: StoreState, after: Versions, st': StoreState)
    requires !command.DoInstall? && StepOk(command, st, st')
    requires AllKept(before, st.components) && KeptSame(before, after, st)
    ensures forall name :: PreviousStep(command, before, st, after, st', name)
  {
    forall name ensures PreviousStep(command, before, st, after, st', name) {
      assert name in st.components ==> KeptOnDisk(before, name, st.components[name]);
    }
  }

  /** After any run, interrupted anywhere: every current version is there and checked, its record
      agrees with its tree in the full hash unless two artifacts asked for collide in twelve
      digits, and the manifests recorded so far never went back. The previous versions stand too,
      but where an install that recorded nothing was to take their place. */
  method Run(store: Store, script: seq<Command>) returns (ghost states: seq<StoreState>)
    requires store.Inv() && Genuine(store.crypto, script)
    modifies store
    ensures store.Inv()
    ensures Told(script, states) && states[0] == old(store.State()) && states[|script|] == store.State()
    ensures forall name :: name in store.State().components ==>
      CurrentIsChecked(store.crypto, store.versions, store.State(), name)
    ensures forall name :: old(PreviousStands(store.versions, store.State(), name)) ==>
      StandsOrLost(store.versions, script, states, name)
    ensures store.used <= old(store.used) + AskedFor(script)
    ensures CollisionFree(old(store.used) + AskedFor(script)) ==>
      forall name :: name in store.State().components ==> AgreesInFull(store.versions, store.State(), name)
    ensures old(store.seen) <= store.seen && NeverGoesBack(store.seen)
  {
    hide Store.Inv, Store.State, Trusted, Planned, CurrentIsChecked, AgreesInFull, NeverGoesBack, StepOk;
    hide PreviousStands, StandsOrLost, PreviousStep;
    states := [store.State()];
    NothingLost(store.versions, store.State());
    for i := 0 to |script|
      invariant store.Inv() && old(store.seen) <= store.seen
      invariant store.used <= old(store.used) + AskedFor(script[..i])
      invariant Told(script[..i], states) && states[0] == old(store.State()) && states[i] == store.State()
      invariant forall name :: old(PreviousStands(store.versions, store.State(), name)) ==>
        StandsOrLost(store.versions, script[..i], states, name)
    {
      assert script[..i + 1] == script[..i] + [script[i]] && script[..i + 1][..i] == script[..i];
      ghost var versions := store.versions;
      Perform(store, script[i]);
      PreviousGoOn(script[..i], states, script[i], versions, store.versions, store.State());
      states := states + [store.State()];
    }
    assert script[..|script|] == script;
    InvMeansAll(store);
  }

  lemma NothingLost(versions: Versions, st: StoreState)
    ensures forall name :: PreviousStands(versions, st, name) ==> StandsOrLost(versions, [], [st], name)
  {
  }

  lemma PreviousGoOn(script: seq<Command>, states: seq<StoreState>, command: Command, before: Versions, after: Versions, st': StoreState)
    requires |states| == |script| + 1
    requires forall name :: PreviousStep(command, before, states[|script|], after, st', name)
    ensures forall name :: StandsOrLost(before, script, states, name) ==>
      StandsOrLost(after, script + [command], states + [st'], name)
  {
    hide PreviousStep, StandsOrLost;
    forall name | StandsOrLost(before, script, states, name)
      ensures StandsOrLost(after, script + [command], states + [st'], name)
    {
      PreviousGoesOn(script, states, command, before, after, st', name);
    }
  }

  method Perform(store: Store, command: Command)
    requires store.Inv() && (command.DoInstall? ==> Trusted(store.crypto, command.vm))
    modifies store
    ensures store.Inv() && old(store.seen) <= store.seen
    ensures store.used <= old(store.used) + if command.DoInstall? then Planned(command.vm, command.name, command.platform) else {}
    ensures StepOk(command, old(store.State()), store.State())
    ensures forall name :: PreviousStep(command, old(store.versions), old(store.State()), store.versions, store.State(), name)
  {
    hide AllSound, AllKept, CurrentUntouched, Trusted, Clean, Leftovers, KeptSame, Monotone, TreesFrom;
    hide RecordsFrom, Planned;
    hide PreviousStep, PreviousKept, TakesPreviousPlace, AlreadyThere, CanRollBack, RolledBack;
    ghost var versions, st := store.versions, store.State();
    match command {
      case DoRecord(vm) => var _ := store.RecordManifest(vm);
      case DoInstall(vm, name, platform, now) =>
        var r := store.Install(vm, name, platform, now);
        InstallKeepsPrevious(vm, name, platform, now, versions, st, store.versions, store.State(), r.Err?);
      case DoRollback(name) => var _ := store.Rollback(name);
      case DoRecover => var _ := store.Recover();
      case DoRestart(faults) => store.faults := faults;
    }
    if !command.DoInstall? {
      SameAsItself(versions, st);
      OthersKeepPrevious(command, versions, st, store.versions, store.State());
    }
  }

  lemma InvMeansAll(store: Store)
    requires store.Inv()
    ensures NeverGoesBack(store.seen)
    ensures forall name :: name in store.State().components ==>
      CurrentIsChecked(store.crypto, store.versions, store.State(), name)
    ensures CollisionFree(store.used) ==>
      forall name :: name in store.State().components ==> AgreesInFull(store.versions, store.State(), name)
  {
    hide AllSound, AllKept, Monotone, TreesFrom, RecordsFrom, CurrentIsChecked, AgreesInFull, CollisionFree;
    NeverGoesBackIs(store.seen);
    forall name | name in store.State().components
      ensures CurrentIsChecked(store.crypto, store.versions, store.State(), name)
      ensures CollisionFree(store.used) ==> AgreesInFull(store.versions, store.State(), name)
    {
      InvMeansChecked(store, name);
    }
  }

  lemma NeverGoesBackIs(seen: seq<SeenManifest>)
    requires Monotone(seen)
    ensures NeverGoesBack(seen)
  {
  }

  /** A verified manifest offers this version of a component, and its install goes well if every
      call does. */
  ghost predicate Delivers(c: Crypto, vm: Verified, name: string, platform: string, now: Circumstances, o: Origin) {
    && Trusted(c, vm) && o in Planned(vm, name, platform)
    && now.fetched.Some? && now.unpacks && now.healthy
    && Checked(c, ArtifactFor(Find(vm.document.components, name).value, platform).value.1, now.fetched.value)
  }

  lemma DeliveredInstalls(c: Crypto, vm: Verified, name: string, platform: string, now: Circumstances, o: Origin,
      st: StoreState, versions: Versions)
    requires Delivers(c, vm, name, platform, now, o) && SequenceOk(st.lastManifest, vm.document.sequence, vm.digest)
    ensures Trusted(c, vm) && o.name == name && |o.sha256| >= 12 && Planned(vm, name, platform) == {o}
    ensures FreePlace(versions, st, name, DirName(o.version, o.sha256)) ==>
      Installable(c, vm, name, platform, st, versions, now)
  {
    hide Checked, IsHttpsUrl, EntrypointsOk, IsLicense, IsName, IsVersion, SequenceOk;
    var comp := Find(vm.document.components, name).value;
    assert ComponentOk(c, comp);
    assert ArtifactOk(c, ArtifactFor(comp, platform).value.1);
  }

  function OriginOf(name: string, v: InstalledVersion): Origin {
    Origin(name, v.version, v.sha256)
  }

  /** Where the records of a component stand on disk. */
  lemma RecordedAt(store: Store, name: string)
    requires store.Inv() && name in store.State().components
    ensures var rec := store.State().components[name];
      && Names(OriginOf(name, rec.current), rec.current.dir)
      && (rec.previous.Some? ==> Names(OriginOf(name, rec.previous.value), rec.previous.value.dir))
  {
    hide AllSound, TreesFrom, RecordsFrom, Monotone;
    assert KeptOnDisk(store.versions, name, store.State().components[name]);
  }

  /** One version of a component in a new store. */
  method InstallOne(c: Crypto, name: string, platform: string, vm: Verified, now: Circumstances, o: Origin) returns (store: Store)
    requires Delivers(c, vm, name, platform, now, o)
    ensures fresh(store) && store.Inv() && store.crypto == c && store.faults == []
    ensures Clean(store.versions, store.staging, store.State())
    ensures name in store.State().components && store.State().lastManifest == Some(vm.Seen())
    ensures store.State().components[name].previous.None? && OriginOf(name, store.State().components[name].current) == o
  {
    hide Delivers, Store.Inv, FreePlace, Installable, CurrentUntouched, InstalledFrom, Clean, PreviousKept;
    store := new Store(c, map[], []);
    DeliveredInstalls(c, vm, name, platform, now, o, EMPTY_STATE, map[]);
    NewIsFree(name, DirName(o.version, o.sha256));
    var r := store.Install(vm, name, platform, now);
  }

  /** Two versions of one component, one after the other, in a new store. */
  method InstallTwo(c: Crypto, name: string, platform: string, vms: seq<Verified>, nows: seq<Circumstances>, origins: seq<Origin>)
    returns (store: Store)
    requires |vms| == |nows| == |origins| >= 2
    requires forall i :: 0 <= i < 2 ==> Delivers(c, vms[i], name, platform, nows[i], origins[i])
    requires vms[0].document.sequence < vms[1].document.sequence && origins[0].version != origins[1].version
    ensures fresh(store) && store.Inv() && store.crypto == c && store.faults == [] && store.staging == map[]
    ensures CanRollBack(store.State(), name) && store.State().lastManifest == Some(vms[1].Seen())
    ensures var rec := store.State().components[name];
      OriginOf(name, rec.current) == origins[1] && OriginOf(name, rec.previous.value) == origins[0]
    ensures PreviousStands(store.versions, store.State(), name)
  {
    hide Delivers, Store.Inv, FreePlace, Installable, CurrentUntouched, InstalledFrom, AllClean;
    store := InstallOne(c, name, platform, vms[0], nows[0], origins[0]);
    ghost var st, versions := store.State(), store.versions;
    RecordedAt(store, name);
    DeliveredInstalls(c, vms[1], name, platform, nows[1], origins[1], st, versions);
    CleanIsFree(versions, st, name, origins[0], origins[1]);
    var r := store.Install(vms[1], name, platform, nows[1]);
  }

  lemma NewIsFree(name: string, dir: string)
    ensures FreePlace(map[], EMPTY_STATE, name, dir) && Clean(map[], map[], EMPTY_STATE)
  {
  }

  lemma CleanIsFree(versions: Versions, st: StoreState, name: string, o: Origin, next: Origin)
    requires AllClean(versions, st) && name in st.components && st.components[name].previous.None?
    requires Names(o, st.components[name].current.dir) && |next.sha256| >= 12 && o.version != next.version
    ensures FreePlace(versions, st, name, DirName(next.version, next.sha256))
  {
    DirNameTellsApart(o.version, o.sha256, next.version, next.sha256);
    assert CleanFor(versions, st, name);
  }

  /** One version is installed, then another, then one that takes the directory of the first, and
      a single call of the third install fails: the rename, or one that writes the state file. */
  method ReinstallFails(c: Crypto, name: string, platform: string, vms: seq<Verified>, nows: seq<Circumstances>,
      origins: seq<Origin>, calls: nat)
    returns (store: Store, r: Result<InstallOutcome, Error>)
    requires |vms| == |nows| == |origins| == 3 && 13 <= calls <= 16
    requires forall i :: 0 <= i < 3 ==> Delivers(c, vms[i], name, platform, nows[i], origins[i])
    requires vms[0].document.sequence < vms[1].document.sequence < vms[2].document.sequence
    requires origins[0].version != origins[1].version && Alike(origins[0], origins[2])
    ensures fresh(store) && store.Inv() && store.crypto == c && store.faults == []
    ensures r == Err(Io) && CanRollBack(store.State(), name)
    ensures OriginOf(name, store.State().components[name].previous.value) == origins[0]
    ensures PreviousHalfSwapped(calls == 13, store.versions, store.State(), name, PlannedTree(vms[2], name, platform, nows[2]))
  {
    hide Delivers, Store.Inv, FreePlace, Installable, CurrentUntouched, InstalledFrom, PreviousHalfSwapped, PlannedTree;
    hide LastFails, OneFailsAtMost, PreviousKept, Clean, AllClean, TakesPreviousPlace;
    store := InstallTwo(c, name, platform, vms, nows, origins);
    ghost var st, versions := store.State(), store.versions;
    RecordedAt(store, name);
    DeliveredInstalls(c, vms[2], name, platform, nows[2], origins[2], st, versions);
    PreviousIsFree(c, versions, st, vms[2], name, platform, origins[2]);
    store.faults := seq(calls - 1, i => Done) + [Failed];
    OnlyTheLast(calls - 1);
    r := store.Install(vms[2], name, platform, nows[2]);
  }

  lemma OnlyTheLast(n: nat)
    ensures LastFails(seq(n, i => Done) + [Failed])
  {
    assert (seq(n, i => Done) + [Failed])[..n] == seq(n, i => Done);
  }

  lemma PreviousIsFree(c: Crypto, versions: Versions, st: StoreState, vm: Verified, name: string, platform: string, o: Origin)
    requires CanRollBack(st, name) && PreviousStands(versions, st, name) && o in Planned(vm, name, platform)
    requires Names(OriginOf(name, st.components[name].current), st.components[name].current.dir)
    requires Names(OriginOf(name, st.components[name].previous.value), st.components[name].previous.value.dir)
    requires Alike(OriginOf(name, st.components[name].previous.value), o)
    requires st.components[name].current.version != o.version
    ensures FreePlace(versions, st, name, DirName(o.version, o.sha256)) && TakesPreviousPlace(vm, name, platform, st)
  {
    var rec := st.components[name];
    DirNameTellsApart(o.version, o.sha256, rec.current.version, rec.current.sha256);
    assert Names(o, rec.previous.value.dir);
  }

  /** A collision shows: the artifact that took the place of the previous version shares version
      and twelve digits with it. When the state file cannot be written and the component is then
      rolled back, the current record and its tree have different hashes. */
  method CollisionShows(c: Crypto, name: string, platform: string, vms: seq<Verified>, nows: seq<Circumstances>, origins: seq<Origin>)
    returns (store: Store)
    requires |vms| == |nows| == |origins| == 3
    requires forall i :: 0 <= i < 3 ==> Delivers(c, vms[i], name, platform, nows[i], origins[i])
    requires vms[0].document.sequence < vms[1].document.sequence < vms[2].document.sequence
    requires origins[0].version != origins[1].version && Alike(origins[0], origins[2]) && origins[0] != origins[2]
    ensures store.Inv() && name in store.State().components
    ensures !AgreesInFull(store.versions, store.State(), name)
  {
    hide Store.Inv, PreviousHalfSwapped, PlannedTree, Delivers, AgreesInFull;
    var r;
    store, r := ReinstallFails(c, name, platform, vms, nows, origins, 14);
    PlannedDiffers(c, store.versions, store.State(), vms[2], name, platform, nows[2], origins[2]);
    var back := store.Rollback(name);
  }

  lemma PlannedDiffers(c: Crypto, versions: Versions, st: StoreState, vm: Verified, name: string, platform: string,
      now: Circumstances, o: Origin)
    requires Delivers(c, vm, name, platform, now, o)
    requires PreviousHalfSwapped(false, versions, st, name, PlannedTree(vm, name, platform, now))
    requires Alike(OriginOf(name, st.components[name].previous.value), o) && OriginOf(name, st.components[name].previous.value) != o
    ensures IsTree(versions, name, st.components[name].previous.value.dir)
    ensures !AgreesInFull(versions, RolledBack(st, name), name)
  {
    hide Checked;
  }

  /** A rollback is lost: the previous version is installed again and the rename fails after its
      directory was removed. The state still records it as previous. */
  method RollbackLost(c: Crypto, name: string, platform: string, vms: seq<Verified>, nows: seq<Circumstances>, origins: seq<Origin>)
    returns (store: Store, back: Result<InstalledVersion, Error>)
    requires |vms| == |nows| == |origins| == 3
    requires forall i :: 0 <= i < 3 ==> Delivers(c, vms[i], name, platform, nows[i], origins[i])
    requires vms[0].document.sequence < vms[1].document.sequence < vms[2].document.sequence
    requires origins[0].version != origins[1].version && origins[2] == origins[0]
    ensures store.Inv() && CanRollBack(store.State(), name)
    ensures OriginOf(name, store.State().components[name].previous.value) == origins[0]
    ensures back.Err? && !PreviousStands(store.versions, store.State(), name)
  {
    hide Store.Inv, CurrentUntouched, Delivers, PlannedTree;
    DeliveredInstalls(c, vms[0], name, platform, nows[0], origins[0], EMPTY_STATE, map[]);
    var r;
    store, r := ReinstallFails(c, name, platform, vms, nows, origins, 13);
    back := store.Rollback(name);
  }

  /** Once a newer manifest is recorded, an older one is refused for good. */
  method OlderManifestStaysOut(store: Store, newer: Verified, script: seq<Command>, older: Verified)
    returns (r: Result<(), Error>)
    requires store.Inv() && Genuine(store.crypto, script)
    requires older.document.sequence < newer.document.sequence
    modifies store
    ensures store.Inv()
    ensures old(store.seen) <= store.seen
    ensures WasRecorded(old(store.seen), newer) ==> r.Err?
  {
    hide AllSound, AllKept, TreesFrom, RecordsFrom, Monotone;
    ghost var _ := Run(store, script);
    ghost var seen := store.seen;
    r := store.RecordManifest(older);
    if WasRecorded(old(store.seen), newer) {
      var i :| 0 <= i < |old(store.seen)| && old(store.seen)[i] == newer.Seen();
      assert seen[i] == newer.Seen();
    }
  }

  ghost predicate WasRecorded(seen: seq<SeenManifest>, vm: Verified) {
    exists i :: 0 <= i < |seen| && seen[i] == vm.Seen()
  }
}
