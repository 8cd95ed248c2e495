/** The component store: verify, unpack, swap, and one state file as the only commit point. Every
    step on the file system may fail or be where the process stops; a directory is removed in one
    step. */
module InstallStore {
  import opened Common
  import opened Manifest

  datatype Error =
    | Io
    | BadState
    | ManifestRollback
    | UnknownComponent
    | NoArtifactForPlatform
    | FetchFailed
    | BadSignature
    | SizeMismatch
    | HashMismatch
    | UnpackFailed
    | HealthFailed
    | ManifestMalformed
    | AlreadyCurrent
    | NoPrevious
    | Stopped // the process stopped inside the call

  datatype InstalledVersion = InstalledVersion(
    version: string, sha256: string, dir: string, platform: string, installedAt: nat, manifestSequence: nat)

  datatype Installed = Installed(current: InstalledVersion, previous: Option<InstalledVersion>)

  datatype StoreState = StoreState(lastManifest: Option<SeenManifest>, components: map<string, Installed>)

  const EMPTY_STATE := StoreState(None, map[])

  datatype StateFile = NoFile | Damaged | Recorded(state: StoreState)

  /** What stands in a component directory: a tree unpacked from `bytes` of an artifact of this
      version, or something that is not a directory. */
  datatype Entry = Tree(version: string, artifact: Artifact, bytes: Bytes) | Stray

  datatype Staged = Staged(download: Option<Bytes>, tree: Option<Entry>)

  /** What the surroundings do during one install. */
  datatype Circumstances = Circumstances(
    stagingId: nat, fetched: Option<Bytes>, unpacks: bool, healthy: bool, now: nat)

  datatype InstallOutcome = InstalledNow(version: string, previous: Option<string>) | WasCurrent(version: string)

  datatype RecoveryReport = RecoveryReport(removedStaging: nat, removedVersions: nat)

  /** The bytes passed the size, hash and signature checks of the artifact. */
  predicate Checked(c: Crypto, a: Artifact, bytes: Bytes) {
    && |bytes| == a.size && c.sha256(bytes) == a.sha256
    && SignatureOk(c, a.signature, bytes, ARTIFACT_DOMAIN)
  }

  /** A tree of checked bytes under the directory name of its version and hash. */
  predicate Sound(c: Crypto, dir: string, e: Entry) {
    e.Tree? ==> Checked(c, e.artifact, e.bytes) && |e.artifact.sha256| >= 12 && dir == DirName(e.version, e.artifact.sha256)
  }

  predicate RecordOk(v: InstalledVersion) {
    |v.sha256| >= 12 && v.dir == DirName(v.version, v.sha256)
  }

  /** The directories a state keeps for one component. */
  function Kept(st: StoreState, name: string): set<string> {
    if name !in st.components then {}
    else
      var c := st.components[name];
      {c.current.dir} + if c.previous.Some? then {c.previous.value.dir} else {}
  }

  function Dirs(versions: map<string, map<string, Entry>>, name: string): map<string, Entry> {
    if name in versions then versions[name] else map[]
  }

  /** The recorded manifests: the sequence never goes down, and one sequence is one document. */
  ghost predicate Monotone(seen: seq<SeenManifest>) {
    forall i, j :: 0 <= i < j < |seen| ==> SequenceOk(Some(seen[i]), seen[j].sequence, seen[j].digest)
  }

  type Versions = map<string, map<string, Entry>>

  ghost predicate AllSound(c: Crypto, versions: Versions) {
    forall name, dir :: name in versions && dir in versions[name] ==> Sound(c, dir, versions[name][dir])
  }

  /** The disk holds what is recorded for a component. */
  ghost predicate KeptOnDisk(versions: Versions, name: string, c: Installed) {
    && RecordOk(c.current)
    && c.current.dir in Dirs(versions, name) && Dirs(versions, name)[c.current.dir].Tree?
    && (c.previous.Some? ==> RecordOk(c.previous.value) && c.previous.value.dir != c.current.dir)
  }

  ghost predicate AllKept(versions: Versions, components: map<string, Installed>) {
    forall name :: name in components ==> KeptOnDisk(versions, name, components[name])
  }

  predicate IsCurrent(components: map<string, Installed>, name: string, dir: string) {
    name in components && components[name].current.dir == dir
  }

  /** What an install was asked to put in place: a component, a version and the full hash. */
  datatype Origin = Origin(name: string, version: string, sha256: string)

  /** Every tree comes from an install that was asked for. */
  ghost predicate TreesFrom(used: set<Origin>, versions: Versions) {
    forall name, dir :: name in versions && dir in versions[name] && versions[name][dir].Tree? ==>
      Origin(name, versions[name][dir].version, versions[name][dir].artifact.sha256) in used
  }

  ghost predicate RecordFrom(used: set<Origin>, name: string, c: Installed) {
    && Origin(name, c.current.version, c.current.sha256) in used
    && (c.previous.Some? ==> Origin(name, c.previous.value.version, c.previous.value.sha256) in used)
  }

  /** So does every recorded version. */
  ghost predicate RecordsFrom(used: set<Origin>, components: map<string, Installed>) {
    forall name :: name in components ==> RecordFrom(used, name, components[name])
  }

  /** Twelve digits tell the artifacts of one component and version apart. */
  ghost predicate CollisionFree(used: set<Origin>) {
    forall a, b :: a in used && b in used && Alike(a, b) ==> a == b
  }

  predicate Alike(a: Origin, b: Origin) {
    && a.name == b.name && a.version == b.version
    && |a.sha256| >= 12 && |b.sha256| >= 12 && a.sha256[..12] == b.sha256[..12]
  }

  lemma FewerTrees(used: set<Origin>, versions: Versions, name: string, dir: string)
    requires TreesFrom(used, versions)
    ensures TreesFrom(used, versions[name := Dirs(versions, name) - {dir}])
    ensures TreesFrom(used, versions[name := Dirs(versions, name)])
  {
  }

  lemma OneMoreTree(used: set<Origin>, versions: Versions, name: string, dir: string, e: Entry)
    requires TreesFrom(used, versions) && e.Tree? && Origin(name, e.version, e.artifact.sha256) in used
    ensures TreesFrom(used, versions[name := Dirs(versions, name)[dir := e]])
  {
  }

  lemma CommittedFrom(used: set<Origin>, st: StoreState, name: string, v: InstalledVersion)
    requires RecordsFrom(used, st.components) && Origin(name, v.version, v.sha256) in used
    ensures RecordsFrom(used, Committed(st, name, v).components)
  {
    assert name in st.components ==> RecordFrom(used, name, st.components[name]);
  }

  lemma RolledBackFrom(used: set<Origin>, st: StoreState, name: string)
    requires RecordsFrom(used, st.components) && CanRollBack(st, name)
    ensures RecordsFrom(used, RolledBack(st, name).components)
  {
    assert RecordFrom(used, name, st.components[name]);
  }

  lemma MoreOrigins(used: set<Origin>, more: set<Origin>, versions: Versions, components: map<string, Installed>)
    requires TreesFrom(used, versions) && RecordsFrom(used, components)
    ensures TreesFrom(used + more, versions) && RecordsFrom(used + more, components)
  {
    forall name | name in components ensures RecordFrom(used + more, name, components[name]) {
      assert RecordFrom(used, name, components[name]);
    }
  }

  /** What an install of this component is asked to put in place. */
  function Planned(vm: Verified, name: string, platform: string): set<Origin> {
    var comp := Find(vm.document.components, name);
    if comp.None? || ArtifactFor(comp.value, platform).None? then {}
    else {Origin(name, comp.value.version, ArtifactFor(comp.value, platform).value.1.sha256)}
  }

  /** Every current version stands as it did, and no other component changed. */
  ghost predicate CurrentUntouched(before: Versions, after: Versions, components: map<string, Installed>, name: string) {
    && (forall other :: other != name ==> Dirs(after, other) == Dirs(before, other))
    && (forall dir :: IsCurrent(components, name, dir) && dir in Dirs(before, name) ==>
          dir in Dirs(after, name) && Dirs(after, name)[dir] == Dirs(before, name)[dir])
  }

  /** Removing an entry that is not current, or making an empty directory. */
  lemma EntryRemoved(c: Crypto, versions: Versions, components: map<string, Installed>, name: string, dir: string)
    requires AllSound(c, versions) && AllKept(versions, components) && !IsCurrent(components, name, dir)
    ensures var after := versions[name := Dirs(versions, name) - {dir}];
      AllSound(c, after) && AllKept(after, components) && CurrentUntouched(versions, after, components, name)
  {
    var after := versions[name := Dirs(versions, name) - {dir}];
    forall other | other in components ensures KeptOnDisk(after, other, components[other]) {
      assert KeptOnDisk(versions, other, components[other]);
    }
  }

  /** Adding a tree of checked bytes. */
  lemma EntryAdded(c: Crypto, versions: Versions, components: map<string, Installed>, name: string, dir: string, e: Entry)
    requires AllSound(c, versions) && AllKept(versions, components) && !IsCurrent(components, name, dir)
    requires e.Tree? && Sound(c, dir, e)
    ensures var after := versions[name := Dirs(versions, name)[dir := e]];
      AllSound(c, after) && AllKept(after, components) && CurrentUntouched(versions, after, components, name)
  {
    var after := versions[name := Dirs(versions, name)[dir := e]];
    forall other | other in components ensures KeptOnDisk(after, other, components[other]) {
      assert KeptOnDisk(versions, other, components[other]);
    }
    forall n, d | n in after && d in after[n] ensures Sound(c, d, after[n][d]) {
      assert (n != name || d != dir) ==> d in Dirs(versions, n) && after[n][d] == Dirs(versions, n)[d];
    }
  }

  lemma UntouchedTwice(a: Versions, b: Versions, c: Versions, components: map<string, Installed>, name: string)
    requires CurrentUntouched(a, b, components, name) && CurrentUntouched(b, c, components, name)
    ensures CurrentUntouched(a, c, components, name)
  {
  }

  lemma CurrentStands(versions: Versions, components: map<string, Installed>, name: string, dir: string)
    requires AllKept(versions, components)
    ensures IsCurrent(components, name, dir) ==> dir in Dirs(versions, name)
  {
  }

  /** What a state keeps for a component is a directory wherever it exists. */
  predicate KeptAreTrees(versions: Versions, st: StoreState, name: string) {
    forall dir :: dir in Kept(st, name) && dir in Dirs(versions, name) ==> Dirs(versions, name)[dir].Tree?
  }

  /** Nothing stands in the directory of a component but the trees a state keeps. */
  predicate CleanFor(versions: Versions, st: StoreState, name: string) {
    AllIn(Dirs(versions, name), Kept(st, name)) && KeptAreTrees(versions, st, name)
  }

  /** No component directory holds anything but the trees a state keeps. */
  ghost predicate AllClean(versions: Versions, st: StoreState) {
    forall name :: CleanFor(versions, st, name)
  }

  ghost predicate Clean(versions: Versions, staging: map<nat, Staged>, st: StoreState) {
    staging == map[] && AllClean(versions, st)
  }

  lemma CommittedAreTrees(before: Versions, after: Versions, st: StoreState, name: string, v: InstalledVersion)
    requires AllKept(before, st.components) && CurrentUntouched(before, after, st.components, name)
    requires AllKept(after, Committed(st, name, v).components)
    ensures KeptAreTrees(after, Committed(st, name, v), name)
  {
  }

  lemma CleanStays(before: Versions, after: Versions, st: StoreState, st': StoreState, name: string)
    requires AllClean(before, st)
    requires forall other :: other != name ==> Dirs(after, other) == Dirs(before, other) && Kept(st', other) == Kept(st, other)
    requires CleanFor(after, st', name)
    ensures AllClean(after, st')
  {
    forall other ensures CleanFor(after, st', other) {
      assert CleanFor(before, st, other);
    }
  }

  lemma InstallIsClean(before: Versions, after: Versions, st: StoreState, st': StoreState, name: string)
    requires CurrentUntouched(before, after, st.components, name)
    requires st' == st || IsCommit(st, name, st')
    ensures AllClean(before, st) && CleanFor(after, st', name) ==> AllClean(after, st')
    ensures AllClean(before, st) ==> CleanFor(before, st, name)
  {
    if AllClean(before, st) && CleanFor(after, st', name) {
      CleanStays(before, after, st, st', name);
    }
  }

  /** A swap that is not committed leaves the place as it was, empty, or with the new tree. */
  lemma SwapFailed(before: Versions, after: Versions, st: StoreState, o: Origin, dir: string, e: Entry)
    requires e.Tree? && |o.sha256| >= 12 && dir == DirName(o.version, o.sha256)
    requires var d := Dirs(before, o.name); Dirs(after, o.name) in {d, d - {dir}, d[dir := e], d[dir := e] - {dir}}
    ensures TreesStand(before, after, o)
    ensures CleanFor(before, st, o.name) && (dir in Dirs(after, o.name) ==> dir in Kept(st, o.name) || dir in Dirs(before, o.name)) ==>
      CleanFor(after, st, o.name)
  {
  }

  /** A swap that is committed leaves the new tree beside the kept ones. */
  lemma PlacedIsClean(before: Versions, after: Versions, st: StoreState, name: string, dir: string, e: Entry)
    requires e.Tree? && Dirs(after, name) == Dirs(before, name)[dir := e]
    ensures CleanFor(before, st, name) ==>
      AllIn(Dirs(after, name), Kept(st, name) + {dir}) && KeptAreTrees(after, st, name)
  {
  }

  lemma NoTreeGone(before: Versions, after: Versions, st: StoreState, o: Origin)
    requires Dirs(after, o.name) == Dirs(before, o.name)
    ensures TreesStand(before, after, o)
    ensures CleanFor(after, st, o.name) <==> CleanFor(before, st, o.name)
  {
  }

  lemma TreesStandTwice(a: Versions, b: Versions, c: Versions, o: Origin)
    requires TreesStand(a, b, o) && TreesStand(b, c, o)
    ensures TreesStand(a, c, o)
  {
  }

  /** A component of a clean store has at most its current and its previous version on disk. */
  lemma CleanHoldsTwo(versions: Versions, staging: map<nat, Staged>, st: StoreState, name: string)
    requires Clean(versions, staging, st)
    ensures |Dirs(versions, name)| <= 2
  {
    assert CleanFor(versions, st, name);
    var kept := Kept(st, name);
    assert Dirs(versions, name).Keys <= kept;
    if name in st.components {
      var c := st.components[name];
      assert kept <= {c.current.dir, if c.previous.Some? then c.previous.value.dir else c.current.dir};
      SubsetSize(kept, {c.current.dir, if c.previous.Some? then c.previous.value.dir else c.current.dir});
    }
    SubsetSize(Dirs(versions, name).Keys, kept);
  }

  /** The version, artifact and bytes of an install are the ones the manifest names. */
  predicate InstalledFrom(vm: Verified, name: string, platform: string, now: Circumstances,
      v: InstalledVersion, versions: Versions) {
    var comp := Find(vm.document.components, name);
    && comp.Some? && ArtifactFor(comp.value, platform).Some? && now.fetched.Some?
    && var (used, art) := ArtifactFor(comp.value, platform).value;
       && v.version == comp.value.version && v.sha256 == art.sha256 && v.platform == used
       && v.manifestSequence == vm.document.sequence && v.installedAt == now.now
       && Holds(versions, name, v.dir, Tree(comp.value.version, art, now.fetched.value))
  }

  /** A manifest in sequence names the component and an artifact for the platform. */
  predicate Offers(vm: Verified, name: string, platform: string, st: StoreState) {
    && SequenceOk(st.lastManifest, vm.document.sequence, vm.digest)
    && var comp := Find(vm.document.components, name);
       comp.Some? && ArtifactFor(comp.value, platform).Some?
  }

  /** The manifest offers the component and everything goes well. */
  predicate Installable(c: Crypto, vm: Verified, name: string, platform: string, st: StoreState,
      versions: Versions, now: Circumstances) {
    && Offers(vm, name, platform, st)
    && var comp := Find(vm.document.components, name);
       && GoesThrough(c, Noted(st, vm), versions, comp.value, ArtifactFor(comp.value, platform).value.1, now)
  }

  /** The manifest's version and hash are the recorded current ones. */
  predicate AlreadyThere(vm: Verified, name: string, platform: string, st: StoreState) {
    && name in st.components
    && Origin(name, st.components[name].current.version, st.components[name].current.sha256) in Planned(vm, name, platform)
  }

  /** The install is to put its version where the recorded previous version stands. */
  predicate TakesPreviousPlace(vm: Verified, name: string, platform: string, st: StoreState) {
    CanRollBack(st, name) && exists o :: o in Planned(vm, name, platform) && Names(o, st.components[name].previous.value.dir)
  }

  /** The tree the install is to put in place. */
  function PlannedTree(vm: Verified, name: string, platform: string, now: Circumstances): Option<Entry> {
    var comp := Find(vm.document.components, name);
    if comp.None? || ArtifactFor(comp.value, platform).None? || now.fetched.None? then None
    else Some(Tree(comp.value.version, ArtifactFor(comp.value, platform).value.1, now.fetched.value))
  }

  /** The tree of the previous version stands and would be replaced. */
  predicate ReplacesPrevious(c: Crypto, vm: Verified, name: string, platform: string, st: StoreState,
      versions: Versions, now: Circumstances) {
    && Installable(c, vm, name, platform, st, versions, now)
    && TakesPreviousPlace(vm, name, platform, st) && PreviousStands(versions, st, name)
  }

  /** What stands in the place of the previous version when the rename into it failed, or a later
      call did. */
  predicate PreviousHalfSwapped(atRename: bool, versions: Versions, st: StoreState, name: string, tree: Option<Entry>) {
    && CanRollBack(st, name) && tree.Some?
    && HalfSwapped(atRename, versions, name, st.components[name].previous.value.dir, tree.value)
  }

  lemma ReplacedAsPlanned(c: Crypto, vm: Verified, name: string, platform: string, st: StoreState,
      versions: Versions, now: Circumstances)
    requires AllKept(versions, st.components)
    ensures Installable(c, vm, name, platform, st, versions, now) ==> !AlreadyThere(vm, name, platform, st)
    ensures ReplacesPrevious(c, vm, name, platform, st, versions, now) ==>
      Installable(c, vm, name, platform, st, versions, now)
    ensures ReplacesPrevious(c, vm, name, platform, st, versions, now) ==>
      var comp := Find(vm.document.components, name).value;
      var art := ArtifactFor(comp, platform).value.1;
      Reinstalls(c, Noted(st, vm), versions, comp, art, now)
    ensures ReplacesPrevious(c, vm, name, platform, st, versions, now) ==>
      var comp := Find(vm.document.components, name).value;
      var art := ArtifactFor(comp, platform).value.1;
      forall atRename, after ::
        HalfSwapped(atRename, after, name, DirName(comp.version, art.sha256), Tree(comp.version, art, now.fetched.value)) ==>
          PreviousHalfSwapped(atRename, after, Noted(st, vm), name, PlannedTree(vm, name, platform, now))
  {
    hide Checked, HalfSwapped;
    if name in st.components {
      assert KeptOnDisk(versions, name, st.components[name]);
    }
  }

  /** A failed install leaves the previous version, unless it was to take its place. After a commit
      the previous version is the one that was current. */
  lemma PreviousAfter(before: Versions, after: Versions, st: StoreState, st': StoreState, vm: Verified, name: string, platform: string)
    requires AllKept(before, st.components) && CurrentUntouched(before, after, st.components, name)
    requires
      || (st' == Noted(st, vm) && exists o :: o in Planned(vm, name, platform) && o.name == name && TreesStand(before, after, o))
      || IsCommit(Noted(st, vm), name, st')
    ensures PreviousKept(before, st, after, st', name, TakesPreviousPlace(vm, name, platform, st))
    ensures IsCommit(Noted(st, vm), name, st') ==> PreviousKept(before, st, after, st', name, false)
  {
    assert name in st.components ==> KeptOnDisk(before, name, st.components[name]);
  }

  lemma SamePrevious(versions: Versions, st: StoreState, vm: Verified, name: string, perhaps: bool)
    ensures PreviousKept(versions, st, versions, st, name, perhaps)
    ensures PreviousKept(versions, st, versions, Noted(st, vm), name, perhaps)
  {
  }

  lemma ChosenIsOk(c: Crypto, vm: Verified, name: string, platform: string)
    requires IsValid(c, vm.document) && Find(vm.document.components, name).Some?
    requires ArtifactFor(Find(vm.document.components, name).value, platform).Some?
    ensures ArtifactFor(Find(vm.document.components, name).value, platform).value.1.size <= MAX_ARTIFACT_BYTES
  {
  }

  /** The artifact listed for the platform; one for any platform only where none is. */
  predicate IsListedArtifact(comp: Component, platform: string, used: string, art: Artifact) {
    && (platform in comp.artifacts ==> used == platform && art == comp.artifacts[platform])
    && (platform !in comp.artifacts ==> used == "any" && "any" in comp.artifacts && art == comp.artifacts["any"])
  }

  predicate IsListed(comp: Component, platform: string) {
    platform in comp.artifacts || "any" in comp.artifacts
  }

  /** The recorded version and hash are those of the manifest's component and the artifact listed
      for the platform. */
  ghost predicate RecordsListed(vm: Verified, name: string, platform: string, v: InstalledVersion) {
    var comp := Find(vm.document.components, name);
    && comp.Some? && v.version == comp.value.version
    && exists used, art :: IsListedArtifact(comp.value, platform, used, art) && v.sha256 == art.sha256
  }

  /** So are its platform and the tree in its directory. */
  ghost predicate InstallsListed(vm: Verified, name: string, platform: string, now: Circumstances,
      v: InstalledVersion, versions: Versions) {
    var comp := Find(vm.document.components, name);
    && comp.Some? && now.fetched.Some?
    && exists art :: IsListedArtifact(comp.value, platform, v.platform, art)
         && Holds(versions, name, v.dir, Tree(comp.value.version, art, now.fetched.value))
  }

  lemma ChosenIsListed(comp: Component, platform: string)
    ensures ArtifactFor(comp, platform).Some? <==> IsListed(comp, platform)
    ensures ArtifactFor(comp, platform).Some? ==>
      IsListedArtifact(comp, platform, ArtifactFor(comp, platform).value.0, ArtifactFor(comp, platform).value.1)
  {
  }

  lemma RecordedIsListed(vm: Verified, name: string, platform: string, st: StoreState)
    requires AlreadyThere(vm, name, platform, st)
    ensures RecordsListed(vm, name, platform, st.components[name].current)
  {
    ChosenIsListed(Find(vm.document.components, name).value, platform);
  }

  lemma InstalledIsListed(vm: Verified, name: string, platform: string, now: Circumstances, v: InstalledVersion, versions: Versions)
    requires InstalledFrom(vm, name, platform, now, v, versions)
    ensures InstallsListed(vm, name, platform, now, v, versions)
  {
    ChosenIsListed(Find(vm.document.components, name).value, platform);
  }

  /** What an install reports: the current version, and the one it replaced. */
  function Reported(before: StoreState, after: StoreState, name: string, wasCurrent: bool): InstallOutcome
    requires name in after.components
  {
    var version := after.components[name].current.version;
    if wasCurrent then WasCurrent(version)
    else InstalledNow(version, if name in before.components then Some(before.components[name].current.version) else None)
  }

  /** The answers to a manifest without the component, or without an artifact for the platform. */
  predicate IsMissing(e: Error) {
    e == UnknownComponent || e == NoArtifactForPlatform
  }

  ghost predicate MissingFrom(vm: Verified, name: string, platform: string, e: Error) {
    var comp := Find(vm.document.components, name);
    if comp.None? then e == UnknownComponent else e == NoArtifactForPlatform && !IsListed(comp.value, platform)
  }

  /** At most this staging directory changed. */
  predicate OnlyStaged(before: map<nat, Staged>, after: map<nat, Staged>, id: nat) {
    after.Keys == before.Keys && forall other :: other in before && other != id ==> after[other] == before[other]
  }

  /** The place of a new version can be freed: it is not the current version, and no stray file. */
  predicate FreePlace(versions: Versions, st: StoreState, name: string, dir: string) {
    !IsCurrent(st.components, name, dir) && (dir in Dirs(versions, name) ==> Dirs(versions, name)[dir].Tree?)
  }

  lemma OnlyEntriesMatter(before: Versions, after: Versions, st: StoreState, name: string)
    requires Dirs(after, name) == Dirs(before, name)
    ensures CleanFor(after, st, name) <==> CleanFor(before, st, name)
    ensures forall dir :: FreePlace(after, st, name, dir) <==> FreePlace(before, st, name, dir)
  {
  }

  /** The place of a new version holds the tree of a recorded version that is not current. */
  predicate Replaces(versions: Versions, st: StoreState, name: string, dir: string) {
    FreePlace(versions, st, name, dir) && IsTree(versions, name, dir) && dir in Kept(st, name)
  }

  predicate HexStart(sha256: string) {
    |sha256| >= 12 && forall i :: 0 <= i < 12 ==> IsHexDigit(sha256[i]) || 'A' <= sha256[i] <= 'F'
  }

  /** Everything an install needs goes well. */
  predicate GoesThrough(c: Crypto, st: StoreState, versions: Versions, comp: Component, art: Artifact, now: Circumstances) {
    && now.fetched.Some? && Checked(c, art, now.fetched.value) && now.unpacks && now.healthy
    && HexStart(art.sha256) && FreePlace(versions, st, comp.name, DirName(comp.version, art.sha256))
  }

  ghost predicate NoneFails(faults: seq<Outcome>) {
    forall i :: 0 <= i < |faults| ==> faults[i].Done?
  }

  /** The process does not stop and at most one call fails. */
  ghost predicate OneFailsAtMost(faults: seq<Outcome>) {
    Stop !in faults && forall i, j :: 0 <= i < j < |faults| && faults[i].Failed? ==> faults[j].Done?
  }

  /** Of the calls listed, the last one fails and no other. */
  ghost predicate LastFails(faults: seq<Outcome>) {
    faults != [] && faults[|faults| - 1].Failed? && NoneFails(faults[..|faults| - 1])
  }

  lemma LastOneFails(faults: seq<Outcome>)
    ensures LastFails(faults) && |faults| == 1 ==> faults[0] == Failed && faults[1..] == []
    ensures LastFails(faults) ==> faults != [] && OneFailsAtMost(faults)
  {
    if LastFails(faults) {
      var n := |faults| - 1;
      assert forall i :: 0 <= i < n ==> faults[i] == faults[..n][i];
    }
  }

  /** Only a later call than the next `n` fails. */
  ghost predicate Surely(n: nat, faults: seq<Outcome>) {
    LastFails(faults) && |faults| > n
  }

  /** `n` calls later. */
  ghost predicate Past(n: nat, before: seq<Outcome>, after: seq<Outcome>) {
    LastFails(after) && |after| == |before| - n
  }

  /** What stands in a place when the rename into it failed, or a later call did. */
  predicate HalfSwapped(atRename: bool, versions: Versions, name: string, dir: string, e: Entry) {
    if atRename then dir !in Dirs(versions, name) else Holds(versions, name, dir, e)
  }

  /** The directory an install puts its version in. */
  predicate Names(o: Origin, dir: string) {
    |o.sha256| >= 12 && dir == DirName(o.version, o.sha256)
  }

  /** No tree of the component went away but perhaps one where the version was to go. */
  ghost predicate TreesStand(before: Versions, after: Versions, o: Origin) {
    forall dir :: IsTree(before, o.name, dir) && !Names(o, dir) ==> IsTree(after, o.name, dir)
  }

  /** The version recorded as previous is there to go back to. */
  predicate PreviousStands(versions: Versions, st: StoreState, name: string) {
    CanRollBack(st, name) ==> IsTree(versions, name, st.components[name].previous.value.dir)
  }

  /** The version goes through, into the place of a recorded version that is not current. */
  predicate Reinstalls(c: Crypto, st: StoreState, versions: Versions, comp: Component, art: Artifact, now: Circumstances) {
    GoesThrough(c, st, versions, comp, art, now) && Replaces(versions, st, comp.name, DirName(comp.version, art.sha256))
  }

  /** The previous versions that stood still do, but perhaps the one of this component. */
  ghost predicate PreviousKept(before: Versions, st: StoreState, after: Versions, st': StoreState, name: string, perhaps: bool) {
    forall other :: PreviousStands(before, st, other) && !(other == name && perhaps) ==> PreviousStands(after, st', other)
  }

  lemma StagingRestored(before: map<nat, Staged>, prepared: map<nat, Staged>, after: map<nat, Staged>, id: nat)
    requires id !in before && prepared == before[id := Staged(None, None)] && OnlyStaged(prepared, after, id)
    ensures after - {id} == before
  {
  }

  predicate IsTree(versions: Versions, name: string, dir: string) {
    dir in Dirs(versions, name) && Dirs(versions, name)[dir].Tree?
  }

  predicate CanRollBack(st: StoreState, name: string) {
    name in st.components && st.components[name].previous.Some?
  }

  function RolledBack(st: StoreState, name: string): StoreState
    requires CanRollBack(st, name)
  {
    var c := st.components[name];
    st.(components := st.components[name := Installed(c.previous.value, Some(c.current))])
  }

  /** A second rollback undoes the first. */
  lemma RollbackUndoesItself(st: StoreState, name: string)
    requires CanRollBack(st, name)
    ensures CanRollBack(RolledBack(st, name), name) && RolledBack(RolledBack(st, name), name) == st
  {
  }

  lemma RolledBackIsKept(versions: Versions, st: StoreState, name: string)
    requires AllKept(versions, st.components) && CanRollBack(st, name)
    requires IsTree(versions, name, st.components[name].previous.value.dir)
    ensures AllKept(versions, RolledBack(st, name).components)
  {
  }

  /** The entries a state does not keep. */
  function Leftovers(versions: Versions, st: StoreState): set<(string, string)> {
    set name, dir | name in versions && dir in versions[name] && dir !in Kept(st, name) :: (name, dir)
  }

  /** Entries only went away, and none that the state keeps. */
  ghost predicate KeptSame(before: Versions, after: Versions, st: StoreState) {
    forall name, dir ::
      && (dir in Dirs(after, name) ==> dir in Dirs(before, name) && Dirs(after, name)[dir] == Dirs(before, name)[dir])
      && (dir in Dirs(before, name) && dir in Kept(st, name) ==> dir in Dirs(after, name))
  }

  lemma KeptSameTwice(a: Versions, b: Versions, c: Versions, st: StoreState)
    requires KeptSame(a, b, st) && KeptSame(b, c, st)
    ensures KeptSame(a, c, st)
  {
  }

  lemma LeftoverRemoved(c: Crypto, versions: Versions, st: StoreState, name: string, dir: string)
    requires AllSound(c, versions) && AllKept(versions, st.components)
    requires name in versions && dir in versions[name] && dir !in Kept(st, name)
    ensures var after := versions[name := versions[name] - {dir}];
      && AllSound(c, after) && AllKept(after, st.components) && KeptSame(versions, after, st)
      && |Leftovers(after, st)| == |Leftovers(versions, st)| - 1
  {
    hide AllSound, AllKept, Leftovers;
    EntryRemoved(c, versions, st.components, name, dir);
    OneLess(versions, st, name, dir);
  }

  lemma OneLess(versions: Versions, st: StoreState, name: string, dir: string)
    requires name in versions && dir in versions[name] && dir !in Kept(st, name)
    ensures |Leftovers(versions[name := versions[name] - {dir}], st)| == |Leftovers(versions, st)| - 1
  {
    hide Kept;
    assert (name, dir) in Leftovers(versions, st);
    assert Leftovers(versions[name := versions[name] - {dir}], st) == Leftovers(versions, st) - {(name, dir)};
  }

  lemma SameAsItself(versions: Versions, st: StoreState)
    ensures KeptSame(versions, versions, st)
  {
  }

  lemma NoLeftovers(versions: Versions, st: StoreState)
    requires forall name :: name in versions ==> AllIn(Dirs(versions, name), Kept(st, name))
    ensures Leftovers(versions, st) == {}
  {
  }

  predicate Holds(versions: Versions, name: string, dir: string, e: Entry) {
    dir in Dirs(versions, name) && Dirs(versions, name)[dir] == e
  }

  predicate AllIn(entries: map<string, Entry>, kept: set<string>) {
    forall dir :: dir in entries ==> dir in kept
  }

  /** The state with a manifest recorded as the newest one seen. */
  function Noted(st: StoreState, vm: Verified): StoreState {
    st.(lastManifest := Some(vm.Seen()))
  }

  lemma NotedIsClean(versions: Versions, st: StoreState, vm: Verified)
    ensures AllClean(versions, st) <==> AllClean(versions, Noted(st, vm))
  {
    forall name ensures CleanFor(versions, st, name) <==> CleanFor(versions, Noted(st, vm), name) {
      assert Kept(st, name) == Kept(Noted(st, vm), name);
    }
  }

  /** What is recorded once a new version is swapped in. */
  function Committed(st: StoreState, name: string, v: InstalledVersion): StoreState {
    st.(components := st.components[name := Installed(v, if name in st.components then Some(st.components[name].current) else None)])
  }

  /** `after` is `st` with some new version of the component committed. */
  predicate IsCommit(st: StoreState, name: string, after: StoreState) {
    name in after.components && after == Committed(st, name, after.components[name].current)
  }

  /** The version committed is the one asked for. */
  predicate IsCommitOf(st: StoreState, o: Origin, after: StoreState) {
    && IsCommit(st, o.name, after)
    && Origin(o.name, after.components[o.name].current.version, after.components[o.name].current.sha256) == o
  }

  lemma CommittedIsKept(versions: Versions, st: StoreState, name: string, v: InstalledVersion)
    requires AllKept(versions, st.components) && RecordOk(v) && !IsCurrent(st.components, name, v.dir)
    requires v.dir in Dirs(versions, name) && Dirs(versions, name)[v.dir].Tree?
    ensures AllKept(versions, Committed(st, name, v).components)
  {
  }

  lemma NothingRemoved(c: Crypto, versions: Versions, components: map<string, Installed>, name: string)
    requires AllSound(c, versions) && AllKept(versions, components)
    ensures CurrentUntouched(versions, versions, components, name)
    ensures name !in versions ==>
      var after := versions[name := map[]];
      AllSound(c, after) && AllKept(after, components) && CurrentUntouched(versions, after, components, name)
  {
  }

  lemma MonotoneGrows(seen: seq<SeenManifest>, next: SeenManifest)
    requires Monotone(seen)
    requires seen != [] ==> SequenceOk(Some(seen[|seen| - 1]), next.sequence, next.digest)
    ensures Monotone(seen + [next])
  {
  }

  class Store {
    const crypto: Crypto
    var versions: Versions // component directory -> entries
    var staging: map<nat, Staged>
    var stateFile: StateFile
    var faults: seq<Outcome>
    ghost var seen: seq<SeenManifest> // every manifest a state file recorded, in order
    ghost var used: set<Origin> // what installs were asked to put in place

    /** What the state file says. */
    function State(): StoreState
      reads `stateFile
    {
      if stateFile.Recorded? then stateFile.state else EMPTY_STATE
    }

    /** Every recorded current version stands on disk as a tree of checked bytes. */
    ghost predicate Inv()
      reads `versions, `stateFile, `seen, `used
    {
      && !stateFile.Damaged?
      && AllSound(crypto, versions) && AllKept(versions, State().components)
      && TreesFrom(used, versions) && RecordsFrom(used, State().components)
      && Monotone(seen)
      && State().lastManifest == if seen == [] then None else Some(seen[|seen| - 1])
    }

    /** A new store, or one in which strangers left other files. */
    constructor (crypto: Crypto, versions: Versions, faults: seq<Outcome>)
      requires forall name, dir :: name in versions && dir in versions[name] ==> versions[name][dir].Stray?
      ensures Inv() && State() == EMPTY_STATE && this.versions == versions && staging == map[]
      ensures this.crypto == crypto && this.faults == faults && used == {}
    {
      this.crypto, this.versions, this.faults := crypto, versions, faults;
      staging, stateFile, seen, used := map[], NoFile, [], {};
    }

    method Step() returns (r: Result<(), Error>)
      modifies `faults
      ensures old(faults) == [] ==> r.Ok? && faults == []
      ensures old(faults) != [] ==>
        faults == old(faults)[1..] && r == match old(faults)[0] case Done => Ok(()) case Failed => Err(Io) case Stop => Err(Stopped)
      ensures r.Err? ==> r.error in {Io, Stopped}
      ensures NoneFails(old(faults)) ==> r.Ok? && NoneFails(faults)
      ensures OneFailsAtMost(old(faults)) ==> OneFailsAtMost(faults) && r != Err(Stopped) && (r.Err? ==> NoneFails(faults))
      ensures Surely(1, old(faults)) ==> r.Ok? && Past(1, old(faults), faults)
    {
      if faults == [] {
        return Ok(());
      }
      var o := faults[0];
      faults := faults[1..];
      match o
      case Done => return Ok(());
      case Failed => return Err(Io);
      case Stop => return Err(Stopped);
    }

    /** A missing state file is the empty state. */
    method ReadState() returns (r: Result<StoreState, Error>)
      modifies `faults
      ensures r.Ok? ==> !stateFile.Damaged? && r.value == State()
      ensures r.Err? ==> r.error in {Io, Stopped, BadState}
      ensures old(faults) == [] ==> faults == [] && (r.Ok? <==> !stateFile.Damaged?)
      ensures OneFailsAtMost(old(faults)) ==> OneFailsAtMost(faults)
      ensures Surely(1, old(faults)) && !stateFile.Damaged? ==> r.Ok? && Past(1, old(faults), faults)
    {
      hide NoneFails, OneFailsAtMost, LastFails;
      var _ :- Step();
      match stateFile
      case NoFile => return Ok(EMPTY_STATE);
      case Damaged => return Err(BadState);
      case Recorded(state) => return Ok(state);
    }

    /** A temporary file, then one rename: the old state or the new one, never a mixture. */
    method WriteState(st: StoreState) returns (r: Result<(), Error>)
      requires Inv()
      requires st.lastManifest.Some? ==> SequenceOk(State().lastManifest, st.lastManifest.value.sequence, st.lastManifest.value.digest)
      requires st.lastManifest.None? ==> State().lastManifest.None?
      requires AllKept(versions, st.components) && RecordsFrom(used, st.components)
      modifies `faults, `stateFile, `seen
      ensures Inv()
      ensures r.Ok? ==> State() == st && stateFile.Recorded?
      ensures r.Err? ==> stateFile == old(stateFile) && seen == old(seen) && r.error in {Io, Stopped}
      ensures old(faults) == [] ==> r.Ok? && faults == []
      ensures OneFailsAtMost(old(faults)) ==> OneFailsAtMost(faults) && r != Err(Stopped) && (r.Err? ==> NoneFails(faults))
      ensures Surely(3, old(faults)) ==> r.Ok? && Past(3, old(faults), faults)
      ensures LastFails(old(faults)) && |old(faults)| <= 3 ==> r == Err(Io) && faults == []
      ensures old(seen) <= seen
    {
      hide NoneFails, OneFailsAtMost, LastFails, AllSound, AllKept, Monotone, TreesFrom, RecordsFrom, SequenceOk;
      LastOneFails(faults);
      var _ :- Step(); // the temporary file
      LastOneFails(faults);
      var _ :- Step(); // its bytes, synced
      LastOneFails(faults);
      var _ :- Step(); // the rename
      stateFile := Recorded(st);
      if st.lastManifest.Some? {
        MonotoneGrows(seen, st.lastManifest.value);
        seen := seen + [st.lastManifest.value];
      }
      return Ok(());
    }

    /** Records a manifest as the newest one seen, refusing an older one. */
    method RecordManifest(vm: Verified) returns (r: Result<(), Error>)
      requires Inv()
      modifies `faults, `stateFile, `seen
      ensures Inv()
      ensures r.Ok? ==> State() == old(State()).(lastManifest := Some(vm.Seen()))
      ensures r.Ok? ==> SequenceOk(old(State()).lastManifest, vm.document.sequence, vm.digest)
      ensures r.Err? ==> State() == old(State())
      ensures old(faults) == [] ==> faults == []
      ensures old(faults) == [] ==>
        var last := old(State()).lastManifest;
        (r.Ok? <==> last.None? || last.value.sequence < vm.document.sequence
                    || (last.value.sequence == vm.document.sequence && last.value.digest == vm.digest))
      ensures old(seen) <= seen
    {
      var st :- ReadState();
      if !SequenceOk(st.lastManifest, vm.document.sequence, vm.digest) {
        return Err(ManifestRollback);
      }
      r := WriteState(st.(lastManifest := Some(vm.Seen())));
    }

    /** Removes a version directory in one step; what is not a directory stays. */
    method RemoveVersion(name: string, dir: string) returns (r: Result<(), Error>)
      modifies `faults, `versions
      ensures r.Ok? ==> dir in Dirs(old(versions), name) && Dirs(old(versions), name)[dir].Tree?
      ensures versions == (if r.Ok? then old(versions)[name := Dirs(old(versions), name) - {dir}] else old(versions))
      ensures r.Err? ==> r.error == Io || (r.error == Stopped && old(faults) != [])
      ensures old(faults) == [] ==>
        faults == [] && (r.Ok? <==> dir in Dirs(old(versions), name) && Dirs(old(versions), name)[dir].Tree?)
      ensures NoneFails(old(faults)) && IsTree(old(versions), name, dir) ==> r.Ok?
      ensures OneFailsAtMost(old(faults)) ==> OneFailsAtMost(faults) && r != Err(Stopped)
      ensures Surely(1, old(faults)) && IsTree(old(versions), name, dir) ==> r.Ok? && Past(1, old(faults), faults)
    {
      hide NoneFails, OneFailsAtMost, LastFails;
      var _ :- Step();
      if dir !in Dirs(versions, name) || !Dirs(versions, name)[dir].Tree? {
        return Err(Io);
      }
      versions := versions[name := versions[name] - {dir}];
      return Ok(());
    }

    /** One pass over the download: size, hash and artifact signature. A size or hash problem is
        reported ahead of the signature. */
    method CheckDownload(art: Artifact, bytes: Bytes) returns (r: Result<(), Error>)
      requires art.size <= MAX_ARTIFACT_BYTES
      modifies `faults
      ensures r != Err(UnknownComponent) && r != Err(NoArtifactForPlatform)
      ensures r.Ok? ==> Checked(crypto, art, bytes)
      ensures r == Err(Stopped) ==> old(faults) != []
      ensures old(faults) == [] ==> faults == [] && (r.Ok? <==> Checked(crypto, art, bytes))
      ensures old(faults) == [] ==>
        match r
        case Ok(_) => Checked(crypto, art, bytes)
        case Err(SizeMismatch) => |bytes| != art.size
        case Err(HashMismatch) => |bytes| == art.size && crypto.sha256(bytes) != art.sha256
        case Err(e) => e == BadSignature && |bytes| == art.size && crypto.sha256(bytes) == art.sha256
      ensures OneFailsAtMost(old(faults)) ==> OneFailsAtMost(faults) && r != Err(Stopped)
      ensures Surely(2, old(faults)) && Checked(crypto, art, bytes) ==> r.Ok? && Past(2, old(faults), faults)
    {
      hide NoneFails, OneFailsAtMost, LastFails;
      var _ :- Step(); // opening the file
      var reading := Step();
      if reading == Err(Stopped) {
        return Err(Stopped);
      }
      var checked := VerifyStream(crypto, art.signature, Stream(Chunks(bytes, 64 * 1024), reading.Err?), ARTIFACT_DOMAIN);
      if checked == Err(ReadFailed) {
        return Err(Io);
      }
      if checked.Err? {
        var _ :- Step(); // hashing it again
        return Err(
          if |bytes| != art.size then SizeMismatch
          else if crypto.sha256(bytes) != art.sha256 then HashMismatch
          else BadSignature);
      }
      var (n, digest) := checked.value;
      if n != art.size {
        return Err(SizeMismatch);
      }
      if digest != art.sha256 {
        return Err(HashMismatch);
      }
      return Ok(());
    }

    /** Downloads, checks and unpacks into the staging directory. */
    method Stage(id: nat, comp: Component, art: Artifact, now: Circumstances) returns (r: Result<(), Error>)
      requires id in staging && art.size <= MAX_ARTIFACT_BYTES
      modifies `faults, `staging
      ensures r != Err(UnknownComponent) && r != Err(NoArtifactForPlatform)
      ensures OnlyStaged(old(staging), staging, id)
      ensures r.Ok? ==> staging[id].tree.Some? && staging[id].tree.value.Tree?
      ensures r == Err(Stopped) ==> old(faults) != []
      ensures r.Ok? ==> staging[id].tree.value.version == comp.version && staging[id].tree.value.artifact == art
      ensures r.Ok? ==> Checked(crypto, art, staging[id].tree.value.bytes)
      ensures r.Ok? ==> now.fetched == Some(staging[id].tree.value.bytes) && now.unpacks && now.healthy
      ensures old(faults) == [] ==> faults == []
      ensures old(faults) == [] ==> (r.Ok? <==>
        now.fetched.Some? && Checked(crypto, art, now.fetched.value) && now.unpacks && now.healthy)
      ensures OneFailsAtMost(old(faults)) ==> OneFailsAtMost(faults) && r != Err(Stopped)
      ensures Surely(5, old(faults)) && now.fetched.Some? && Checked(crypto, art, now.fetched.value) && now.unpacks && now.healthy ==>
        r.Ok? && Past(5, old(faults), faults)
    {
      hide Checked, NoneFails, OneFailsAtMost, LastFails;
      var _ :- Step(); // the download file
      match now.fetched
      case None => return Err(FetchFailed);
      case Some(bytes) =>
        staging := staging[id := Staged(Some(bytes), None)];
        var _ :- Step(); // synced
        var _ :- CheckDownload(art, bytes);
        var _ :- Step(); // unpacking
        if !now.unpacks {
          return Err(UnpackFailed);
        }
        staging := staging[id := Staged(Some(bytes), Some(Tree(comp.version, art, bytes)))];
        if !now.healthy {
          return Err(HealthFailed);
        }
        return Ok(());
    }

    method MakeComponentDir(st: StoreState, name: string) returns (r: Result<(), Error>)
      requires Inv() && st == State()
      modifies `faults, `versions
      ensures Inv() && CurrentUntouched(old(versions), versions, st.components, name)
      ensures forall other :: Dirs(versions, other) == Dirs(old(versions), other)
      ensures r.Ok? ==> name in versions
      ensures r.Err? ==> r.error in {Io, Stopped} && old(faults) != []
      ensures old(faults) == [] ==> faults == []
      ensures OneFailsAtMost(old(faults)) ==> OneFailsAtMost(faults) && r != Err(Stopped)
      ensures Surely(1, old(faults)) ==> r.Ok? && Past(1, old(faults), faults)
    {
      hide AllSound, AllKept, CurrentUntouched, TreesFrom, RecordsFrom, NoneFails, OneFailsAtMost, LastFails;
      NothingRemoved(crypto, versions, st.components, name);
      FewerTrees(used, versions, name, "");
      var _ :- Step();
      if name !in versions {
        versions := versions[name := map[]];
      }
      return Ok(());
    }

    /** Frees the directory a new version goes to: an unreferenced leftover or the previous version
        is removed, the current one never. */
    method FreeTarget(st: StoreState, name: string, dir: string) returns (r: Result<(), Error>)
      requires Inv() && st == State() && name in versions
      modifies `faults, `versions
      ensures r != Err(UnknownComponent) && r != Err(NoArtifactForPlatform)
      ensures Inv() && CurrentUntouched(old(versions), versions, st.components, name)
      ensures r.Ok? ==> versions == old(versions)[name := Dirs(old(versions), name) - {dir}]
      ensures r.Ok? ==> !IsCurrent(st.components, name, dir)
      ensures r.Err? ==> versions == old(versions)
      ensures r == Err(Stopped) ==> old(faults) != []
      ensures old(faults) == [] ==> faults == [] && (r.Ok? <==> FreePlace(old(versions), st, name, dir))
      ensures OneFailsAtMost(old(faults)) ==> OneFailsAtMost(faults) && r != Err(Stopped)
      ensures Surely(1, old(faults)) && FreePlace(old(versions), st, name, dir) && IsTree(old(versions), name, dir) ==>
        r.Ok? && Past(1, old(faults), faults)
    {
      hide AllSound, AllKept, CurrentUntouched, TreesFrom, RecordsFrom, NoneFails, OneFailsAtMost, LastFails;
      FewerTrees(used, versions, name, dir);
      NothingRemoved(crypto, versions, st.components, name);
      CurrentStands(versions, st.components, name, dir);
      if dir in versions[name] {
        if name in st.components && st.components[name].current.dir == dir {
          return Err(AlreadyCurrent);
        }
        EntryRemoved(crypto, versions, st.components, name, dir);
        r := RemoveVersion(name, dir);
        return;
      }
      assert versions[name] - {dir} == versions[name];
      return Ok(());
    }

    /** Not committed: the new tree is removed again unless the state still refers to its place. */
    method Undo(st: StoreState, name: string, dir: string, e: Error) returns (r: Error)
      requires Inv() && st == State() && !IsCurrent(st.components, name, dir)
      modifies `faults, `versions
      ensures Inv() && CurrentUntouched(old(versions), versions, st.components, name)
      ensures r == e || r == Stopped
      ensures e == Stopped || dir in Kept(st, name) ==> r == e && versions == old(versions) && faults == old(faults)
      ensures versions == old(versions) || versions == old(versions)[name := Dirs(old(versions), name) - {dir}]
      ensures NoneFails(old(faults)) && e != Stopped && dir !in Kept(st, name) && IsTree(old(versions), name, dir) ==>
        dir !in Dirs(versions, name)
      ensures OneFailsAtMost(old(faults)) ==> OneFailsAtMost(faults) && r == e
    {
      hide AllSound, AllKept, CurrentUntouched, Monotone, TreesFrom, RecordsFrom, NoneFails, OneFailsAtMost, LastFails;
      FewerTrees(used, versions, name, dir);
      NothingRemoved(crypto, versions, st.components, name);
      r := e;
      if e != Stopped && dir !in Kept(st, name) {
        EntryRemoved(crypto, versions, st.components, name, dir);
        var removed := RemoveVersion(name, dir);
        r := if removed == Err(Stopped) then Stopped else e;
      }
    }

    /** Committed: the version that fell off is removed, if it can be. */
    method DropOld(st: StoreState, name: string, v: InstalledVersion) returns (r: Result<InstalledVersion, Error>)
      requires Inv() && State() == Committed(st, name, v)
      requires AllKept(versions, st.components) && !IsCurrent(st.components, name, v.dir)
      modifies `faults, `versions
      ensures Inv() && CurrentUntouched(old(versions), versions, st.components, name)
      ensures r == Ok(v) || r == Err(Stopped)
      ensures forall e :: old(Holds(versions, name, v.dir, e)) ==> Holds(versions, name, v.dir, e)
      ensures old(faults) == [] ==> r.Ok? && faults == []
      ensures old(faults) == [] && old(AllIn(Dirs(versions, name), Kept(st, name) + {v.dir}) && KeptAreTrees(versions, st, name)) ==>
        AllIn(Dirs(versions, name), Kept(State(), name))
      ensures OneFailsAtMost(old(faults)) ==> OneFailsAtMost(faults) && r.Ok?
    {
      hide AllSound, AllKept, CurrentUntouched, Monotone, TreesFrom, RecordsFrom, NoneFails, OneFailsAtMost, LastFails;
      NothingRemoved(crypto, versions, st.components, name);
      if name in st.components {
        var o := st.components[name];
        if o.previous.Some? && o.previous.value.dir != v.dir && o.previous.value.dir != o.current.dir {
          FewerTrees(used, versions, name, o.previous.value.dir);
          EntryRemoved(crypto, versions, State().components, name, o.previous.value.dir);
          EntryRemoved(crypto, versions, st.components, name, o.previous.value.dir);
          var removed := RemoveVersion(name, o.previous.value.dir);
          if removed == Err(Stopped) {
            return Err(Stopped);
          }
        }
      }
      return Ok(v);
    }

    method RenameTree(st: StoreState, name: string, dir: string, id: nat) returns (r: Result<(), Error>)
      requires Inv() && st == State() && name in versions && !IsCurrent(st.components, name, dir)
      requires id in staging && staging[id].tree.Some? && staging[id].tree.value.Tree?
      requires Sound(crypto, dir, staging[id].tree.value)
      requires Origin(name, staging[id].tree.value.version, staging[id].tree.value.artifact.sha256) in used
      modifies `faults, `versions, `staging
      ensures r != Err(UnknownComponent) && r != Err(NoArtifactForPlatform)
      ensures Inv() && CurrentUntouched(old(versions), versions, st.components, name) && OnlyStaged(old(staging), staging, id)
      ensures if r.Ok? then versions == old(versions)[name := old(versions)[name][dir := old(staging)[id].tree.value]]
              else versions == old(versions) && old(faults) != []
      ensures old(faults) == [] ==> faults == []
      ensures OneFailsAtMost(old(faults)) ==> OneFailsAtMost(faults) && r != Err(Stopped)
      ensures Surely(1, old(faults)) ==> r.Ok? && Past(1, old(faults), faults)
      ensures LastFails(old(faults)) && |old(faults)| == 1 ==> r == Err(Io) && faults == []
    {
      hide AllSound, AllKept, CurrentUntouched, Sound, Monotone, IsCurrent, TreesFrom, RecordsFrom;
      hide NoneFails, OneFailsAtMost, LastFails;
      LastOneFails(faults);
      NothingRemoved(crypto, versions, st.components, name);
      var _ :- Step(); // the rename
      var tree := staging[id].tree.value;
      EntryAdded(crypto, versions, st.components, name, dir, tree);
      OneMoreTree(used, versions, name, dir, tree);
      versions := versions[name := versions[name][dir := tree]];
      staging := staging[id := staging[id].(tree := None)];
      return Ok(());
    }

    /** Renames the unpacked tree into its free place. */
    method PlaceTree(st: StoreState, name: string, dir: string, id: nat) returns (r: Result<(), Error>)
      requires Inv() && st == State() && name in versions
      requires id in staging && staging[id].tree.Some? && staging[id].tree.value.Tree?
      requires Sound(crypto, dir, staging[id].tree.value)
      requires Origin(name, staging[id].tree.value.version, staging[id].tree.value.artifact.sha256) in used
      modifies `faults, `versions, `staging
      ensures r != Err(UnknownComponent) && r != Err(NoArtifactForPlatform)
      ensures Inv() && CurrentUntouched(old(versions), versions, st.components, name) && OnlyStaged(old(staging), staging, id)
      ensures r.Ok? ==> !IsCurrent(st.components, name, dir)
      ensures r.Ok? ==> versions == old(versions)[name := Dirs(old(versions), name)[dir := old(staging)[id].tree.value]]
      ensures r.Err? && old(faults) == [] ==> Dirs(versions, name) == Dirs(old(versions), name)
      ensures r == Err(Stopped) ==> old(faults) != []
      ensures old(faults) == [] ==> (r.Ok? <==> FreePlace(old(versions), st, name, dir))
      ensures old(faults) == [] ==> faults == []
      ensures r.Err? ==> versions == old(versions) || versions == old(versions)[name := Dirs(old(versions), name) - {dir}]
      ensures OneFailsAtMost(old(faults)) ==> OneFailsAtMost(faults) && r != Err(Stopped)
      ensures FreePlace(old(versions), st, name, dir) && IsTree(old(versions), name, dir) ==>
        && (Surely(2, old(faults)) ==> r.Ok? && Past(2, old(faults), faults))
        && (LastFails(old(faults)) && |old(faults)| == 2 ==> r == Err(Io) && faults == [] && dir !in Dirs(versions, name))
    {
      hide AllSound, AllKept, CurrentUntouched, Sound, Monotone, IsCurrent, FreePlace, TreesFrom, RecordsFrom;
      hide NoneFails, OneFailsAtMost, LastFails;
      var _ :- FreeTarget(st, name, dir);
      ghost var freed := versions;
      r := RenameTree(st, name, dir, id);
      UntouchedTwice(old(versions), freed, versions, st.components, name);
      ghost var tree := old(staging)[id].tree.value;
      assert (Dirs(old(versions), name) - {dir})[dir := tree] == Dirs(old(versions), name)[dir := tree];
    }

    /** Rewrites the state file for a tree that is in place; undoes or cleans up afterwards. */
    method Commit(st: StoreState, name: string, v: InstalledVersion) returns (r: Result<InstalledVersion, Error>)
      requires Inv() && st == State() && stateFile.Recorded?
      requires RecordOk(v) && !IsCurrent(st.components, name, v.dir) && IsTree(versions, name, v.dir)
      requires Origin(name, v.version, v.sha256) in used
      modifies `faults, `versions, `stateFile, `seen
      ensures r != Err(UnknownComponent) && r != Err(NoArtifactForPlatform)
      ensures Inv() && old(seen) <= seen
      ensures CurrentUntouched(old(versions), versions, st.components, name)
      ensures r.Ok? ==> r.value == v && State() == Committed(st, name, v)
      ensures forall e :: r.Ok? && old(Holds(versions, name, v.dir, e)) ==> Holds(versions, name, v.dir, e)
      ensures r.Err? ==>
        || (State() == st && (versions == old(versions)
             || (v.dir !in Kept(st, name) && versions == old(versions)[name := Dirs(old(versions), name) - {v.dir}])))
        || (r.error == Stopped && old(faults) != [] && State() == Committed(st, name, v))
      ensures r == Err(Stopped) ==> old(faults) != []
      ensures old(faults) == [] ==> r.Ok? && faults == []
      ensures OneFailsAtMost(old(faults)) ==> OneFailsAtMost(faults) && r != Err(Stopped)
      ensures OneFailsAtMost(old(faults)) && r.Err? && v.dir !in Kept(st, name) ==> v.dir !in Dirs(versions, name)
      ensures old(faults) == [] && old(AllIn(Dirs(versions, name), Kept(st, name) + {v.dir}) && KeptAreTrees(versions, st, name)) ==>
        AllIn(Dirs(versions, name), Kept(State(), name))
      ensures LastFails(old(faults)) && |old(faults)| <= 3 && v.dir in Kept(st, name) ==>
        r == Err(Io) && State() == st && faults == [] && versions == old(versions)
    {
      hide AllSound, AllKept, CurrentUntouched, Monotone, TreesFrom, RecordsFrom, NoneFails, OneFailsAtMost, LastFails;
      CommittedIsKept(versions, st, name, v);
      CommittedFrom(used, st, name, v);
      var written := WriteState(Committed(st, name, v));
      if written.Err? {
        var reported := Undo(st, name, v.dir, written.error);
        return Err(reported);
      }
      r := DropOld(st, name, v);
    }

    /** Swaps a checked tree in: rename it into place, then rewrite the state file. Until that the
        old version is current and untouched. */
    method Swap(st: StoreState, vm: Verified, comp: Component, art: Artifact, platform: string, id: nat, now: nat)
      returns (r: Result<InstalledVersion, Error>)
      requires Inv() && st == State() && stateFile.Recorded? && comp.name in versions
      requires id in staging && staging[id].tree.Some? && staging[id].tree.value.Tree?
      requires staging[id].tree.value.version == comp.version && staging[id].tree.value.artifact == art
      requires Checked(crypto, art, staging[id].tree.value.bytes)
      requires Origin(comp.name, comp.version, art.sha256) in used
      modifies `faults, `versions, `staging, `stateFile, `seen
      ensures r != Err(UnknownComponent) && r != Err(NoArtifactForPlatform)
      ensures Inv() && old(seen) <= seen && OnlyStaged(old(staging), staging, id)
      ensures CurrentUntouched(old(versions), versions, st.components, comp.name)
      ensures r.Ok? ==> State() == Committed(st, comp.name, r.value) && !IsCurrent(st.components, comp.name, r.value.dir)
      ensures r.Ok? ==> r.value.(dir := "") ==
                        InstalledVersion(comp.version, art.sha256, "", platform, now, vm.document.sequence)
      ensures r.Ok? ==> Holds(versions, comp.name, r.value.dir, old(staging)[id].tree.value)
      ensures r.Err? ==>
        || (State() == st && TreesStand(old(versions), versions, Origin(comp.name, comp.version, art.sha256)))
        || (r.error == Stopped && old(faults) != [] && IsCommitOf(st, Origin(comp.name, comp.version, art.sha256), State()))
      ensures r == Err(Stopped) ==> old(faults) != []
      ensures old(faults) == [] ==> faults == []
      ensures OneFailsAtMost(old(faults)) ==> OneFailsAtMost(faults) && r != Err(Stopped)
      ensures OneFailsAtMost(old(faults)) && r.Err? && old(CleanFor(versions, st, comp.name)) ==>
        CleanFor(versions, State(), comp.name)
      ensures old(faults == [] && CleanFor(versions, st, comp.name)) ==> CleanFor(versions, State(), comp.name)
      ensures old(faults) == [] ==>
        (r.Ok? <==> HexStart(art.sha256) && FreePlace(old(versions), st, comp.name, DirName(comp.version, art.sha256)))
      ensures LastFails(old(faults)) && 2 <= |old(faults)| <= 5 && HexStart(art.sha256)
              && Replaces(old(versions), st, comp.name, DirName(comp.version, art.sha256)) ==>
        && r == Err(Io) && State() == st && faults == []
        && HalfSwapped(old(|faults|) == 2, versions, comp.name,
             DirName(comp.version, art.sha256), old(staging)[id].tree.value)
    {
      hide AllSound, AllKept, CurrentUntouched, Checked, Monotone, FreePlace, TreesFrom, RecordsFrom;
      hide NoneFails, OneFailsAtMost, LastFails, TreesStand, AllIn, KeptAreTrees, Names;
      NothingRemoved(crypto, versions, st.components, comp.name);
      ghost var o, tree := Origin(comp.name, comp.version, art.sha256), staging[id].tree.value;
      NoTreeGone(versions, versions, st, o);
      if !HexStart(art.sha256) {
        return Err(ManifestMalformed);
      }
      var name, dir := comp.name, DirName(comp.version, art.sha256);
      var placed := PlaceTree(st, name, dir, id);
      if placed.Err? {
        SwapFailed(old(versions), versions, st, o, dir, tree);
        return Err(placed.error);
      }
      var v := InstalledVersion(comp.version, art.sha256, dir, platform, now, vm.document.sequence);
      assert RecordOk(v);
      ghost var swapped := versions;
      PlacedIsClean(old(versions), swapped, st, name, dir, tree);
      r := Commit(st, name, v);
      UntouchedTwice(old(versions), swapped, versions, st.components, name);
      if r.Ok? {
        CommittedAreTrees(old(versions), versions, st, name, v);
      } else if versions == swapped || versions == swapped[name := Dirs(swapped, name) - {dir}] {
        SwapFailed(old(versions), versions, st, o, dir, tree);
      }
    }

    // --- one install ----------------------------------------------------------------------------

    method NewStaging(id: nat) returns (r: Result<(), Error>)
      modifies `faults, `staging
      ensures r.Ok? ==> id !in old(staging) && staging == old(staging)[id := Staged(None, None)]
      ensures r.Err? ==> staging == old(staging)
      ensures r.Err? ==> r.error == Io || (r.error == Stopped && old(faults) != [])
      ensures old(faults) == [] ==> faults == [] && (r.Ok? <==> id !in old(staging))
      ensures OneFailsAtMost(old(faults)) ==> OneFailsAtMost(faults) && r != Err(Stopped)
      ensures Surely(1, old(faults)) && id !in old(staging) ==> r.Ok? && Past(1, old(faults), faults)
    {
      hide NoneFails, OneFailsAtMost, LastFails;
      var _ :- Step();
      if id in staging {
        return Err(Io);
      }
      staging := staging[id := Staged(None, None)];
      return Ok(());
    }

    lemma NothingDone(name: string)
      requires Inv()
      ensures CurrentUntouched(versions, versions, State().components, name) && AllKept(versions, State().components)
      ensures !stateFile.Damaged?
    {
      hide AllSound, AllKept, CurrentUntouched, Monotone, TreesFrom, RecordsFrom;
      NothingRemoved(crypto, versions, State().components, name);
    }

    method RemoveStaging(id: nat) returns (stopped: bool)
      modifies `faults, `staging
      ensures staging == old(staging) - {id} || staging == old(staging)
      ensures old(faults) == [] ==> faults == [] && staging == old(staging) - {id} && !stopped
      ensures OneFailsAtMost(old(faults)) ==> !stopped
    {
      hide NoneFails, OneFailsAtMost, LastFails;
      var removed := Step();
      if removed.Ok? {
        staging := staging - {id};
      }
      return removed == Err(Stopped);
    }

    /** Stages, then swaps. */
    method StageAndSwap(st: StoreState, vm: Verified, comp: Component, art: Artifact, platform: string, now: Circumstances)
      returns (r: Result<InstalledVersion, Error>)
      requires Inv() && st == State() && stateFile.Recorded? && now.stagingId in staging && art.size <= MAX_ARTIFACT_BYTES
      requires Origin(comp.name, comp.version, art.sha256) in used
      modifies `faults, `versions, `staging, `stateFile, `seen
      ensures r != Err(UnknownComponent) && r != Err(NoArtifactForPlatform)
      ensures Inv() && old(seen) <= seen && OnlyStaged(old(staging), staging, now.stagingId)
      ensures CurrentUntouched(old(versions), versions, st.components, comp.name)
      ensures r.Ok? ==> State() == Committed(st, comp.name, r.value) && now.fetched.Some?
      ensures r.Ok? ==> r.value.(dir := "") ==
                        InstalledVersion(comp.version, art.sha256, "", platform, now.now, vm.document.sequence)
      ensures r.Ok? ==> Holds(versions, comp.name, r.value.dir, Tree(comp.version, art, now.fetched.value))
      ensures r.Err? ==>
        || (State() == st && TreesStand(old(versions), versions, Origin(comp.name, comp.version, art.sha256)))
        || (r.error == Stopped && old(faults) != [] && IsCommitOf(st, Origin(comp.name, comp.version, art.sha256), State()))
      ensures r == Err(Stopped) ==> old(faults) != []
      ensures old(faults) == [] ==> faults == []
      ensures OneFailsAtMost(old(faults)) ==> OneFailsAtMost(faults) && r != Err(Stopped)
      ensures OneFailsAtMost(old(faults)) && r.Err? && old(CleanFor(versions, st, comp.name)) ==>
        CleanFor(versions, State(), comp.name)
      ensures old(faults == [] && CleanFor(versions, st, comp.name)) ==> CleanFor(versions, State(), comp.name)
      ensures old(faults) == [] ==> (r.Ok? <==> GoesThrough(crypto, st, old(versions), comp, art, now))
      ensures LastFails(old(faults)) && 8 <= |old(faults)| <= 11 && Reinstalls(crypto, st, old(versions), comp, art, now) ==>
        && r == Err(Io) && State() == st && faults == []
        && HalfSwapped(old(|faults|) == 8, versions, comp.name,
             DirName(comp.version, art.sha256), Tree(comp.version, art, now.fetched.value))
    {
      hide AllSound, AllKept, CurrentUntouched, Checked, Monotone, CleanFor, FreePlace, TreesFrom, RecordsFrom;
      hide NoneFails, OneFailsAtMost, LastFails, TreesStand;
      ghost var o := Origin(comp.name, comp.version, art.sha256);
      NothingRemoved(crypto, versions, st.components, comp.name);
      NoTreeGone(versions, versions, st, o);
      var _ :- Stage(now.stagingId, comp, art, now);
      var made := MakeComponentDir(st, comp.name);
      ghost var prepared := versions;
      OnlyEntriesMatter(old(versions), prepared, st, comp.name);
      NoTreeGone(old(versions), prepared, st, o);
      var _ :- made;
      r := Swap(st, vm, comp, art, platform, now.stagingId, now.now);
      UntouchedTwice(old(versions), prepared, versions, st.components, comp.name);
      if r.Err? && State() == st && TreesStand(prepared, versions, o) {
        TreesStandTwice(old(versions), prepared, versions, o);
      }
    }

    /** A staging directory, the new version, and the staging directory removed again. */
    method Attempt(st: StoreState, vm: Verified, comp: Component, art: Artifact, platform: string, now: Circumstances)
      returns (r: Result<InstalledVersion, Error>)
      requires Inv() && st == State() && stateFile.Recorded? && art.size <= MAX_ARTIFACT_BYTES
      requires Origin(comp.name, comp.version, art.sha256) in used
      modifies `faults, `versions, `staging, `stateFile, `seen
      ensures r != Err(UnknownComponent) && r != Err(NoArtifactForPlatform)
      ensures Inv() && old(seen) <= seen
      ensures CurrentUntouched(old(versions), versions, st.components, comp.name)
      ensures r.Ok? ==> State() == Committed(st, comp.name, r.value) && now.fetched.Some?
      ensures r.Ok? ==> r.value.(dir := "") ==
                        InstalledVersion(comp.version, art.sha256, "", platform, now.now, vm.document.sequence)
      ensures r.Ok? ==> Holds(versions, comp.name, r.value.dir, Tree(comp.version, art, now.fetched.value))
      ensures r.Err? ==>
        || (State() == st && TreesStand(old(versions), versions, Origin(comp.name, comp.version, art.sha256)))
        || (r.error == Stopped && IsCommitOf(st, Origin(comp.name, comp.version, art.sha256), State()))
      ensures old(faults) == [] ==> faults == [] && staging == old(staging)
      ensures old(faults == [] && AllClean(versions, st)) ==> AllClean(versions, State())
      ensures OneFailsAtMost(old(faults)) && r.Err? && old(AllClean(versions, st)) ==> AllClean(versions, State())
      ensures old(faults) == [] ==>
        (r.Ok? <==> now.stagingId !in old(staging) && GoesThrough(crypto, st, old(versions), comp, art, now))
      ensures LastFails(old(faults)) && 9 <= |old(faults)| <= 12 && now.stagingId !in old(staging)
              && Reinstalls(crypto, st, old(versions), comp, art, now) ==>
        && r == Err(Io) && State() == st && faults == [] && staging == old(staging)
        && HalfSwapped(old(|faults|) == 9, versions, comp.name,
             DirName(comp.version, art.sha256), Tree(comp.version, art, now.fetched.value))
    {
      hide AllSound, AllKept, CurrentUntouched, Checked, Monotone, CleanFor, AllClean, Holds, GoesThrough, OnlyStaged;
      hide TreesFrom, RecordsFrom, NoneFails, OneFailsAtMost, LastFails, TreesStand, Reinstalls, HalfSwapped, Inv, Kept;
      NothingDone(comp.name);
      InstallIsClean(versions, versions, st, st, comp.name);
      NoTreeGone(versions, versions, st, Origin(comp.name, comp.version, art.sha256));
      var _ :- NewStaging(now.stagingId);
      ghost var prepared := staging;
      r := StageAndSwap(st, vm, comp, art, platform, now);
      StagingRestored(old(staging), prepared, staging, now.stagingId);
      InstallIsClean(old(versions), versions, st, State(), comp.name);
      if r == Err(Stopped) {
        return;
      }
      var stopped := RemoveStaging(now.stagingId);
      if stopped {
        r := Err(Stopped);
      }
    }

    /** Installs the chosen artifact of a recorded manifest. */
    method InstallChosen(st: StoreState, vm: Verified, name: string, platform: string, now: Circumstances)
      returns (r: Result<InstalledVersion, Error>)
      requires Inv() && st == State() && stateFile.Recorded? && IsValid(crypto, vm.document)
      requires Find(vm.document.components, name).Some?
      requires ArtifactFor(Find(vm.document.components, name).value, platform).Some?
      modifies `faults, `versions, `staging, `stateFile, `seen, `used
      ensures r != Err(UnknownComponent) && r != Err(NoArtifactForPlatform)
      ensures Inv() && old(seen) <= seen
      ensures used == old(used) + Planned(vm, name, platform)
      ensures CurrentUntouched(old(versions), versions, st.components, name)
      ensures r.Ok? ==>
        IsCommit(st, name, State()) && State().components[name].current == r.value && AlreadyThere(vm, name, platform, State())
      ensures r.Ok? ==> InstalledFrom(vm, name, platform, now, r.value, versions)
      ensures r.Err? ==>
        || (State() == st && exists o :: o in Planned(vm, name, platform) && o.name == name && TreesStand(old(versions), versions, o))
        || (r.error == Stopped && IsCommit(st, name, State()) && AlreadyThere(vm, name, platform, State()))
      ensures old(faults) == [] ==> faults == [] && staging == old(staging)
      ensures old(faults == [] && AllClean(versions, st)) ==> AllClean(versions, State())
      ensures OneFailsAtMost(old(faults)) && r.Err? && old(AllClean(versions, st)) ==> AllClean(versions, State())
      ensures
        var comp := Find(vm.document.components, name).value;
        var art := ArtifactFor(comp, platform).value.1;
        && (old(faults) == [] ==> (r.Ok? <==> now.stagingId !in old(staging) && GoesThrough(crypto, st, old(versions), comp, art, now)))
        && (LastFails(old(faults)) && 9 <= |old(faults)| <= 12 && now.stagingId !in old(staging)
              && Reinstalls(crypto, st, old(versions), comp, art, now) ==>
              && r == Err(Io) && State() == st && faults == [] && staging == old(staging)
              && HalfSwapped(old(|faults|) == 9, versions, comp.name,
                   DirName(comp.version, art.sha256), Tree(comp.version, art, now.fetched.value)))
    {
      hide AllSound, AllKept, CurrentUntouched, Checked, Monotone, RecordOk, IsValid, AllClean, NoneFails;
      hide OneFailsAtMost, LastFails;
      hide Holds, GoesThrough, SignatureOk, Kept, Dirs, Find, ArtifactFor, TreesFrom, RecordsFrom;
      hide TreesStand, HalfSwapped;
      var comp := Find(vm.document.components, name).value;
      var (usedPlatform, art) := ArtifactFor(comp, platform).value;
      ChosenIsOk(crypto, vm, name, platform);
      assert Origin(name, comp.version, art.sha256) in Planned(vm, name, platform);
      MoreOrigins(used, Planned(vm, name, platform), versions, st.components);
      used := used + Planned(vm, name, platform);
      r := Attempt(st, vm, comp, art, usedPlatform, now);
    }

    /** Chooses what a manifest offers and records the manifest, so that older ones stay out whatever
        becomes of the install. */
    method Choose(vm: Verified, name: string, platform: string) returns (r: Result<StoreState, Error>)
      requires Inv()
      modifies `faults, `stateFile, `seen
      ensures Inv() && old(seen) <= seen
      ensures r.Ok? ==> r.value == State() == Noted(old(State()), vm) && stateFile.Recorded?
      ensures r.Ok? ==> Offers(vm, name, platform, old(State()))
      ensures r.Err? ==> State() == old(State())
      ensures old(faults) == [] ==> faults == [] && (r.Ok? <==> Offers(vm, name, platform, old(State())))
      ensures old(faults) == [] && !SequenceOk(old(State()).lastManifest, vm.document.sequence, vm.digest) ==>
        r == Err(ManifestRollback)
      ensures r.Err? && IsMissing(r.error) ==> MissingFrom(vm, name, platform, r.error)
      ensures old(faults) == [] && SequenceOk(old(State()).lastManifest, vm.document.sequence, vm.digest) ==>
        forall e :: MissingFrom(vm, name, platform, e) ==> r == Err(e)
      ensures OneFailsAtMost(old(faults)) ==> OneFailsAtMost(faults)
      ensures Surely(4, old(faults)) && Offers(vm, name, platform, old(State())) ==> r.Ok? && Past(4, old(faults), faults)
    {
      hide AllSound, AllKept, Monotone, TreesFrom, RecordsFrom, Find, ArtifactFor, SequenceOk, NoneFails;
      hide OneFailsAtMost, LastFails;
      var st :- ReadState();
      if !SequenceOk(st.lastManifest, vm.document.sequence, vm.digest) {
        return Err(ManifestRollback);
      }
      var comp := Find(vm.document.components, name);
      if comp.None? {
        return Err(UnknownComponent);
      }
      ChosenIsListed(comp.value, platform);
      if ArtifactFor(comp.value, platform).None? {
        return Err(NoArtifactForPlatform);
      }
      st := Noted(st, vm);
      var _ :- WriteState(st);
      return Ok(st);
    }

    /** Installs one component of a verified manifest. The manifest is recorded before anything
        else, and whatever fails, the current version stays in place until the new one is recorded.
        The previous version stays too, unless the install was to take its place and did not end
        well. Calls 13 to 16 are the rename and the three that write the state file. */
    method Install(vm: Verified, name: string, platform: string, now: Circumstances)
      returns (r: Result<InstallOutcome, Error>)
      requires Inv() && Trusted(crypto, vm)
      modifies `faults, `versions, `staging, `stateFile, `seen, `used
      ensures Inv() && old(seen) <= seen
      ensures old(used) <= used <= old(used) + Planned(vm, name, platform)
      ensures CurrentUntouched(old(versions), versions, old(State()).components, name)
      ensures PreviousKept(old(versions), old(State()), versions, State(), name,
        r.Err? && State().components == old(State()).components && TakesPreviousPlace(vm, name, platform, old(State())))
      ensures r.Ok? ==> SequenceOk(old(State()).lastManifest, vm.document.sequence, vm.digest)
      ensures r.Ok? ==> AlreadyThere(vm, name, platform, State())
      ensures r.Ok? ==> r.value == Reported(old(State()), State(), name, AlreadyThere(vm, name, platform, old(State())))
      ensures r.Ok? ==> RecordsListed(vm, name, platform, State().components[name].current)
      ensures r.Ok? && r.value.InstalledNow? ==>
        InstallsListed(vm, name, platform, now, State().components[name].current, versions)
      ensures r.Err? && IsMissing(r.error) ==> MissingFrom(vm, name, platform, r.error)
      ensures old(faults) == [] && SequenceOk(old(State()).lastManifest, vm.document.sequence, vm.digest) ==>
        forall e :: MissingFrom(vm, name, platform, e) ==> r == Err(e)
      ensures r.Ok? && r.value.WasCurrent? ==> State() == Noted(old(State()), vm)
      ensures r.Ok? && r.value.InstalledNow? ==>
        && IsCommit(Noted(old(State()), vm), name, State())
        && InstalledFrom(vm, name, platform, now, State().components[name].current, versions)
      ensures r.Err? ==>
        || State() == old(State()) || State() == Noted(old(State()), vm)
        || (r.error == Stopped && IsCommit(Noted(old(State()), vm), name, State()) && AlreadyThere(vm, name, platform, State()))
      ensures old(faults) == [] ==> faults == [] && staging == old(staging)
      ensures old(faults) == [] && !SequenceOk(old(State()).lastManifest, vm.document.sequence, vm.digest) ==>
        r == Err(ManifestRollback) && State() == old(State())
      ensures old(faults == [] && Clean(versions, staging, State())) ==> Clean(versions, staging, State())
      ensures OneFailsAtMost(old(faults)) && r.Err? && old(AllClean(versions, State())) ==> AllClean(versions, State())
      ensures old(faults) == [] && r.Ok? && r.value.InstalledNow? ==>
        Installable(crypto, vm, name, platform, old(State()), old(versions), now)
      ensures old(faults) == [] && now.stagingId !in old(staging) && Installable(crypto, vm, name, platform, old(State()), old(versions), now) ==>
        r.Ok?
      ensures LastFails(old(faults)) && 13 <= |old(faults)| <= 16 && now.stagingId !in old(staging)
              && ReplacesPrevious(crypto, vm, name, platform, old(State()), old(versions), now) ==>
        && r == Err(Io) && State() == Noted(old(State()), vm) && faults == [] && staging == old(staging)
        && PreviousHalfSwapped(old(|faults|) == 13, versions, State(), name, PlannedTree(vm, name, platform, now))
    {
      hide AllSound, AllKept, CurrentUntouched, Checked, Monotone, RecordOk, IsValid, AllClean, NoneFails;
      hide OneFailsAtMost, LastFails;
      hide Holds, GoesThrough, SignatureOk, Kept, Dirs, Find, ArtifactFor, SequenceOk, TreesFrom;
      hide RecordsFrom, InstalledFrom;
      hide TreesStand, PreviousKept, TakesPreviousPlace, HalfSwapped, PreviousHalfSwapped, ReplacesPrevious;
      hide Reinstalls, PlannedTree, Inv, RecordsListed, InstallsListed, IsListed, MissingFrom;
      NothingDone(name);
      ghost var before := State();
      NotedIsClean(versions, before, vm);
      SamePrevious(versions, before, vm, name, false);
      SamePrevious(versions, before, vm, name, TakesPreviousPlace(vm, name, platform, before));
      ReplacedAsPlanned(crypto, vm, name, platform, before, versions, now);
      var st :- Choose(vm, name, platform);
      var comp := Find(vm.document.components, name).value;
      var (_, art) := ArtifactFor(comp, platform).value;
      if name in st.components && st.components[name].current.version == comp.version
         && st.components[name].current.sha256 == art.sha256 {
        RecordedIsListed(vm, name, platform, st);
        return Ok(WasCurrent(comp.version));
      }
      var installed := InstallChosen(st, vm, name, platform, now);
      PreviousAfter(old(versions), versions, before, State(), vm, name, platform);
      var v :- installed;
      InstalledIsListed(vm, name, platform, now, v, versions);
      RecordedIsListed(vm, name, platform, State());
      return Ok(InstalledNow(v.version, if name in st.components then Some(st.components[name].current.version) else None));
    }

    // --- rollback and recovery --------------------------------------------------------------------

    /** Makes the previous version current and the current one previous. */
    method Rollback(name: string) returns (r: Result<InstalledVersion, Error>)
      requires Inv()
      modifies `faults, `stateFile, `seen
      ensures Inv() && old(seen) <= seen
      ensures r.Ok? ==> CanRollBack(old(State()), name) && State() == RolledBack(old(State()), name)
      ensures r.Ok? ==> r.value == State().components[name].current
      ensures r.Err? ==> State() == old(State())
      ensures old(faults) == [] ==> faults == []
      ensures old(faults) == [] ==>
        (r.Ok? <==> CanRollBack(old(State()), name) && IsTree(versions, name, old(State()).components[name].previous.value.dir))
    {
      hide AllSound, AllKept, Monotone, TreesFrom, RecordsFrom;
      var st :- ReadState();
      if name !in st.components || st.components[name].previous.None? {
        return Err(NoPrevious);
      }
      var prev := st.components[name].previous.value;
      if !IsTree(versions, name, prev.dir) {
        return Err(NoPrevious);
      }
      RolledBackIsKept(versions, st, name);
      RolledBackFrom(used, st, name);
      var _ :- WriteState(RolledBack(st, name));
      return Ok(prev);
    }

    /** Clears every staging directory. */
    method ClearStaging() returns (r: Result<nat, Error>)
      modifies `faults, `staging
      ensures r.Ok? ==> staging == map[] && r.value == |old(staging)|
      ensures old(faults) == [] ==> r.Ok? && faults == []
    {
      var _ :- Step(); // listing the directory
      r := Ok(0);
      while staging != map[]
        invariant r.Ok? && r.value + |staging| == |old(staging)|
        invariant old(faults) == [] ==> faults == []
        decreases |staging|
      {
        var id :| id in staging;
        var _ :- Step();
        assert staging == (staging - {id})[id := staging[id]];
        staging := staging - {id};
        r := Ok(r.value + 1);
      }
    }

    /** Removes one entry the state does not keep, a directory or a file. */
    method RemoveEntry(st: StoreState, name: string, dir: string) returns (r: Result<(), Error>)
      requires Inv() && st == State() && dir in Dirs(versions, name) && dir !in Kept(st, name)
      modifies `faults, `versions
      ensures Inv() && KeptSame(old(versions), versions, st)
      ensures r.Ok? ==> versions == old(versions)[name := old(versions)[name] - {dir}]
      ensures r.Ok? ==> |Leftovers(versions, st)| + 1 == |Leftovers(old(versions), st)|
      ensures r.Err? ==> versions == old(versions)
      ensures old(faults) == [] ==> r.Ok? && faults == []
    {
      hide AllSound, AllKept, Monotone, Leftovers, KeptSame, Kept, TreesFrom, RecordsFrom;
      SameAsItself(versions, st);
      FewerTrees(used, versions, name, dir);
      var _ :- Step();
      LeftoverRemoved(crypto, versions, st, name, dir);
      versions := versions[name := versions[name] - {dir}];
      return Ok(());
    }

    /** Removes what one component directory holds beyond the versions kept. */
    method ClearComponent(st: StoreState, name: string) returns (r: Result<nat, Error>)
      requires Inv() && st == State() && name in versions
      modifies `faults, `versions
      ensures Inv() && KeptSame(old(versions), versions, st)
      ensures versions.Keys == old(versions).Keys
      ensures forall other :: other in versions && other != name ==> versions[other] == old(versions)[other]
      ensures r.Ok? ==> AllIn(versions[name], Kept(st, name))
      ensures r.Ok? ==> r.value + |Leftovers(versions, st)| == |Leftovers(old(versions), st)|
      ensures old(faults) == [] ==> r.Ok? && faults == []
    {
      hide Inv, Leftovers, KeptSame, Kept;
      SameAsItself(versions, st);
      var keep := Kept(st, name);
      var rest := versions[name].Keys - keep;
      r := Ok(0);
      while rest != {}
        invariant Inv() && KeptSame(old(versions), versions, st)
        invariant versions.Keys == old(versions).Keys
        invariant forall other :: other in versions && other != name ==> versions[other] == old(versions)[other]
        invariant forall dir :: dir in versions[name] ==> dir in keep || dir in rest
        invariant forall dir :: dir in rest ==> dir in versions[name] && dir !in keep
        invariant r.Ok? && r.value + |Leftovers(versions, st)| == |Leftovers(old(versions), st)|
        invariant old(faults) == [] ==> faults == []
        decreases |rest|
      {
        var dir :| dir in rest;
        ghost var before := versions;
        var removed := RemoveEntry(st, name, dir);
        KeptSameTwice(old(versions), before, versions, st);
        var _ :- removed;
        rest := rest - {dir};
        r := Ok(r.value + 1);
      }
    }

    /** Removes every version directory the state does not keep. */
    method ClearVersions(st: StoreState) returns (r: Result<nat, Error>)
      requires Inv() && st == State()
      modifies `faults, `versions
      ensures Inv() && KeptSame(old(versions), versions, st)
      ensures r.Ok? ==> Leftovers(versions, st) == {} && r.value == |Leftovers(old(versions), st)|
      ensures old(faults) == [] ==> r.Ok? && faults == []
    {
      hide Inv, Leftovers, Kept, KeptSame, AllIn;
      SameAsItself(versions, st);
      var _ :- Step(); // listing the directories
      var rest := versions.Keys;
      r := Ok(0);
      while rest != {}
        invariant Inv() && KeptSame(old(versions), versions, st) && versions.Keys == old(versions).Keys
        invariant rest <= versions.Keys
        invariant forall name :: name in versions && name !in rest ==> AllIn(Dirs(versions, name), Kept(st, name))
        invariant r.Ok? && r.value + |Leftovers(versions, st)| == |Leftovers(old(versions), st)|
        invariant old(faults) == [] ==> faults == []
        decreases |rest|
      {
        var name :| name in rest;
        ghost var before := versions;
        var cleared := ClearComponent(st, name);
        KeptSameTwice(old(versions), before, versions, st);
        var removed :- cleared;
        rest := rest - {name};
        r := Ok(r.value + removed);
      }
      NoLeftovers(versions, st);
    }

    /** Run at startup: clears staging and every version directory the state does not keep. */
    method Recover() returns (r: Result<RecoveryReport, Error>)
      requires Inv()
      modifies `faults, `versions, `staging
      ensures Inv() && KeptSame(old(versions), versions, State())
      ensures r.Ok? ==> staging == map[] && Leftovers(versions, State()) == {}
      ensures r.Ok? ==> r.value == RecoveryReport(|old(staging)|, |Leftovers(old(versions), State())|)
      ensures old(faults) == [] ==> r.Ok? && faults == []
    {
      hide AllSound, AllKept, Monotone, Leftovers, KeptSame, TreesFrom, RecordsFrom;
      SameAsItself(versions, State());
      var st :- ReadState();
      var removedStaging :- ClearStaging();
      var removedVersions :- ClearVersions(st);
      return Ok(RecoveryReport(removedStaging, removedVersions));
    }

    /** Recovery is complete: a second one removes nothing. */
    method RecoverTwice() returns (first: Result<RecoveryReport, Error>, second: Result<RecoveryReport, Error>)
      requires Inv()
      modifies `faults, `versions, `staging
      ensures Inv()
      ensures first.Ok? && second.Ok? ==> second.value == RecoveryReport(0, 0)
    {
      first := Recover();
      second := Recover();
    }
  }
}
