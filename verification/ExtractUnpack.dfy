/** Unpacking an archive, taken as its list of entries, into a fresh directory. */
module ExtractUnpack {
  import opened Common
  import opened ExtractPath
  import opened ExtractFs

  const MAX_ENTRIES: nat := 200_000
  const MAX_UNPACKED_BYTES: nat := 0x2_0000_0000

  /** An entry as the archive reader hands it over; text that is not UTF-8 is `None`. */
  datatype Entry =
    | Unreadable
    | Metadata
    | Item(path: Option<string>, kind: Kind)

  datatype Kind =
    | Directory
    | Regular(len: nat, readable: bool)
    | Symlink(target: Option<string>)
    | Special

  datatype Report = Report(files: nat, dirs: nat, symlinks: nat, bytes: nat)

  type LinkList = seq<(Path, string)>

  function Rel(e: Entry): Path {
    if e.Item? && e.path.Some? then Kept(Split(e.path.value)) else []
  }

  // --- what an unpacked archive looks like ------------------------------------------------

  ghost predicate Accepted(e: Entry) {
    e.Metadata? || (e.Item? && e.path.Some? && IsSafe(e.path.value) && !e.kind.Special?)
  }

  /** The entry stands at its own path under `dest`. */
  ghost predicate Placed(e: Entry, fs: Fs, dest: Path) {
    e.Item? ==>
      && dest + Rel(e) in fs
      && match e.kind
         case Directory => fs[dest + Rel(e)] == Dir
         case Regular(len, readable) => readable && fs[dest + Rel(e)] == File(len)
         case Symlink(target) => target.Some? && fs[dest + Rel(e)] == Link(target.value)
         case Special => false
  }

  /** Some entry lies at `p` or below it. */
  ghost predicate Covered(entries: seq<Entry>, dest: Path, p: Path) {
    p <= dest || exists i :: 0 <= i < |entries| && entries[i].Item? && p <= dest + Rel(entries[i])
  }

  ghost predicate OutsideUntouched(before: Fs, after: Fs, dest: Path) {
    forall p :: !(dest <= p) ==> (p in before <==> p in after) && (p in before ==> before[p] == after[p])
  }

  /** A new directory in which nothing stands yet. */
  ghost predicate FreshTree(fs: Fs, dest: Path) {
    && WellFormed(fs) && AllNormal(dest)
    && dest in fs && fs[dest].Dir?
    && forall p :: p in fs && dest <= p ==> p == dest
  }

  function FileCount(entries: seq<Entry>): nat {
    if entries == [] then 0
    else FileCount(entries[..|entries| - 1]) + if entries[|entries| - 1].Item? && entries[|entries| - 1].kind.Regular? then 1 else 0
  }

  function DirCount(entries: seq<Entry>): nat {
    if entries == [] then 0
    else DirCount(entries[..|entries| - 1]) + if entries[|entries| - 1].Item? && entries[|entries| - 1].kind.Directory? then 1 else 0
  }

  function TotalBytes(entries: seq<Entry>): nat {
    if entries == [] then 0
    else
      var last := entries[|entries| - 1];
      TotalBytes(entries[..|entries| - 1]) + if last.Item? && last.kind.Regular? then last.kind.len else 0
  }

  /** The links of an archive, in order. */
  function Links(entries: seq<Entry>): LinkList {
    if entries == [] then []
    else
      var last := entries[|entries| - 1];
      Links(entries[..|entries| - 1])
      + if last.Item? && last.kind.Symlink? && last.kind.target.Some? then [(Rel(last), last.kind.target.value)] else []
  }

  ghost predicate Distinct(entries: seq<Entry>) {
    forall i, j :: 0 <= i < j < |entries| && IsLeaf(entries[i]) && IsLeaf(entries[j]) ==> Rel(entries[i]) != Rel(entries[j])
  }

  predicate IsLeaf(e: Entry) {
    e.Item? && !e.kind.Directory?
  }

  /** Every entry is accepted and stands at its own path, nothing else is there, every link
      resolves inside the tree, and the report counts what was written. */
  ghost predicate Unpacked(entries: seq<Entry>, before: Fs, after: Fs, dest: Path, report: Report) {
    && (forall i :: 0 <= i < |entries| ==> Accepted(entries[i]) && Placed(entries[i], after, dest))
    && (forall p :: p in after ==> p in before || Covered(entries, dest, p))
    && Distinct(entries)
    && (forall i :: 0 <= i < |entries| && entries[i].Item? && entries[i].kind.Symlink? ==> Resolves(after, dest, Rel(entries[i])))
    && report == Report(FileCount(entries), DirCount(entries), |Links(entries)|, TotalBytes(entries))
    && report.bytes <= MAX_UNPACKED_BYTES
  }

  ghost predicate Resolves(fs: Fs, dest: Path, rel: Path) {
    Resolved(fs, dest + rel).Some? && dest <= Resolved(fs, dest + rel).value
  }

  // --- during the first pass ----------------------------------------------------------------

  /** The tree so far: real directories and files only. */
  ghost predicate Growing(before: Fs, fs: Fs, dest: Path) {
    && WellFormed(fs) && AllNormal(dest) && dest in fs && fs[dest].Dir?
    && OutsideUntouched(before, fs, dest)
  }

  ghost predicate NoLinksYet(fs: Fs, dest: Path) {
    forall p :: p in fs && dest <= p ==> !fs[p].Link?
  }

  ghost predicate Settled(e: Entry, fs: Fs, dest: Path) {
    Accepted(e) && ((e.Item? && e.kind.Symlink? && e.kind.target.Some?) || Placed(e, fs, dest))
  }

  lemma PathReady(fs: Fs, dest: Path, rel: Path)
    requires WellFormed(fs) && AllNormal(dest) && dest in fs && fs[dest].Dir? && NoLinksYet(fs, dest) && AllNormal(rel)
    ensures AllNormal(dest + rel) && NoLinkOn(fs, dest + rel)
  {
    forall k | 0 <= k <= |dest + rel| && (dest + rel)[..k] in fs ensures !fs[(dest + rel)[..k]].Link? {
      if k < |dest| {
        PrefixIsDir(fs, dest, k);
        assert (dest + rel)[..k] == dest[..k];
      } else {
        assert dest <= (dest + rel)[..k];
      }
    }
  }

  /** What is added on the way to a path under `dest` lies under `dest`. */
  lemma StaysInside(before: Fs, a: Fs, b: Fs, dest: Path, rel: Path)
    requires Growing(before, a, dest) && WellFormed(b) && Extends(a, b, dest + rel)
    ensures Growing(before, b, dest)
    ensures forall p :: p in b && p !in a ==> dest <= p
  {
    forall p | p in b && p !in a ensures dest <= p {
      if |p| <= |dest| {
        assert p == dest[..|p|];
        if |p| < |dest| {
          PrefixIsDir(a, dest, |p|);
        }
      }
    }
  }

  lemma NormalRel(e: Entry)
    requires e.Item? && e.path.Some? && IsSafe(e.path.value)
    ensures AllNormal(Rel(e)) && Rel(e) != []
  {
    SafePathStaysBelow(e.path.value);
  }

  // --- the first pass: directories and files -------------------------------------------------

  /** What the first pass carries along. */
  datatype Progress = Progress(seen: set<Path>, links: LinkList, report: Report)

  function Counted(p: Progress, e: Entry): Progress
    requires e.Item?
  {
    var r := p.report;
    match e.kind
    case Directory => p.(report := r.(dirs := r.dirs + 1))
    case Regular(len, _) => p.(seen := p.seen + {Rel(e)}, report := r.(files := r.files + 1, bytes := r.bytes + len))
    case Symlink(target) =>
      p.(seen := p.seen + {Rel(e)}, links := p.links + if target.Some? then [(Rel(e), target.value)] else [])
    case Special => p
  }

  /** An entry that is acceptable by itself. */
  ghost predicate EntryOk(e: Entry) {
    && Accepted(e)
    && (e.Item? && e.kind.Regular? ==> e.kind.readable)
    && (e.Item? && e.kind.Symlink? ==> e.kind.target.Some?)
  }

  /** Nothing unpacked so far stands in the way of an entry. */
  ghost predicate HasRoom(fs: Fs, dest: Path, e: Entry, p: Progress)
    requires e.Item?
  {
    && (IsLeaf(e) ==> Rel(e) !in p.seen)
    && (e.kind.Directory? ==> AllDirs(fs, dest + Rel(e)))
    && (e.kind.Regular? ==>
          && AllDirs(fs, Parent(dest + Rel(e))) && dest + Rel(e) !in fs
          && p.report.bytes + e.kind.len <= MAX_UNPACKED_BYTES)
  }

  /** One entry; a link is only written down for the second pass. */
  method PlaceEntry(disk: Disk, dest: Path, e: Entry, p: Progress, ghost before: Fs) returns (r: Result<Progress, ()>)
    requires e.Item? && Growing(before, disk.fs, dest) && NoLinksYet(disk.fs, dest)
    modifies disk
    ensures Growing(before, disk.fs, dest) && NoLinksYet(disk.fs, dest)
    ensures disk.fs == old(disk.fs) || Extends(old(disk.fs), disk.fs, dest + Rel(e))
    ensures r.Ok? ==> if e.kind.Symlink? then disk.fs == old(disk.fs) else Extends(old(disk.fs), disk.fs, dest + Rel(e))
    ensures r.Ok? ==> Settled(e, disk.fs, dest) && r.value == Counted(p, e)
    ensures r.Ok? && IsLeaf(e) ==> Rel(e) !in p.seen
    ensures r.Ok? && e.kind.Regular? ==> r.value.report.bytes <= MAX_UNPACKED_BYTES || p.report.bytes > MAX_UNPACKED_BYTES
    ensures old(disk.faults) == [] ==> disk.faults == []
    ensures old(disk.faults) == [] && p.report.bytes <= MAX_UNPACKED_BYTES ==>
      (r.Ok? <==> EntryOk(e) && HasRoom(old(disk.fs), dest, e, p))
  {
    hide Growing, NoLinksYet, NoLinkOn, Extends, AllNormal, AllDirs;
    if e.path.None? {
      return Err(());
    }
    var rel :- SafeRelativePath(e.path.value);
    NormalRel(e);
    PathReadyWhileGrowing(before, disk.fs, dest, rel);
    if e.kind.Directory? {
      var ok := disk.CreateDirAll(dest + rel);
      StaysGrowing(before, old(disk.fs), disk.fs, dest, rel);
      return if ok then Ok(Counted(p, e)) else Err(());
    }
    if rel in p.seen {
      return Err(());
    }
    match e.kind
    case Special => return Err(());
    case Symlink(target) => return if target.Some? then Ok(Counted(p, e)) else Err(());
    case Regular(len, readable) =>
      var left := if p.report.bytes <= MAX_UNPACKED_BYTES then MAX_UNPACKED_BYTES - p.report.bytes else 0;
      var made := disk.CreateNew(dest + rel);
      if made {
        var n := if len <= left then len else left + 1;
        disk.Write(dest + rel, n, old(disk.fs));
        StaysGrowing(before, old(disk.fs), disk.fs, dest, rel);
        if !readable || n > left {
          return Err(());
        }
        return Ok(Counted(p, e));
      }
      StaysGrowing(before, old(disk.fs), disk.fs, dest, rel);
      return Err(());
  }

  lemma PathReadyWhileGrowing(before: Fs, fs: Fs, dest: Path, rel: Path)
    requires Growing(before, fs, dest) && NoLinksYet(fs, dest) && AllNormal(rel) && rel != []
    ensures WellFormed(fs) && AllNormal(dest + rel) && NoLinkOn(fs, dest + rel) && dest + rel != []
  {
    PathReady(fs, dest, rel);
  }

  /** Directories and files keep the tree free of links. */
  lemma StaysGrowing(before: Fs, a: Fs, b: Fs, dest: Path, rel: Path)
    requires Growing(before, a, dest) && NoLinksYet(a, dest) && WellFormed(b) && Extends(a, b, dest + rel)
    requires NoNewLinks(a, b)
    ensures Growing(before, b, dest) && NoLinksYet(b, dest)
  {
    hide WellFormed, AllNormal;
    StaysInside(before, a, b, dest, rel);
  }

  // --- the second pass: links ------------------------------------------------------------------

  ghost predicate OnTheWay(links: LinkList, dest: Path, p: Path) {
    exists k :: 0 <= k < |links| && p <= dest + links[k].0
  }

  /** What the first pass left stands as it was, and new nodes lie on the way to a link. */
  ghost predicate Linking(start: Fs, fs: Fs, dest: Path, links: LinkList) {
    && (forall p :: p in start ==> p in fs && fs[p] == start[p])
    && (forall p :: p in fs ==> p in start || OnTheWay(links, dest, p))
  }

  /** Every link stands at its own path. */
  ghost predicate LinksStand(fs: Fs, dest: Path, links: LinkList) {
    forall k :: 0 <= k < |links| ==> dest + links[k].0 in fs && fs[dest + links[k].0] == Link(links[k].1)
  }

  ghost predicate LinkPaths(links: LinkList) {
    forall k :: 0 <= k < |links| ==> AllNormal(links[k].0) && links[k].0 != []
  }

  datatype Looked = Found(node: Node) | NotFound | Trouble

  /** The node a path names, a link itself and not what it leads to. */
  function LinkMetadata(fs: Fs, p: Path): Looked
    requires p != []
  {
    var parent := Resolved(fs, Parent(p));
    if parent.None? then NotFound
    else if parent.value !in fs || !fs[parent.value].Dir? then Trouble
    else
      var at := parent.value + [p[|p| - 1]];
      if at in fs then Found(fs[at]) else NotFound
  }

  lemma MetadataOfPlain(fs: Fs, p: Path)
    requires WellFormed(fs) && AllNormal(p) && p != [] && NoLinkOn(fs, Parent(p)) && Parent(p) in fs
    ensures LinkMetadata(fs, p) ==
      if !fs[Parent(p)].Dir? then Trouble else if p in fs then Found(fs[p]) else NotFound
  {
    ResolvesToItself(fs, Parent(p));
    assert Parent(p) + [p[|p| - 1]] == p;
  }

  /** Refuses a path when an existing ancestor of it under `dest` is a link. */
  method ParentHasNoLink(disk: Disk, dest: Path, rel: Path) returns (ok: bool)
    requires WellFormed(disk.fs) && AllNormal(dest) && dest in disk.fs && disk.fs[dest].Dir?
    requires AllNormal(rel) && rel != []
    ensures ok ==> NoLinkOn(disk.fs, dest + Parent(rel))
    ensures !ok ==> !AllDirs(disk.fs, dest + Parent(rel))
  {
    hide Resolved, WellFormed, AllNormal, LinkMetadata, NoLinkOn, AllDirs;
    var at := dest;
    DirIsOwnPath(disk.fs, dest);
    for k := 0 to |rel| - 1
      invariant at == dest + rel[..k] && at in disk.fs && NoLinkOn(disk.fs, at)
    {
      var next := at + [rel[k]];
      NextStep(disk.fs, dest, rel, k);
      MetadataOfPlain(disk.fs, next);
      match LinkMetadata(disk.fs, next) {
        case NotFound =>
          MissingHasNoLink(disk.fs, dest + Parent(rel), |next|);
          return true;
        case Trouble =>
          NotAllDirs(disk.fs, dest + Parent(rel), |at|);
          return false;
        case Found(node) =>
          if node.Link? {
            NotAllDirs(disk.fs, dest + Parent(rel), |next|);
            return false;
          }
          OneMoreNoLink(disk.fs, next);
          at := next;
      }
    }
    return true;
  }

  lemma NotAllDirs(fs: Fs, p: Path, k: nat)
    requires k <= |p| && p[..k] in fs && !fs[p[..k]].Dir?
    ensures !AllDirs(fs, p)
  {
  }

  lemma NextStep(fs: Fs, dest: Path, rel: Path, k: nat)
    requires AllNormal(dest) && AllNormal(rel) && k < |rel| - 1
    ensures var next := dest + rel[..k] + [rel[k]];
      && AllNormal(next) && Parent(next) == dest + rel[..k]
      && |next| <= |dest + Parent(rel)| && (dest + Parent(rel))[..|next|] == next && next == dest + rel[..k + 1]
      && (dest + Parent(rel))[..|next| - 1] == dest + rel[..k]
  {
  }

  lemma OneMoreNoLink(fs: Fs, p: Path)
    requires p != [] && NoLinkOn(fs, Parent(p)) && p in fs && !fs[p].Link?
    ensures NoLinkOn(fs, p)
  {
    forall k | 0 <= k <= |p| && p[..k] in fs ensures !fs[p[..k]].Link? {
      if k < |p| {
        assert p[..k] == Parent(p)[..k];
      } else {
        assert p[..k] == p;
      }
    }
  }

  /** Past a missing ancestor nothing exists. */
  lemma MissingHasNoLink(fs: Fs, p: Path, n: nat)
    requires WellFormed(fs) && 0 < n <= |p| && p[..n] !in fs && NoLinkOn(fs, p[..n - 1])
    ensures NoLinkOn(fs, p)
  {
    forall k | 0 <= k <= |p| && p[..k] in fs ensures !fs[p[..k]].Link? {
      if k < n {
        assert p[..n - 1][..k] == p[..k];
      } else {
        assert p[..k][..n] == p[..n];
        if n < k {
          PrefixIsDir(fs, p[..k], n);
        }
      }
    }
  }

  /** Read as text, the target of a link at `rel` does not leave the tree. */
  predicate StaysLexically(rel: Path, target: string) {
    !TargetRefused(target) && Walk(Parent(rel), Split(target)).Some?
  }

  /** A target that stays is relative and holds no special character. */
  lemma StayingIsRelative(rel: Path, target: string)
    requires StaysLexically(rel, target)
    ensures target != "" && target[0] != '/' && forall c :: c in "\0\\:" ==> c !in target
  {
  }

  lemma {:induction false} ClimbThenDescend(rel: Path, up: nat, parts: seq<string>)
    requires up < |rel| && forall i :: 0 <= i < |parts| ==> IsNormal(parts[i])
    ensures Walk(Parent(rel), seq(up, i => "..") + parts) == Some(rel[..|rel| - 1 - up] + parts)
    decreases up
  {
    if up == 0 {
      assert seq(0, i => "..") + parts == parts;
      WalkNormal(Parent(rel), parts);
    } else {
      var steps := seq(up, i => "..") + parts;
      assert steps[0] == ".." && steps[1..] == seq(up - 1, i => "..") + parts;
      ClimbThenDescend(Parent(rel), up - 1, parts);
      assert Parent(rel)[..|rel| - 1 - up] == rel[..|rel| - 1 - up];
    }
  }

  lemma StepsAsTarget(steps: seq<string>)
    requires steps != [] && forall i :: 0 <= i < |steps| ==> steps[i] == ".." || IsPlainPart(steps[i])
    ensures !TargetRefused(Join(steps)) && Split(Join(steps)) == steps
  {
    hide Split, Join;
    SplitsBack(steps);
    JoinedChars(steps, '\0');
    JoinedChars(steps, '\\');
    JoinedChars(steps, ':');
    JoinBegins(steps);
  }

  /** All of these stay: plain components, after at most as many steps up as the link lies deep. */
  lemma PlainTargetStays(rel: Path, up: nat, parts: seq<string>)
    requires up < |rel| && parts != [] && forall i :: 0 <= i < |parts| ==> IsPlainPart(parts[i])
    ensures StaysLexically(rel, Join(seq(up, i => "..") + parts))
  {
    hide Split, Join, Walk, IsPlainPart, TargetRefused;
    var steps := seq(up, i => "..") + parts;
    forall i | 0 <= i < |steps| ensures steps[i] == ".." || IsPlainPart(steps[i]) {
      assert i >= up ==> steps[i] == parts[i - up];
    }
    StepsAsTarget(steps);
    PlainIsNormal(parts);
    ClimbThenDescend(rel, up, parts);
  }

  lemma PlainIsNormal(parts: seq<string>)
    requires forall i :: 0 <= i < |parts| ==> IsPlainPart(parts[i])
    ensures forall i :: 0 <= i < |parts| ==> IsNormal(parts[i])
  {
  }

  lemma {:induction false} WalkNormal(at: Path, parts: seq<string>)
    requires forall i :: 0 <= i < |parts| ==> IsNormal(parts[i])
    ensures Walk(at, parts) == Some(at + parts)
    decreases |parts|
  {
    if parts != [] {
      WalkNormal(at + [parts[0]], parts[1..]);
      assert at + [parts[0]] + parts[1..] == at + parts;
    } else {
      assert at + parts == at;
    }
  }

  /** One link, under real directories only. */
  method PlaceLink(disk: Disk, dest: Path, rel: Path, target: string, ghost before: Fs) returns (ok: bool)
    requires Growing(before, disk.fs, dest) && AllNormal(rel) && rel != []
    modifies disk
    ensures Growing(before, disk.fs, dest) && Extends(old(disk.fs), disk.fs, dest + rel)
    ensures ok ==> dest + rel in disk.fs && disk.fs[dest + rel] == Link(target)
    ensures ok ==> StaysLexically(rel, target)
    ensures old(disk.faults) == [] ==> disk.faults == []
    ensures old(disk.faults) == [] ==>
      (ok <==> StaysLexically(rel, target) && AllDirs(old(disk.fs), dest + Parent(rel)) && dest + rel !in old(disk.fs))
  {
    hide NoLinkOn, AllNormal, TargetRefused, Walk, Extends, WellFormed, OutsideUntouched, AllDirs;
    ghost var start := disk.fs;
    NothingNew(start, dest + rel);
    StaysInside(before, start, disk.fs, dest, rel);
    var lexical := LexicalTarget(rel, target);
    if lexical.None? {
      return false;
    }
    ok := ParentHasNoLink(disk, dest, rel);
    if !ok {
      return false;
    }
    ParentOfPlace(dest, rel);
    ok := disk.CreateDirAll(dest + Parent(rel));
    ParentExtends(start, disk.fs, dest + rel);
    StaysInside(before, start, disk.fs, dest, rel);
    if !ok {
      return false;
    }
    DirIsOwnPath(disk.fs, dest + Parent(rel));
    ghost var between := disk.fs;
    ok := disk.MakeLink(dest + rel, target);
    ExtendsOn(start, between, disk.fs, dest + rel);
    StaysInside(before, start, disk.fs, dest, rel);
  }

  lemma NothingNew(fs: Fs, p: Path)
    ensures Extends(fs, fs, p)
  {
  }

  lemma ParentOfPlace(dest: Path, rel: Path)
    requires AllNormal(dest) && AllNormal(rel) && rel != []
    ensures Parent(dest + rel) == dest + Parent(rel) && AllNormal(dest + rel) && AllNormal(dest + Parent(rel)) && dest + rel != []
  {
  }

  lemma LinkingGrows(start: Fs, a: Fs, b: Fs, dest: Path, links: LinkList, n: nat)
    requires n < |links| && Linking(start, a, dest, links[..n]) && Extends(a, b, dest + links[n].0)
    ensures Linking(start, b, dest, links[..n + 1])
  {
  }

  lemma LinkingAll(start: Fs, fs: Fs, dest: Path, links: LinkList, n: nat)
    requires n <= |links| && Linking(start, fs, dest, links[..n])
    ensures Linking(start, fs, dest, links)
  {
  }

  /** Creates the links after every file and directory, then checks that each one resolves inside
      the tree: a chain of harmless links can still leave it. */
  method MakeLinks(disk: Disk, dest: Path, links: LinkList, ghost before: Fs) returns (ok: bool)
    requires Growing(before, disk.fs, dest) && LinkPaths(links)
    modifies disk
    ensures Growing(before, disk.fs, dest) && Linking(old(disk.fs), disk.fs, dest, links)
    ensures ok ==> LinksStand(disk.fs, dest, links) && forall k :: 0 <= k < |links| ==> Resolves(disk.fs, dest, links[k].0)
    ensures ok ==> forall k :: 0 <= k < |links| ==> StaysLexically(links[k].0, links[k].1)
    ensures old(disk.faults) == [] ==> disk.faults == []
    ensures old(disk.faults) == [] && !ok ==>
      || (exists k, fs :: StuckAt(old(disk.fs), fs, dest, links, k))
      || (LinksStand(disk.fs, dest, links) && exists k :: 0 <= k < |links| && !Resolves(disk.fs, dest, links[k].0))
  {
    hide Growing, Extends, AllNormal, Linking, Resolved, StaysLexically, AllDirs;
    LinkingNone(disk.fs, dest);
    for k := 0 to |links|
      invariant Growing(before, disk.fs, dest) && Linking(old(disk.fs), disk.fs, dest, links[..k])
      invariant forall j :: 0 <= j < k ==>
        dest + links[j].0 in disk.fs && disk.fs[dest + links[j].0] == Link(links[j].1) && StaysLexically(links[j].0, links[j].1)
      invariant old(disk.faults) == [] ==> disk.faults == []
    {
      ghost var a := disk.fs;
      ok := PlaceLink(disk, dest, links[k].0, links[k].1, before);
      OldNodesStay(a, disk.fs, dest + links[k].0);
      LinkingGrows(old(disk.fs), a, disk.fs, dest, links, k);
      if !ok {
        LinkingAll(old(disk.fs), disk.fs, dest, links, k + 1);
        if old(disk.faults) == [] {
          GrowingIsWellFormed(before, a, dest);
          assert StuckAt(old(disk.fs), a, dest, links, k);
        }
        return false;
      }
    }
    LinkingAll(old(disk.fs), disk.fs, dest, links, |links|);
    for k := 0 to |links|
      invariant forall j :: 0 <= j < k ==> Resolves(disk.fs, dest, links[j].0)
    {
      var resolved := Resolved(disk.fs, dest + links[k].0);
      if resolved.None? || !(dest <= resolved.value) {
        return false;
      }
    }
    return true;
  }

  /** The first link that could not be placed, in the tree as it stood then. */
  ghost predicate StuckAt(start: Fs, fs: Fs, dest: Path, links: LinkList, k: nat) {
    && k < |links| && WellFormed(fs) && dest in fs && fs[dest].Dir?
    && Linking(start, fs, dest, links[..k])
    && (forall j :: 0 <= j < k ==> dest + links[j].0 in fs)
    && !(StaysLexically(links[k].0, links[k].1) && AllDirs(fs, dest + Parent(links[k].0)) && dest + links[k].0 !in fs)
  }

  lemma GrowingIsWellFormed(before: Fs, fs: Fs, dest: Path)
    requires Growing(before, fs, dest)
    ensures WellFormed(fs) && dest in fs && fs[dest].Dir?
  {
  }

  lemma LinkingNone(fs: Fs, dest: Path)
    ensures Linking(fs, fs, dest, [])
  {
  }

  lemma OldNodesStay(a: Fs, b: Fs, p: Path)
    requires Extends(a, b, p)
    ensures forall q :: q in a ==> q in b && b[q] == a[q]
  {
  }
}
