/** Whole archives, taken as their list of entries: what is unpacked, and exactly which archives are. */
module ExtractEntries {
  import opened Common
  import opened ExtractPath
  import opened ExtractFs
  import opened ExtractUnpack
  import opened ExtractTree

  /** What holds after the first pass over `entries`. */
  ghost predicate FirstPass(entries: seq<Entry>, start: Fs, fs: Fs, dest: Path, p: Progress) {
    && (forall i :: 0 <= i < |entries| ==> Settled(entries[i], fs, dest))
    && (forall i :: 0 <= i < |entries| && IsLeaf(entries[i]) ==> Rel(entries[i]) in p.seen)
    && (forall q :: q in fs ==> q in start || Covered(entries, dest, q))
    && Distinct(entries)
    && p.links == Links(entries)
    && p.report == Report(FileCount(entries), DirCount(entries), 0, TotalBytes(entries))
    && p.report.bytes <= MAX_UNPACKED_BYTES
  }

  lemma CoveredGrows(entries: seq<Entry>, e: Entry, dest: Path, q: Path)
    ensures Covered(entries, dest, q) ==> Covered(entries + [e], dest, q)
    ensures e.Item? && q <= dest + Rel(e) ==> Covered(entries + [e], dest, q)
  {
    if !(q <= dest) && Covered(entries, dest, q) {
      var i :| 0 <= i < |entries| && entries[i].Item? && q <= dest + Rel(entries[i]);
      assert (entries + [e])[i] == entries[i];
    }
    assert (entries + [e])[|entries|] == e;
  }

  lemma FirstPassGrows(entries: seq<Entry>, e: Entry, start: Fs, a: Fs, b: Fs, dest: Path, p: Progress)
    requires FirstPass(entries, start, a, dest, p) && e.Item? && Settled(e, b, dest)
    requires a == b || Extends(a, b, dest + Rel(e))
    requires IsLeaf(e) ==> Rel(e) !in p.seen
    requires Counted(p, e).report.bytes <= MAX_UNPACKED_BYTES
    ensures FirstPass(entries + [e], start, b, dest, Counted(p, e))
  {
    hide Rel, IsSafe, Covered;
    var all := entries + [e];
    assert all[..|all| - 1] == entries;
    forall i | 0 <= i < |entries| ensures Settled(all[i], b, dest) {
      assert Settled(entries[i], a, dest);
    }
    forall q | q in b && q !in start ensures Covered(all, dest, q) {
      CoveredGrows(entries, e, dest, q);
    }
  }

  lemma FirstPassSkips(entries: seq<Entry>, start: Fs, fs: Fs, dest: Path, p: Progress)
    requires FirstPass(entries, start, fs, dest, p)
    ensures FirstPass(entries + [Metadata], start, fs, dest, p)
  {
    hide Rel, IsSafe, Covered;
    var all := entries + [Metadata];
    assert all[..|all| - 1] == entries;
    forall q | q in fs && q !in start ensures Covered(all, dest, q) {
      CoveredGrows(entries, Metadata, dest, q);
    }
  }

  lemma {:induction false} LinkListed(entries: seq<Entry>, i: nat)
    requires i < |entries| && entries[i].Item? && entries[i].kind.Symlink? && entries[i].kind.target.Some?
    ensures exists k :: 0 <= k < |Links(entries)| && Links(entries)[k] == (Rel(entries[i]), entries[i].kind.target.value)
  {
    var front := entries[..|entries| - 1];
    if i < |front| {
      assert front[i] == entries[i];
      LinkListed(front, i);
      var k :| 0 <= k < |Links(front)| && Links(front)[k] == (Rel(entries[i]), entries[i].kind.target.value);
      assert Links(entries)[k] == Links(front)[k];
    } else {
      assert Links(entries)[|Links(front)|] == (Rel(entries[i]), entries[i].kind.target.value);
    }
  }

  /** A listed link comes from an entry. */
  lemma {:induction false} LinkHasEntry(entries: seq<Entry>, k: nat) returns (i: nat)
    requires k < |Links(entries)|
    ensures i < |entries| && entries[i].Item? && entries[i].kind.Symlink? && Rel(entries[i]) == Links(entries)[k].0
  {
    var front := entries[..|entries| - 1];
    if k < |Links(front)| {
      i := LinkHasEntry(front, k);
    } else {
      i := |entries| - 1;
    }
  }

  lemma LinkPathsOk(entries: seq<Entry>, start: Fs, fs: Fs, dest: Path, p: Progress)
    requires FirstPass(entries, start, fs, dest, p)
    ensures LinkPaths(p.links)
  {
    forall k | 0 <= k < |p.links| ensures AllNormal(p.links[k].0) && p.links[k].0 != [] {
      var i := LinkHasEntry(entries, k);
      assert Settled(entries[i], fs, dest);
      NormalRel(entries[i]);
    }
  }

  lemma BothPasses(entries: seq<Entry>, start: Fs, mid: Fs, fs: Fs, dest: Path, p: Progress)
    requires FirstPass(entries, start, mid, dest, p) && Linking(mid, fs, dest, p.links)
    requires LinksStand(fs, dest, p.links) && forall k :: 0 <= k < |p.links| ==> Resolves(fs, dest, p.links[k].0)
    ensures Unpacked(entries, start, fs, dest, p.report.(symlinks := |p.links|))
  {
    hide Rel, IsSafe, Resolves, Links, FileCount, DirCount, TotalBytes, Settled, Linking, Covered, Accepted;
    hide Placed, LinksStand;
    forall i | 0 <= i < |entries|
      ensures Accepted(entries[i]) && Placed(entries[i], fs, dest)
      ensures entries[i].Item? && entries[i].kind.Symlink? ==> Resolves(fs, dest, Rel(entries[i]))
    {
      EntryStands(entries, i, mid, fs, dest, p.links);
      EntryResolves(entries, i, fs, dest, p.links);
    }
    NewAreCovered(entries, start, mid, fs, dest, p);
  }

  /** What both passes leave is the described tree, whether or not the links resolve. */
  lemma PassesDescribe(entries: seq<Entry>, start: Fs, mid: Fs, fs: Fs, dest: Path, p: Progress)
    requires FirstPass(entries, start, mid, dest, p) && Linking(mid, fs, dest, p.links) && LinksStand(fs, dest, p.links)
    requires FreshTree(start, dest) && Growing(start, fs, dest)
    ensures fs == TreeOf(entries, start, dest)
  {
    hide Rel, IsSafe, Links, FileCount, DirCount, TotalBytes, Settled, Linking, Covered, Placed, LinksStand;
    hide TreeOf, WellFormed;
    forall i | 0 <= i < |entries| ensures Placed(entries[i], fs, dest) {
      EntryStands(entries, i, mid, fs, dest, p.links);
    }
    NewAreCovered(entries, start, mid, fs, dest, p);
    DescribedIsTree(entries, start, fs, dest);
  }

  lemma NewAreCovered(entries: seq<Entry>, start: Fs, mid: Fs, fs: Fs, dest: Path, p: Progress)
    requires FirstPass(entries, start, mid, dest, p) && Linking(mid, fs, dest, p.links)
    ensures forall q :: q in fs ==> q in start || Covered(entries, dest, q)
  {
    hide Linking, Covered, Settled;
    forall q | q in fs && q !in start ensures Covered(entries, dest, q) {
      if q !in mid {
        NewIsCovered(entries, mid, fs, dest, q);
      }
    }
  }

  lemma EntryStands(entries: seq<Entry>, i: nat, mid: Fs, fs: Fs, dest: Path, links: LinkList)
    requires i < |entries| && Settled(entries[i], mid, dest) && Linking(mid, fs, dest, links) && links == Links(entries)
    requires LinksStand(fs, dest, links)
    ensures Accepted(entries[i]) && Placed(entries[i], fs, dest)
  {
    hide Rel, IsSafe, Links, OnTheWay;
    if entries[i].Item? && entries[i].kind.Symlink? && entries[i].kind.target.Some? {
      LinkListed(entries, i);
    }
  }

  lemma EntryResolves(entries: seq<Entry>, i: nat, fs: Fs, dest: Path, links: LinkList)
    requires i < |entries| && links == Links(entries) && Placed(entries[i], fs, dest)
    requires forall k :: 0 <= k < |links| ==> Resolves(fs, dest, links[k].0)
    ensures entries[i].Item? && entries[i].kind.Symlink? ==> Resolves(fs, dest, Rel(entries[i]))
  {
    hide Rel, Resolves, Links;
    if entries[i].Item? && entries[i].kind.Symlink? {
      LinkListed(entries, i);
    }
  }

  lemma NewIsCovered(entries: seq<Entry>, mid: Fs, fs: Fs, dest: Path, q: Path)
    requires Linking(mid, fs, dest, Links(entries)) && q in fs && q !in mid
    ensures Covered(entries, dest, q)
  {
    hide Rel;
    var k :| 0 <= k < |Links(entries)| && q <= dest + Links(entries)[k].0;
    var i := LinkHasEntry(entries, k);
  }

  lemma FirstPassNone(start: Fs, dest: Path)
    ensures FirstPass([], start, start, dest, Progress({}, [], Report(0, 0, 0, 0)))
  {
  }

  // --- which archives are unpacked ---------------------------------------------------------------

  /** No file or link lies at another entry's path or above it. */
  ghost predicate NoClash(entries: seq<Entry>) {
    forall i, j :: 0 <= i < |entries| && 0 <= j < |entries| && i != j && IsLeaf(entries[i]) && entries[j].Item? ==>
      !(Rel(entries[i]) <= Rel(entries[j]))
  }

  ghost predicate LinksStayLexically(entries: seq<Entry>) {
    forall i :: 0 <= i < |entries| && entries[i].Item? && entries[i].kind.Symlink? && entries[i].kind.target.Some? ==>
      StaysLexically(Rel(entries[i]), entries[i].kind.target.value)
  }

  ghost predicate LinksResolve(entries: seq<Entry>, fs: Fs, dest: Path) {
    forall i :: 0 <= i < |entries| && entries[i].Item? && entries[i].kind.Symlink? ==> Resolves(fs, dest, Rel(entries[i]))
  }

  /** What the rules ask of an archive before its links are resolved. */
  ghost predicate Acceptable(entries: seq<Entry>) {
    && |entries| <= MAX_ENTRIES
    && (forall i :: 0 <= i < |entries| ==> EntryOk(entries[i]))
    && TotalBytes(entries) <= MAX_UNPACKED_BYTES
    && NoClash(entries) && LinksStayLexically(entries)
  }

  /** During the first pass every node comes from a directory or file entry, only files are no
      directories, and what was seen are the paths of files and links. */
  ghost predicate Traced(entries: seq<Entry>, start: Fs, fs: Fs, dest: Path, p: Progress) {
    && (forall q :: q in fs && !(q <= dest) ==> q in start || OnWay(entries, dest, q))
    && (forall q :: q in fs && dest <= q && !fs[q].Dir? ==> IsFileOf(entries, dest, q))
    && (forall r :: r in p.seen ==> IsLeafOf(entries, r))
  }

  ghost predicate IsLeafOf(entries: seq<Entry>, r: Path) {
    exists j :: 0 <= j < |entries| && IsLeaf(entries[j]) && Rel(entries[j]) == r
  }

  ghost predicate OnWay(entries: seq<Entry>, dest: Path, q: Path) {
    exists j :: 0 <= j < |entries| && entries[j].Item? && !entries[j].kind.Symlink? && q <= dest + Rel(entries[j])
  }

  ghost predicate IsFileOf(entries: seq<Entry>, dest: Path, q: Path) {
    exists j :: 0 <= j < |entries| && entries[j].Item? && entries[j].kind.Regular? && q == dest + Rel(entries[j])
  }

  lemma TracedNone(start: Fs, dest: Path)
    requires FreshTree(start, dest)
    ensures Traced([], start, start, dest, Progress({}, [], Report(0, 0, 0, 0)))
  {
  }

  lemma WaysGrow(entries: seq<Entry>, e: Entry, dest: Path, q: Path)
    ensures OnWay(entries, dest, q) || (e.Item? && !e.kind.Symlink? && q <= dest + Rel(e)) ==>
      OnWay(entries + [e], dest, q)
    ensures IsFileOf(entries, dest, q) || (e.Item? && e.kind.Regular? && q == dest + Rel(e)) ==>
      IsFileOf(entries + [e], dest, q)
    ensures IsLeafOf(entries, q) || (IsLeaf(e) && q == Rel(e)) ==> IsLeafOf(entries + [e], q)
  {
    hide Rel;
    var all := entries + [e];
    assert all[|entries|] == e && forall j :: 0 <= j < |entries| ==> all[j] == entries[j];
    if OnWay(entries, dest, q) {
      var j :| 0 <= j < |entries| && entries[j].Item? && !entries[j].kind.Symlink? && q <= dest + Rel(entries[j]);
      assert all[j] == entries[j];
    }
    if IsFileOf(entries, dest, q) {
      var j :| 0 <= j < |entries| && entries[j].Item? && entries[j].kind.Regular? && q == dest + Rel(entries[j]);
      assert all[j] == entries[j];
    }
    if IsLeafOf(entries, q) {
      var j :| 0 <= j < |entries| && IsLeaf(entries[j]) && Rel(entries[j]) == q;
      assert all[j] == entries[j];
    }
  }

  lemma TracedGrows(entries: seq<Entry>, e: Entry, start: Fs, a: Fs, b: Fs, dest: Path, p: Progress)
    requires Traced(entries, start, a, dest, p) && e.Item? && WellFormed(b)
    requires if e.kind.Symlink? then a == b else Extends(a, b, dest + Rel(e)) && Placed(e, b, dest)
    ensures Traced(entries + [e], start, b, dest, Counted(p, e))
  {
    hide Rel, OnWay, IsFileOf, IsLeafOf;
    forall q | q in b && !(q <= dest) && q !in start ensures OnWay(entries + [e], dest, q) {
      WaysGrow(entries, e, dest, q);
    }
    forall q | q in b && dest <= q && !b[q].Dir? ensures IsFileOf(entries + [e], dest, q) {
      WaysGrow(entries, e, dest, q);
      if q !in a && q != dest + Rel(e) {
        NotAboveAnything(b, dest + Rel(e), q);
      }
    }
    forall r | r in Counted(p, e).seen ensures IsLeafOf(entries + [e], r) {
      WaysGrow(entries, e, dest, r);
    }
  }

  lemma TracedSkips(entries: seq<Entry>, start: Fs, fs: Fs, dest: Path, p: Progress)
    requires Traced(entries, start, fs, dest, p)
    ensures Traced(entries + [Metadata], start, fs, dest, p)
  {
    hide OnWay, IsFileOf, IsLeafOf;
    forall q ensures
      && (OnWay(entries, dest, q) ==> OnWay(entries + [Metadata], dest, q))
      && (IsFileOf(entries, dest, q) ==> IsFileOf(entries + [Metadata], dest, q))
      && (IsLeafOf(entries, q) ==> IsLeafOf(entries + [Metadata], q))
    {
      WaysGrow(entries, Metadata, dest, q);
    }
  }

  // --- why an entry is refused ----------------------------------------------------------------------

  lemma {:induction false} BytesOfPrefix(entries: seq<Entry>, n: nat)
    requires n <= |entries|
    ensures TotalBytes(entries[..n]) <= TotalBytes(entries)
  {
    if n < |entries| {
      var front := entries[..|entries| - 1];
      BytesOfPrefix(front, n);
      assert front[..n] == entries[..n];
    } else {
      assert entries[..n] == entries;
    }
  }

  /** An entry for which there is no room makes the archive unacceptable. */
  lemma NoRoom(entries: seq<Entry>, i: nat, start: Fs, fs: Fs, dest: Path, p: Progress)
    requires i < |entries| && entries[i].Item? && EntryOk(entries[i]) && !HasRoom(fs, dest, entries[i], p)
    requires Traced(entries[..i], start, fs, dest, p) && FirstPass(entries[..i], start, fs, dest, p)
    requires FreshTree(start, dest) && WellFormed(fs) && dest in fs && fs[dest].Dir?
    ensures !Acceptable(entries)
  {
    hide FirstPass, OnWay, IsFileOf, IsLeafOf, Extends, FileCount, DirCount, Links, EntryOk;
    var e, at := entries[i], dest + Rel(entries[i]);
    RelOfOk(e);
    if IsLeaf(e) && Rel(e) in p.seen {
      LeafClash(entries, i, Rel(e));
    } else if e.kind.Regular? && at in fs {
      assert dest <= at && !(at <= dest);
      WayClash(entries, i, dest, at);
    } else if e.kind.Regular? && p.report.bytes + e.kind.len > MAX_UNPACKED_BYTES {
      TooManyBytes(entries, i, start, fs, dest, p);
    } else {
      var q := BlockedAt(fs, dest, if e.kind.Regular? then Parent(at) else at);
      assert q <= at;
      FileClash(entries, i, dest, q);
    }
  }

  lemma RelOfOk(e: Entry)
    requires e.Item? && EntryOk(e)
    ensures AllNormal(Rel(e)) && Rel(e) != []
  {
    NormalRel(e);
  }

  lemma TooManyBytes(entries: seq<Entry>, i: nat, start: Fs, fs: Fs, dest: Path, p: Progress)
    requires i < |entries| && entries[i].Item? && entries[i].kind.Regular?
    requires FirstPass(entries[..i], start, fs, dest, p) && p.report.bytes + entries[i].kind.len > MAX_UNPACKED_BYTES
    ensures TotalBytes(entries) > MAX_UNPACKED_BYTES
  {
    BytesOfPrefix(entries, i + 1);
    assert entries[..i + 1][..i] == entries[..i];
  }

  /** The first node on a path under `dest` that is no directory. */
  lemma BlockedAt(fs: Fs, dest: Path, at: Path) returns (q: Path)
    requires WellFormed(fs) && dest in fs && fs[dest].Dir? && dest <= at && !AllDirs(fs, at)
    ensures q <= at && dest <= q && q != dest && q in fs && !fs[q].Dir?
  {
    var k :| 0 <= k <= |at| && at[..k] in fs && !fs[at[..k]].Dir?;
    q := at[..k];
    assert k <= |dest| ==> q == dest[..k];
    assert k >= |dest| ==> q[..|dest|] == dest;
    if k < |dest| {
      PrefixIsDir(fs, dest, k);
    }
  }

  lemma LeafClash(entries: seq<Entry>, i: nat, r: Path)
    requires i < |entries| && entries[i].Item? && r <= Rel(entries[i]) && IsLeafOf(entries[..i], r)
    ensures !NoClash(entries)
  {
  }

  lemma FileClash(entries: seq<Entry>, i: nat, dest: Path, q: Path)
    requires i < |entries| && entries[i].Item? && q <= dest + Rel(entries[i]) && IsFileOf(entries[..i], dest, q)
    ensures !NoClash(entries)
  {
    var j :| 0 <= j < i && entries[..i][j].Item? && entries[..i][j].kind.Regular? && q == dest + Rel(entries[..i][j]);
    SamePrefix(dest, Rel(entries[j]), Rel(entries[i]));
    assert IsLeaf(entries[j]) && Rel(entries[j]) <= Rel(entries[i]);
  }

  lemma WayClash(entries: seq<Entry>, i: nat, dest: Path, q: Path)
    requires i < |entries| && IsLeaf(entries[i]) && q == dest + Rel(entries[i]) && OnWay(entries[..i], dest, q)
    ensures !NoClash(entries)
  {
    var j :| 0 <= j < i && entries[..i][j].Item? && !entries[..i][j].kind.Symlink? && q <= dest + Rel(entries[..i][j]);
    SamePrefix(dest, Rel(entries[i]), Rel(entries[j]));
    assert IsLeaf(entries[i]) && entries[j].Item? && Rel(entries[i]) <= Rel(entries[j]);
  }

  lemma SamePrefix(dest: Path, a: Path, b: Path)
    ensures dest + a <= dest + b <==> a <= b
  {
    if dest + a <= dest + b {
      assert forall k :: 0 <= k < |a| ==> a[k] == (dest + a)[|dest| + k] == (dest + b)[|dest| + k] == b[k];
    }
  }

  // --- why a link is refused -------------------------------------------------------------------------

  lemma {:induction false} LinksDiffer(entries: seq<Entry>, k: nat, l: nat)
    requires Distinct(entries) && k < l < |Links(entries)|
    ensures Links(entries)[k].0 != Links(entries)[l].0
  {
    var front := entries[..|entries| - 1];
    assert Distinct(front);
    if l < |Links(front)| {
      LinksDiffer(front, k, l);
    } else {
      var i := LinkHasEntry(front, k);
      assert entries[i] == front[i] && IsLeaf(entries[i]) && IsLeaf(entries[|entries| - 1]);
    }
  }

  /** A link that could not be placed makes the archive unacceptable. */
  lemma StuckIsUnacceptable(entries: seq<Entry>, start: Fs, mid: Fs, fs: Fs, dest: Path, p: Progress, k: nat)
    requires FreshTree(start, dest) && Distinct(entries) && p.links == Links(entries)
    requires Traced(entries, start, mid, dest, p) && StuckAt(mid, fs, dest, p.links, k)
    requires forall i :: 0 <= i < |entries| ==> EntryOk(entries[i])
    ensures !Acceptable(entries)
  {
    hide OnWay, IsFileOf, IsLeafOf, Traced, Linking, Links, Distinct, StaysLexically, AllDirs;
    var i := LinkHasEntry(entries, k);
    var at := dest + Rel(entries[i]);
    RelOfOk(entries[i]);
    if !StaysLexically(p.links[k].0, p.links[k].1) {
      LexicalBreaks(entries, k);
    } else if at in fs {
      if at in mid {
        PlacedBefore(entries, start, mid, dest, p, at);
        WayClashAny(entries, i, dest, at);
      } else {
        LinkOnWay(mid, fs, dest, p.links, k, at);
        var l :| 0 <= l < k && at <= dest + p.links[l].0;
        LinkClash(entries, k, l, dest, true);
      }
    } else {
      assert Parent(at) == dest + Parent(Rel(entries[i]));
      var q := BlockedAt(fs, dest, Parent(at));
      if q in mid {
        MidIsSame(mid, fs, dest, p.links, k, q);
        NotDirIsFile(entries, start, mid, dest, p, q);
        FileClashAny(entries, i, dest, q);
      } else {
        LinkOnWay(mid, fs, dest, p.links, k, q);
        var l :| 0 <= l < k && q <= dest + p.links[l].0;
        if q != dest + p.links[l].0 {
          NotAboveAnything(fs, dest + p.links[l].0, q);
        }
        LinkClash(entries, k, l, dest, false);
      }
    }
  }

  lemma MidIsSame(mid: Fs, fs: Fs, dest: Path, links: LinkList, k: nat, q: Path)
    requires k < |links| && Linking(mid, fs, dest, links[..k]) && q in mid
    ensures q in fs && fs[q] == mid[q]
  {
  }

  lemma LinkOnWay(mid: Fs, fs: Fs, dest: Path, links: LinkList, k: nat, q: Path)
    requires k < |links| && Linking(mid, fs, dest, links[..k]) && q in fs && q !in mid
    ensures exists l :: 0 <= l < k && q <= dest + links[l].0
  {
  }

  lemma PlacedBefore(entries: seq<Entry>, start: Fs, mid: Fs, dest: Path, p: Progress, at: Path)
    requires FreshTree(start, dest) && Traced(entries, start, mid, dest, p) && at in mid && dest <= at && at != dest
    ensures OnWay(entries, dest, at)
  {
  }

  lemma NotDirIsFile(entries: seq<Entry>, start: Fs, mid: Fs, dest: Path, p: Progress, q: Path)
    requires Traced(entries, start, mid, dest, p) && q in mid && dest <= q && !mid[q].Dir?
    ensures IsFileOf(entries, dest, q)
  {
  }

  lemma {:induction false} LexicalBreaks(entries: seq<Entry>, k: nat)
    requires k < |Links(entries)| && !StaysLexically(Links(entries)[k].0, Links(entries)[k].1)
    ensures !LinksStayLexically(entries)
    decreases |entries|
  {
    hide StaysLexically;
    var front := entries[..|entries| - 1];
    if k < |Links(front)| {
      LexicalBreaks(front, k);
      var i :| 0 <= i < |front| && front[i].Item? && front[i].kind.Symlink? && front[i].kind.target.Some?
        && !StaysLexically(Rel(front[i]), front[i].kind.target.value);
      assert entries[i] == front[i];
    }
  }

  lemma WayClashAny(entries: seq<Entry>, i: nat, dest: Path, q: Path)
    requires i < |entries| && entries[i].Item? && entries[i].kind.Symlink? && q == dest + Rel(entries[i])
    requires OnWay(entries, dest, q)
    ensures !NoClash(entries)
  {
    var j :| 0 <= j < |entries| && entries[j].Item? && !entries[j].kind.Symlink? && q <= dest + Rel(entries[j]);
    SamePrefix(dest, Rel(entries[i]), Rel(entries[j]));
    assert IsLeaf(entries[i]) && entries[j].Item? && Rel(entries[i]) <= Rel(entries[j]);
  }

  lemma FileClashAny(entries: seq<Entry>, i: nat, dest: Path, q: Path)
    requires i < |entries| && entries[i].Item? && entries[i].kind.Symlink? && q <= dest + Rel(entries[i])
    requires IsFileOf(entries, dest, q)
    ensures !NoClash(entries)
  {
    var j :| 0 <= j < |entries| && entries[j].Item? && entries[j].kind.Regular? && q == dest + Rel(entries[j]);
    SamePrefix(dest, Rel(entries[j]), Rel(entries[i]));
    assert IsLeaf(entries[j]) && Rel(entries[j]) <= Rel(entries[i]);
  }

  lemma LinkClash(entries: seq<Entry>, k: nat, l: nat, dest: Path, above: bool)
    requires Distinct(entries) && l < k < |Links(entries)|
    requires var a, b := dest + Links(entries)[k].0, dest + Links(entries)[l].0; if above then a <= b else b <= a
    ensures !NoClash(entries)
  {
    LinksDiffer(entries, l, k);
    var i := LinkHasEntry(entries, k);
    var j := LinkHasEntry(entries, l);
    SamePrefix(dest, Rel(entries[i]), Rel(entries[j]));
    SamePrefix(dest, Rel(entries[j]), Rel(entries[i]));
    assert IsLeaf(entries[i]) && IsLeaf(entries[j]) && i != j;
  }

  // --- the whole archive -------------------------------------------------------------------------

  /** Where everything stands at its own path, nothing stands in the way of anything. */
  lemma PlacedWithoutClash(entries: seq<Entry>, fs: Fs, dest: Path)
    requires WellFormed(fs) && Distinct(entries) && forall i :: 0 <= i < |entries| ==> Placed(entries[i], fs, dest)
    ensures NoClash(entries)
  {
    hide Rel;
    forall i, j | 0 <= i < |entries| && 0 <= j < |entries| && i != j && IsLeaf(entries[i]) && entries[j].Item?
      ensures !(Rel(entries[i]) <= Rel(entries[j]))
    {
      assert Placed(entries[i], fs, dest) && Placed(entries[j], fs, dest);
      assert !fs[dest + Rel(entries[i])].Dir?;
      SamePrefix(dest, Rel(entries[i]), Rel(entries[j]));
      if Rel(entries[i]) <= Rel(entries[j]) && Rel(entries[i]) != Rel(entries[j]) {
        assert dest + Rel(entries[i]) != dest + Rel(entries[j]);
        NotAboveAnything(fs, dest + Rel(entries[j]), dest + Rel(entries[i]));
      }
    }
  }

  lemma UnpackedIsAcceptable(entries: seq<Entry>, start: Fs, fs: Fs, dest: Path, report: Report, links: LinkList)
    requires Unpacked(entries, start, fs, dest, report) && WellFormed(fs) && |entries| <= MAX_ENTRIES
    requires links == Links(entries) && forall k :: 0 <= k < |links| ==> StaysLexically(links[k].0, links[k].1)
    ensures Acceptable(entries) && LinksResolve(entries, fs, dest)
  {
    hide Rel, Covered, StaysLexically, Resolves, IsSafe, Links, FileCount, DirCount, TotalBytes;
    PlacedWithoutClash(entries, fs, dest);
    forall i | 0 <= i < |entries| ensures EntryOk(entries[i]) {
      assert Accepted(entries[i]) && Placed(entries[i], fs, dest);
    }
    forall i | 0 <= i < |entries| && entries[i].Item? && entries[i].kind.Symlink? && entries[i].kind.target.Some?
      ensures StaysLexically(Rel(entries[i]), entries[i].kind.target.value)
    {
      LinkListed(entries, i);
    }
  }

  /** What decides about an archive before it is unpacked: it is acceptable, and in the tree it
      describes every link resolves inside. */
  ghost predicate Unpackable(entries: seq<Entry>, before: Fs, dest: Path) {
    Acceptable(entries) && LinksResolve(entries, TreeOf(entries, before, dest), dest)
  }

  /** Both passes over the entries of an archive, tar or zip. Whatever the entries are, nothing
      outside `dest` changes. What is unpacked is the tree the entries describe; when no call fails,
      exactly the acceptable archives whose links all resolve inside that tree are unpacked. */
  method UnpackEntries(disk: Disk, dest: Path, entries: seq<Entry>) returns (r: Result<Report, ()>)
    requires FreshTree(disk.fs, dest)
    modifies disk
    ensures Growing(old(disk.fs), disk.fs, dest)
    ensures r.Ok? ==> Unpacked(entries, old(disk.fs), disk.fs, dest, r.value) && Unpackable(entries, old(disk.fs), dest)
    ensures r.Ok? || (old(disk.faults) == [] && Acceptable(entries)) ==> disk.fs == TreeOf(entries, old(disk.fs), dest)
    ensures old(disk.faults) == [] ==> disk.faults == []
    ensures old(disk.faults) == [] ==> (r.Ok? <==> Unpackable(entries, old(disk.fs), dest))
  {
    hide FirstPass, Growing, NoLinksYet, Linking, Resolves, Settled, Unpacked, Traced, Acceptable;
    hide LinksResolve, TreeOf, LinksStand, FreshTree;
    ghost var start := disk.fs;
    var first := FirstPassOver(disk, dest, entries);
    var p :- first;
    ghost var mid := disk.fs;
    LinkPathsOk(entries, start, mid, dest, p);
    var ok := MakeLinks(disk, dest, p.links, start);
    if !ok {
      if old(disk.faults) == [] {
        LinksRefused(entries, start, mid, disk.fs, dest, p);
        if LinksStand(disk.fs, dest, p.links) {
          PassesDescribe(entries, start, mid, disk.fs, dest, p);
        }
      }
      return Err(());
    }
    PassesDescribe(entries, start, mid, disk.fs, dest, p);
    BothPasses(entries, start, mid, disk.fs, dest, p);
    GrowingIsWellFormed(start, disk.fs, dest);
    PassedLinks(entries, start, mid, dest, p);
    UnpackedIsAcceptable(entries, start, disk.fs, dest, p.report.(symlinks := |p.links|), p.links);
    return Ok(p.report.(symlinks := |p.links|));
  }

  lemma PassedLinks(entries: seq<Entry>, start: Fs, mid: Fs, dest: Path, p: Progress)
    requires FirstPass(entries, start, mid, dest, p)
    ensures p.links == Links(entries) && Distinct(entries)
  {
  }

  lemma LinksRefused(entries: seq<Entry>, start: Fs, mid: Fs, fs: Fs, dest: Path, p: Progress)
    requires FreshTree(start, dest) && FirstPass(entries, start, mid, dest, p) && Traced(entries, start, mid, dest, p)
    requires forall i :: 0 <= i < |entries| ==> EntryOk(entries[i])
    requires (exists k, at :: StuckAt(mid, at, dest, p.links, k))
          || (LinksStand(fs, dest, p.links) && exists k :: 0 <= k < |p.links| && !Resolves(fs, dest, p.links[k].0))
    ensures !Acceptable(entries) || (LinksStand(fs, dest, p.links) && !LinksResolve(entries, fs, dest))
  {
    hide Traced, StuckAt, Acceptable, Resolves, Settled, LinksStand;
    PassedLinks(entries, start, mid, dest, p);
    if k, at :| StuckAt(mid, at, dest, p.links, k) {
      StuckIsUnacceptable(entries, start, mid, at, dest, p, k);
    } else {
      var k :| 0 <= k < |p.links| && !Resolves(fs, dest, p.links[k].0);
      var i := LinkHasEntry(entries, k);
    }
  }

  /** The loop over the entries: directories and files are placed, links written down. */
  method FirstPassOver(disk: Disk, dest: Path, entries: seq<Entry>) returns (r: Result<Progress, ()>)
    requires FreshTree(disk.fs, dest)
    modifies disk
    ensures Growing(old(disk.fs), disk.fs, dest)
    ensures r.Ok? ==> FirstPass(entries, old(disk.fs), disk.fs, dest, r.value) && |entries| <= MAX_ENTRIES
    ensures r.Ok? && old(disk.faults) == [] ==>
      Traced(entries, old(disk.fs), disk.fs, dest, r.value) && forall i :: 0 <= i < |entries| ==> EntryOk(entries[i])
    ensures old(disk.faults) == [] ==> disk.faults == [] && (r.Err? ==> !Acceptable(entries))
  {
    hide FirstPass, Growing, NoLinksYet, Extends, Settled, Traced, Acceptable, EntryOk, HasRoom, Placed, FreshTree;
    StartsGrowing(disk.fs, dest);
    FirstPassNone(disk.fs, dest);
    TracedNone(disk.fs, dest);
    ghost var start, calm := disk.fs, disk.faults == [];
    var p := Progress({}, [], Report(0, 0, 0, 0));
    var count := 0;
    for i := 0 to |entries|
      invariant Growing(start, disk.fs, dest) && NoLinksYet(disk.fs, dest)
      invariant FirstPass(entries[..i], start, disk.fs, dest, p) && p.report.bytes <= MAX_UNPACKED_BYTES
      invariant calm ==> disk.faults == [] && Traced(entries[..i], start, disk.fs, dest, p)
      invariant calm ==> forall k :: 0 <= k < i ==> EntryOk(entries[k])
      invariant count == i <= MAX_ENTRIES
    {
      assert entries[..i + 1] == entries[..i] + [entries[i]];
      NotOk(entries, i);
      if entries[i].Unreadable? {
        return Err(());
      }
      count := count + 1;
      if count > MAX_ENTRIES {
        return Err(());
      }
      if entries[i].Metadata? {
        FirstPassSkips(entries[..i], start, disk.fs, dest, p);
        if calm {
          TracedSkips(entries[..i], start, disk.fs, dest, p);
        }
        continue;
      }
      ghost var a, before := disk.fs, p;
      GrowingIsWellFormed(start, a, dest);
      var placed := PlaceEntry(disk, dest, entries[i], p, start);
      if placed.Err? {
        if calm && EntryOk(entries[i]) {
          NoRoom(entries, i, start, a, dest, before);
        }
        return Err(());
      }
      p := placed.value;
      FirstPassGrows(entries[..i], entries[i], start, a, disk.fs, dest, before);
      GrowingIsWellFormed(start, disk.fs, dest);
      if calm {
        SettledIsTraced(entries[..i], entries[i], start, a, disk.fs, dest, before);
      }
    }
    assert entries[..|entries|] == entries;
    return Ok(p);
  }

  lemma StartsGrowing(fs: Fs, dest: Path)
    requires FreshTree(fs, dest)
    ensures Growing(fs, fs, dest) && NoLinksYet(fs, dest)
  {
  }

  lemma NotOk(entries: seq<Entry>, i: nat)
    requires i < |entries|
    ensures entries[i].Unreadable? || !EntryOk(entries[i]) ==> !Acceptable(entries)
    ensures |entries| > MAX_ENTRIES ==> !Acceptable(entries)
    ensures entries[i].Metadata? ==> EntryOk(entries[i])
  {
  }

  lemma SettledIsTraced(entries: seq<Entry>, e: Entry, start: Fs, a: Fs, b: Fs, dest: Path, p: Progress)
    requires Traced(entries, start, a, dest, p) && e.Item? && WellFormed(b) && Settled(e, b, dest)
    requires if e.kind.Symlink? then a == b else Extends(a, b, dest + Rel(e))
    ensures Traced(entries + [e], start, b, dest, Counted(p, e))
  {
    hide Traced, WellFormed, Extends, Rel;
    TracedGrows(entries, e, start, a, b, dest, p);
  }
}
