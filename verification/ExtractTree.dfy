/** The one tree an archive describes: its entries at their own paths, and the directories above them. */
module ExtractTree {
  import opened Common
  import opened ExtractPath
  import opened ExtractFs
  import opened ExtractUnpack

  /** Every entry stands at its own path, and everything new lies on the way to an entry. */
  ghost predicate Described(entries: seq<Entry>, before: Fs, after: Fs, dest: Path) {
    && (forall p :: p in before ==> p in after && after[p] == before[p])
    && (forall i :: 0 <= i < |entries| ==> Placed(entries[i], after, dest))
    && (forall p :: p in after ==> p in before || Covered(entries, dest, p))
  }

  /** The paths below `dest` that lead to an entry. */
  ghost function Ways(entries: seq<Entry>, dest: Path): set<Path> {
    set i, k | 0 <= i < |entries| && entries[i].Item? && |dest| < k <= |dest + Rel(entries[i])| ::
      (dest + Rel(entries[i]))[..k]
  }

  ghost predicate LeafAt(entries: seq<Entry>, dest: Path, p: Path, i: int) {
    0 <= i < |entries| && IsLeaf(entries[i]) && dest + Rel(entries[i]) == p
  }

  function NodeOf(e: Entry): Node {
    if e.Item? && e.kind.Regular? then File(e.kind.len)
    else if e.Item? && e.kind.Symlink? && e.kind.target.Some? then Link(e.kind.target.value)
    else Dir
  }

  /** What stands at a path that leads to an entry: the file or link of that path, or a directory. */
  ghost function NodeAt(entries: seq<Entry>, dest: Path, p: Path): Node {
    if i :| LeafAt(entries, dest, p, i) then NodeOf(entries[i]) else Dir
  }

  /** The tree, from the entries and what was there before. */
  ghost function TreeOf(entries: seq<Entry>, before: Fs, dest: Path): Fs {
    map p | p in before.Keys + Ways(entries, dest) :: if p in before then before[p] else NodeAt(entries, dest, p)
  }

  /** What stands above something is a directory. */
  lemma NotAboveAnything(fs: Fs, p: Path, q: Path)
    requires WellFormed(fs) && p in fs && q <= p && q != p
    ensures q in fs && fs[q].Dir?
  {
    PrefixIsDir(fs, p, |q|);
    assert p[..|q|] == q;
  }

  lemma WayStands(entries: seq<Entry>, before: Fs, fs: Fs, dest: Path, p: Path)
    requires WellFormed(fs) && Described(entries, before, fs, dest) && p in Ways(entries, dest)
    ensures p in fs && (p !in before ==> fs[p] == NodeAt(entries, dest, p))
  {
    hide WellFormed, Covered, Rel;
    var i, k :| 0 <= i < |entries| && entries[i].Item? && |dest| < k <= |dest + Rel(entries[i])|
      && p == (dest + Rel(entries[i]))[..k];
    var at := dest + Rel(entries[i]);
    assert Placed(entries[i], fs, dest);
    if p != at {
      NotAboveAnything(fs, at, p);
    }
    if exists j :: LeafAt(entries, dest, p, j) {
      assert forall j :: LeafAt(entries, dest, p, j) ==> Placed(entries[j], fs, dest) && fs[p] == NodeOf(entries[j]);
    } else if p == at {
      assert LeafAt(entries, dest, p, i) || entries[i].kind.Directory?;
    }
  }

  lemma NewIsOnWay(entries: seq<Entry>, before: Fs, dest: Path, p: Path)
    requires WellFormed(before) && dest in before && Covered(entries, dest, p) && p !in before
    ensures p in Ways(entries, dest)
  {
    if p <= dest {
      if p != dest {
        NotAboveAnything(before, dest, p);
      }
      assert false;
    }
    var i :| 0 <= i < |entries| && entries[i].Item? && p <= dest + Rel(entries[i]);
    assert p == (dest + Rel(entries[i]))[..|p|];
    PastDest(dest, Rel(entries[i]), p);
  }

  lemma PastDest(dest: Path, rel: Path, p: Path)
    requires p <= dest + rel
    ensures p <= dest || |p| > |dest|
  {
  }

  /** Nothing else fits the description. */
  lemma DescribedIsTree(entries: seq<Entry>, before: Fs, fs: Fs, dest: Path)
    requires WellFormed(before) && dest in before && WellFormed(fs) && Described(entries, before, fs, dest)
    ensures fs == TreeOf(entries, before, dest)
  {
    hide WellFormed, Covered, NodeAt, Ways;
    forall p ensures p in fs <==> p in before.Keys + Ways(entries, dest)
      ensures p in fs && p !in before ==> fs[p] == NodeAt(entries, dest, p)
    {
      if p in Ways(entries, dest) {
        WayStands(entries, before, fs, dest, p);
      } else if p in fs && p !in before {
        NewIsOnWay(entries, before, dest, p);
      }
    }
  }
}
