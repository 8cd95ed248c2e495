/** The file system an archive is unpacked into: a map from physical paths to nodes, whose calls
    follow symbolic links the way the system does. */
module ExtractFs {
  import opened Common
  import opened ExtractPath

  const MAX_LINKS_FOLLOWED: nat := 40

  datatype Node = Dir | File(len: nat) | Link(target: string)

  type Fs = map<Path, Node>

  /** Every node stands in a real directory. */
  ghost predicate WellFormed(fs: Fs) {
    && [] in fs && fs[[]].Dir?
    && forall p :: p in fs && p != [] ==> Parent(p) in fs && fs[Parent(p)].Dir?
  }

  /** The physical path that `parts`, read from the directory `at`, leads to. */
  function Canonical(fs: Fs, at: Path, parts: seq<string>, links: nat): Option<Path>
    decreases links, |parts|
  {
    if parts == [] then Some(at)
    else if Skipped(parts[0]) then Canonical(fs, at, parts[1..], links)
    else if parts[0] == ".." then Canonical(fs, Parent(at), parts[1..], links)
    else
      var next := at + [parts[0]];
      if next !in fs then None
      else
        match fs[next]
        case Dir => Canonical(fs, next, parts[1..], links)
        case File(_) => if |parts| == 1 then Some(next) else None
        case Link(target) =>
          if links == 0 || target == "" then None
          else Canonical(fs, if target[0] == '/' then [] else at, Split(target) + parts[1..], links - 1)
  }

  /** Where an absolute path leads. */
  function Resolved(fs: Fs, p: Path): Option<Path> {
    Canonical(fs, [], p, MAX_LINKS_FOLLOWED)
  }

  ghost predicate AllNormal(p: Path) {
    forall i :: 0 <= i < |p| ==> IsNormal(p[i])
  }

  /** No existing part of the path is a link. */
  ghost predicate NoLinkOn(fs: Fs, p: Path) {
    forall k :: 0 <= k <= |p| && p[..k] in fs ==> !fs[p[..k]].Link?
  }

  lemma {:induction false} PrefixIsDir(fs: Fs, p: Path, k: nat)
    requires WellFormed(fs) && p in fs && k < |p|
    ensures p[..k] in fs && fs[p[..k]].Dir?
  {
    if k < |p| - 1 {
      PrefixIsDir(fs, p[..|p| - 1], k);
      assert p[..|p| - 1][..k] == p[..k];
    }
  }

  /** A path without links leads to itself. */
  lemma {:induction false} WithoutLinks(fs: Fs, p: Path, k: nat, links: nat)
    requires WellFormed(fs) && AllNormal(p) && NoLinkOn(fs, p)
    requires k <= |p| && p[..k] in fs && (k < |p| ==> fs[p[..k]].Dir?)
    ensures Canonical(fs, p[..k], p[k..], links) == if p in fs then Some(p) else None
    decreases |p| - k
  {
    if k == |p| {
      assert p[..k] == p;
    } else {
      var next := p[..k] + [p[k]];
      assert next == p[..k + 1] && p[k..][1..] == p[k + 1..] && p[..|p|] == p;
      if next !in fs || (fs[next].File? && k + 1 < |p|) {
        if p in fs && k + 1 < |p| {
          PrefixIsDir(fs, p, k + 1);
        }
      } else {
        WithoutLinks(fs, p, k + 1, links);
      }
    }
  }

  lemma ResolvesToItself(fs: Fs, p: Path)
    requires WellFormed(fs) && AllNormal(p) && NoLinkOn(fs, p)
    ensures Resolved(fs, p) == if p in fs then Some(p) else None
  {
    WithoutLinks(fs, p, 0, MAX_LINKS_FOLLOWED);
    assert p[0..] == p;
  }

  /** Where no link is followed, the place a target is read to lie is the place it leads to. */
  lemma {:induction false} LexicalIsPhysical(fs: Fs, dest: Path, at: Path, parts: seq<string>)
    requires Canonical(fs, dest + at, parts, 0).Some? && Walk(at, parts).Some?
    ensures Canonical(fs, dest + at, parts, 0).value == dest + Walk(at, parts).value
    decreases |parts|
  {
    if parts == [] {
    } else if Skipped(parts[0]) {
      LexicalIsPhysical(fs, dest, at, parts[1..]);
    } else if parts[0] == ".." {
      assert Parent(dest + at) == dest + Parent(at);
      LexicalIsPhysical(fs, dest, Parent(at), parts[1..]);
    } else {
      assert dest + at + [parts[0]] == dest + (at + [parts[0]]);
      if fs[dest + at + [parts[0]]].Dir? {
        LexicalIsPhysical(fs, dest, at + [parts[0]], parts[1..]);
      } else {
        assert parts[1..] == [];
      }
    }
  }

  /** Old nodes are as they were, and every new one lies on the way to `p`. */
  ghost predicate Extends(before: Fs, after: Fs, p: Path) {
    && (forall q :: q in before ==> q in after && after[q] == before[q])
    && (forall q :: q in after ==> q in before || q <= p)
  }

  ghost predicate NoNewLinks(before: Fs, after: Fs) {
    forall q :: q in after && q !in before ==> !after[q].Link?
  }

  /** Every existing part of the path is a directory. */
  ghost predicate AllDirs(fs: Fs, p: Path) {
    forall k :: 0 <= k <= |p| && p[..k] in fs ==> fs[p[..k]].Dir?
  }

  lemma AllDirsSteps(fs: Fs, p: Path)
    requires WellFormed(fs)
    ensures p in fs ==> (AllDirs(fs, p) <==> fs[p].Dir?)
    ensures p != [] && p !in fs ==> (AllDirs(fs, p) <==> AllDirs(fs, Parent(p)))
    ensures p != [] && Parent(p) in fs ==> (AllDirs(fs, Parent(p)) <==> fs[Parent(p)].Dir?)
  {
    assert p[..|p|] == p;
    if p in fs {
      forall k | 0 <= k < |p| ensures p[..k] in fs && fs[p[..k]].Dir? {
        PrefixIsDir(fs, p, k);
      }
    }
    if p != [] {
      var q := Parent(p);
      assert q[..|q|] == q;
      assert forall k :: 0 <= k <= |q| ==> q[..k] == p[..k];
      if q in fs {
        forall k | 0 <= k < |q| ensures q[..k] in fs && fs[q[..k]].Dir? {
          PrefixIsDir(fs, q, k);
        }
      }
    }
  }

  datatype Made = NewDir | NotMade | ParentMissing

  lemma NoLinkOnParent(fs: Fs, p: Path)
    ensures AllNormal(p) && NoLinkOn(fs, p) ==> AllNormal(Parent(p)) && NoLinkOn(fs, Parent(p))
  {
    if p != [] && NoLinkOn(fs, p) {
      forall k | 0 <= k <= |Parent(p)| && Parent(p)[..k] in fs ensures !fs[Parent(p)[..k]].Link? {
        assert Parent(p)[..k] == p[..k];
      }
    }
  }

  lemma ParentExtends(before: Fs, after: Fs, p: Path)
    requires Extends(before, after, Parent(p))
    ensures Extends(before, after, p)
    ensures WellFormed(before) && Parent(p) !in before && p != [] ==> p !in after
    ensures p !in before && p != [] ==> p !in after
  {
  }

  lemma DirIsOwnPath(fs: Fs, p: Path)
    requires WellFormed(fs) && AllNormal(p) && p in fs && fs[p].Dir?
    ensures NoLinkOn(fs, p) && Resolved(fs, p) == Some(p)
  {
    forall k | 0 <= k <= |p| && p[..k] in fs ensures !fs[p[..k]].Link? {
      if k < |p| {
        PrefixIsDir(fs, p, k);
      } else {
        assert p[..k] == p;
      }
    }
    ResolvesToItself(fs, p);
  }

  lemma ReadyForChild(fs: Fs, p: Path)
    requires WellFormed(fs) && AllNormal(p) && p != [] && Parent(p) in fs && fs[Parent(p)].Dir? && p !in fs
    ensures NoLinkOn(fs, p)
  {
    DirIsOwnPath(fs, Parent(p));
    assert p[..|p|] == p;
    forall k | 0 <= k < |p| && p[..k] in fs ensures !fs[p[..k]].Link? {
      assert Parent(p)[..k] == p[..k];
    }
  }

  lemma ExtendsOn(a: Fs, b: Fs, c: Fs, p: Path)
    requires Extends(a, b, p) && Extends(b, c, p)
    ensures Extends(a, c, p)
  {
  }

  lemma NodeAdded(before: Fs, mid: Fs, p: Path, node: Node)
    requires WellFormed(mid) && Extends(before, mid, p) && NoNewLinks(before, mid) && !node.Link?
    requires p !in mid && p != [] && Parent(p) in mid && mid[Parent(p)].Dir?
    ensures WellFormed(mid[p := node]) && Extends(before, mid[p := node], p) && NoNewLinks(before, mid[p := node])
    ensures p !in before
  {
  }

  class Disk {
    var fs: Fs
    var faults: seq<bool> // whether the next input/output calls fail

    constructor (fs: Fs, faults: seq<bool>)
      ensures this.fs == fs && this.faults == faults
    {
      this.fs, this.faults := fs, faults;
    }

    method Fails() returns (failed: bool)
      modifies `faults
      ensures old(faults) == [] ==> !failed && faults == []
    {
      if faults == [] {
        return false;
      }
      failed := faults[0];
      faults := faults[1..];
    }

    /** One directory, whose parent must exist. */
    method MakeDir(p: Path) returns (made: Made)
      requires WellFormed(fs) && p != []
      modifies this
      ensures WellFormed(fs)
      ensures AllNormal(p) && old(NoLinkOn(fs, p)) ==>
        && Extends(old(fs), fs, p) && NoNewLinks(old(fs), fs)
        && (made == NewDir ==> p !in old(fs) && fs == old(fs)[p := Dir])
        && (made != NewDir ==> fs == old(fs))
        && (made == ParentMissing ==> Parent(p) !in fs)
        && (old(faults) == [] && p !in old(fs) && Parent(p) in old(fs) && old(fs)[Parent(p)].Dir? ==> made == NewDir)
        && (old(faults) == [] && Parent(p) !in old(fs) ==> made == ParentMissing)
      ensures old(faults) == [] ==> faults == []
    {
      var failed := Fails();
      if failed {
        return NotMade;
      }
      var parent := Resolved(fs, Parent(p));
      NoLinkOnParent(fs, p);
      if AllNormal(p) && NoLinkOn(fs, p) {
        ResolvesToItself(fs, Parent(p));
        assert Parent(p) + [p[|p| - 1]] == p;
      }
      if parent.None? {
        return ParentMissing;
      }
      var at := parent.value + [p[|p| - 1]];
      if parent.value !in fs || !fs[parent.value].Dir? || at in fs {
        return NotMade;
      }
      fs := fs[at := Dir];
      return NewDir;
    }

    /** Makes the directory and every missing ancestor. */
    method CreateDirAll(p: Path) returns (ok: bool)
      requires WellFormed(fs) && AllNormal(p) && NoLinkOn(fs, p)
      modifies this
      ensures WellFormed(fs) && Extends(old(fs), fs, p) && NoNewLinks(old(fs), fs)
      ensures ok ==> p in fs && fs[p].Dir?
      ensures old(faults) == [] ==> faults == [] && (ok <==> AllDirs(old(fs), p))
      decreases |p|
    {
      hide Canonical, AllNormal, NoLinkOn, Resolved, AllDirs;
      AllDirsSteps(fs, p);
      if p == [] {
        return true;
      }
      var made := MakeDir(p);
      if made == NewDir {
        return true;
      }
      if made == NotMade {
        ResolvesToItself(fs, p);
        var at := Resolved(fs, p);
        return at.Some? && at.value in fs && fs[at.value].Dir?;
      }
      NoLinkOnParent(fs, p);
      ok := CreateDirAll(Parent(p));
      ParentExtends(old(fs), fs, p);
      if ok {
        ghost var between := fs;
        ReadyForChild(fs, p);
        made := MakeDir(p);
        ExtendsOn(old(fs), between, fs, p);
        ok := made == NewDir;
      }
    }

    /** Creates a file that must not exist, with its directories. */
    method CreateNew(p: Path) returns (ok: bool)
      requires WellFormed(fs) && AllNormal(p) && NoLinkOn(fs, p) && p != []
      modifies this
      ensures WellFormed(fs) && Extends(old(fs), fs, p) && NoNewLinks(old(fs), fs)
      ensures ok ==> p !in old(fs) && p in fs && fs[p].File?
      ensures old(faults) == [] ==> faults == [] && (ok <==> AllDirs(old(fs), Parent(p)) && p !in old(fs))
    {
      hide Canonical, AllNormal, NoLinkOn, Resolved, AllDirs, Extends, NoNewLinks, WellFormed;
      NoLinkOnParent(fs, p);
      ok := CreateDirAll(Parent(p));
      ParentExtends(old(fs), fs, p);
      var failed := Fails();
      if !ok || failed {
        return false;
      }
      DirIsOwnPath(fs, Parent(p));
      var parent := Resolved(fs, Parent(p));
      var at := parent.value + [p[|p| - 1]];
      assert at == p;
      if at in fs {
        return false;
      }
      NodeAdded(old(fs), fs, p, File(0));
      fs := fs[at := File(0)];
    }

    /** Writes `len` bytes to a file just created. */
    method Write(p: Path, len: nat, ghost before: Fs)
      requires WellFormed(fs) && p in fs && fs[p].File? && p !in before && Extends(before, fs, p)
      modifies `fs
      ensures fs == old(fs)[p := File(len)] && WellFormed(fs) && Extends(before, fs, p)
    {
      fs := fs[p := File(len)];
    }

    /** Creates a symbolic link that must not exist, in a directory that does. */
    method MakeLink(p: Path, target: string) returns (ok: bool)
      requires WellFormed(fs) && AllNormal(p) && p != [] && NoLinkOn(fs, Parent(p))
      modifies this
      ensures WellFormed(fs) && Extends(old(fs), fs, p)
      ensures ok ==> p !in old(fs) && p in fs && fs[p] == Link(target)
      ensures old(faults) == [] ==> faults == []
      ensures old(faults) == [] ==> (ok <==> p !in old(fs) && Parent(p) in old(fs) && old(fs)[Parent(p)].Dir?)
    {
      var failed := Fails();
      ResolvesToItself(fs, Parent(p));
      var parent := Resolved(fs, Parent(p));
      if failed || parent.None? {
        return false;
      }
      var at := parent.value + [p[|p| - 1]];
      assert at == p;
      if !fs[parent.value].Dir? || at in fs {
        return false;
      }
      fs := fs[at := Link(target)];
      return true;
    }
  }
}
