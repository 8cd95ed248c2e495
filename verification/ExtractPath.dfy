/** Paths of archive entries: what a safe relative path is, and where the target of a link lands
    when it is read as text. */
module ExtractPath {
  import opened Common

  const MAX_DEPTH: nat := 32
  const MAX_PATH_BYTES: nat := 1024

  /** A path as its components. */
  type Path = seq<string>

  function Utf8Size(c: char): nat {
    if c as int < 0x80 then 1 else if c as int < 0x800 then 2 else if c as int < 0x10000 then 3 else 4
  }

  function ByteLength(s: string): nat {
    if s == [] then 0 else Utf8Size(s[0]) + ByteLength(s[1..])
  }

  function Split(s: string): (parts: seq<string>)
    ensures parts != []
    ensures forall i :: 0 <= i < |parts| ==> '/' !in parts[i]
  {
    if s == [] then [""]
    else
      var rest := Split(s[1..]);
      if s[0] == '/' then [""] + rest else [[s[0]] + rest[0]] + rest[1..]
  }

  function Join(parts: seq<string>): string {
    if parts == [] then ""
    else if |parts| == 1 then parts[0]
    else parts[0] + "/" + Join(parts[1..])
  }

  predicate Skipped(part: string) {
    part == "" || part == "."
  }

  /** A component that names an entry of the directory it stands in. */
  predicate IsNormal(part: string) {
    part != "" && part != "." && part != ".." && '/' !in part
  }

  function Kept(parts: seq<string>): seq<string> {
    if parts == [] then []
    else (if Skipped(parts[0]) then [] else [parts[0]]) + Kept(parts[1..])
  }

  predicate Refused(p: string) {
    || p == "" || ByteLength(p) > MAX_PATH_BYTES
    || '\0' in p || '\\' in p || ':' in p
    || p[0] == '/' || p[0] == '~'
  }

  predicate IsSafe(p: string) {
    && !Refused(p)
    && ".." !in Split(p)
    && 0 < |Kept(Split(p))| <= MAX_DEPTH
  }

  /** The components of an entry path; `.` components and empty ones are dropped, anything that
      could lead elsewhere is refused. */
  method SafeRelativePath(p: string) returns (r: Result<Path, ()>)
    ensures r.Ok? <==> IsSafe(p)
    ensures r.Ok? ==> r.value == Kept(Split(p))
  {
    hide Refused, Split, Kept, Skipped;
    if Refused(p) {
      return Err(());
    }
    var parts := Split(p);
    var out: Path := [];
    var depth := 0;
    assert parts[0..] == parts && out + Kept(parts) == Kept(parts);
    for i := 0 to |parts|
      invariant depth == |out| && out + Kept(parts[i..]) == Kept(parts)
      invariant forall k :: 0 <= k < i ==> parts[k] != ".."
    {
      KeptStep(parts, i, out);
      if Skipped(parts[i]) {
        continue;
      }
      if parts[i] == ".." {
        return Err(());
      }
      depth := depth + 1;
      out := out + [parts[i]];
    }
    KeptNothing(parts[|parts|..]);
    if depth == 0 || depth > MAX_DEPTH {
      return Err(());
    }
    return Ok(out);
  }

  lemma KeptStep(parts: seq<string>, i: nat, out: Path)
    requires i < |parts|
    ensures out + Kept(parts[i..]) == (if Skipped(parts[i]) then out else out + [parts[i]]) + Kept(parts[i + 1..])
    ensures parts[i] == ".." ==> !Skipped(parts[i])
  {
  }

  lemma KeptNothing(parts: seq<string>)
    requires parts == []
    ensures Kept(parts) == []
  {
  }

  lemma {:induction false} KeptIsNormal(parts: seq<string>, i: nat)
    requires forall k :: 0 <= k < |parts| ==> '/' !in parts[k]
    requires ".." !in parts && i < |Kept(parts)|
    ensures IsNormal(Kept(parts)[i])
  {
    if Skipped(parts[0]) {
      KeptIsNormal(parts[1..], i);
    } else if i > 0 {
      KeptIsNormal(parts[1..], i - 1);
    }
  }

  /** Every component of a safe path names an entry of its own directory, and no character of it
      means more than itself elsewhere. */
  lemma SafePathStaysBelow(p: string)
    requires IsSafe(p)
    ensures forall i :: 0 <= i < |Kept(Split(p))| ==> IsNormal(Kept(Split(p))[i])
    ensures p != "" && p[0] !in "/~" && forall c :: c in "\0\\:" ==> c !in p
    ensures 1 <= |Kept(Split(p))| <= 32 && ByteLength(p) <= 1024
  {
    forall i | 0 <= i < |Kept(Split(p))| ensures IsNormal(Kept(Split(p))[i]) {
      KeptIsNormal(Split(p), i);
    }
  }

  lemma {:induction false} SplitPart(part: string, rest: string)
    requires '/' !in part
    ensures Split(part + "/" + rest) == [part] + Split(rest)
  {
    if part == "" {
      assert (part + "/" + rest)[1..] == rest;
    } else {
      assert (part + "/" + rest)[1..] == part[1..] + "/" + rest;
      SplitPart(part[1..], rest);
      assert [part[0]] + part[1..] == part;
    }
  }

  lemma {:induction false} SplitOne(part: string)
    requires '/' !in part
    ensures Split(part) == [part]
  {
    if part != "" {
      SplitOne(part[1..]);
      assert [part[0]] + part[1..] == part;
    }
  }

  lemma {:induction false} SplitsBack(parts: seq<string>)
    requires parts != [] && forall i :: 0 <= i < |parts| ==> '/' !in parts[i]
    ensures Split(Join(parts)) == parts
  {
    if |parts| == 1 {
      SplitOne(parts[0]);
    } else {
      SplitPart(parts[0], Join(parts[1..]));
      SplitsBack(parts[1..]);
    }
  }

  lemma {:induction false} NormalPartsAreKept(parts: seq<string>)
    requires forall i :: 0 <= i < |parts| ==> IsNormal(parts[i])
    ensures Kept(parts) == parts
  {
    if parts != [] {
      NormalPartsAreKept(parts[1..]);
    }
  }

  /** Writing the components out and reading them back gives the same components. */
  lemma SplitJoin(parts: seq<string>)
    requires parts != [] && forall i :: 0 <= i < |parts| ==> IsNormal(parts[i])
    ensures Split(Join(parts)) == parts && Kept(parts) == parts
  {
    hide Split, Join, Kept;
    SplitsBack(parts);
    NormalPartsAreKept(parts);
  }

  lemma {:induction false} JoinedChars(parts: seq<string>, c: char)
    requires c != '/' && forall i :: 0 <= i < |parts| ==> c !in parts[i]
    ensures c !in Join(parts)
  {
    if |parts| > 1 {
      JoinedChars(parts[1..], c);
    }
  }

  /** A component without special characters. */
  predicate IsPlainPart(part: string) {
    IsNormal(part) && '\0' !in part && '\\' !in part && ':' !in part
  }

  lemma JoinBegins(parts: seq<string>)
    requires parts != [] && parts[0] != ""
    ensures Join(parts) != "" && Join(parts)[0] == parts[0][0]
  {
  }

  /** All of these are accepted: at most 32 plain components, 1024 bytes in all, the first not
      starting with a tilde. */
  lemma PlainPathIsSafe(parts: seq<string>)
    requires 1 <= |parts| <= 32 && forall i :: 0 <= i < |parts| ==> IsPlainPart(parts[i])
    requires !("~" <= parts[0]) && ByteLength(Join(parts)) <= 1024
    ensures IsSafe(Join(parts)) && Kept(Split(Join(parts))) == parts
  {
    hide Split, Kept, ByteLength, Join;
    SplitJoin(parts);
    JoinedChars(parts, '\0');
    JoinedChars(parts, '\\');
    JoinedChars(parts, ':');
    JoinBegins(parts);
  }

  /** Plain ASCII text has one byte for each character. */
  lemma {:induction false} AsciiLength(s: string)
    requires forall i :: 0 <= i < |s| ==> s[i] as int < 0x80
    ensures ByteLength(s) == |s|
  {
    if s != [] {
      AsciiLength(s[1..]);
    }
  }

  // --- link targets ------------------------------------------------------------------------

  predicate TargetRefused(target: string) {
    target == "" || target[0] == '/' || '\0' in target || '\\' in target || ':' in target
  }

  /** Walks `parts` from `at`; `None` when it climbs above the root. */
  function Walk(at: Path, parts: seq<string>): Option<Path>
    decreases |parts|
  {
    if parts == [] then Some(at)
    else if Skipped(parts[0]) then Walk(at, parts[1..])
    else if parts[0] == ".." then (if at == [] then None else Walk(at[..|at| - 1], parts[1..]))
    else Walk(at + [parts[0]], parts[1..])
  }

  function Parent(p: Path): Path {
    if p == [] then [] else p[..|p| - 1]
  }

  /** Where `target` lands, relative to the root of the tree, when the link sits at `link`. */
  method LexicalTarget(link: Path, target: string) returns (r: Option<Path>)
    ensures r == if TargetRefused(target) then None else Walk(Parent(link), Split(target))
  {
    if TargetRefused(target) {
      return None;
    }
    var parts := Parent(link);
    var words := Split(target);
    for i := 0 to |words|
      invariant Walk(Parent(link), words) == Walk(parts, words[i..])
    {
      assert words[i..][1..] == words[i + 1..];
      if Skipped(words[i]) {
      } else if words[i] == ".." {
        if parts == [] {
          return None;
        }
        parts := parts[..|parts| - 1];
      } else {
        parts := parts + [words[i]];
      }
    }
    return Some(parts);
  }
}
