/** The archive formats, and the extraction of a verified artifact into a directory that does not
    exist yet. */
module ExtractArchive {
  import opened Common
  import opened ExtractPath
  import opened ExtractFs
  import opened ExtractUnpack
  import opened ExtractTree
  import opened ExtractEntries

  // --- zip: the records of the central directory ---------------------------------------------

  type Bytes = seq<nat>

  const RECORD_SIZE: nat := 46
  const RECORD_MARK: Bytes := [0x50, 0x4B, 1, 2]

  function U16(bytes: Bytes, at: nat): nat
    requires at + 2 <= |bytes|
  {
    bytes[at] + 256 * bytes[at + 1]
  }

  predicate RecordAt(bytes: Bytes, at: nat) {
    at + RECORD_SIZE <= |bytes| && bytes[at..at + 4] == RECORD_MARK
  }

  /** A record with its name, extra field and comment. */
  function RecordLength(bytes: Bytes, at: nat): nat
    requires RecordAt(bytes, at)
  {
    RECORD_SIZE + U16(bytes, at + 28) + U16(bytes, at + 30) + U16(bytes, at + 32)
  }

  function RecordsFrom(bytes: Bytes, at: nat): nat
    decreases |bytes| - at
  {
    if RecordAt(bytes, at) then 1 + RecordsFrom(bytes, at + RecordLength(bytes, at)) else 0
  }

  /** The number of records that sit back to back from `start`. */
  method ZipCentralRecords(bytes: Bytes, start: nat) returns (r: Result<nat, ()>)
    ensures r == if RecordsFrom(bytes, start) <= MAX_ENTRIES then Ok(RecordsFrom(bytes, start)) else Err(())
  {
    var n, at := 0, start;
    while RecordAt(bytes, at)
      invariant RecordsFrom(bytes, start) == n + RecordsFrom(bytes, at) && n <= MAX_ENTRIES
      decreases |bytes| - at
    {
      n := n + 1;
      if n > MAX_ENTRIES {
        return Err(());
      }
      at := at + RecordLength(bytes, at);
    }
    return Ok(n);
  }

  predicate IsRecord(record: Bytes) {
    RecordAt(record, 0) && RecordLength(record, 0) == |record|
  }

  function Concatenated(records: seq<Bytes>): Bytes {
    if records == [] then [] else records[0] + Concatenated(records[1..])
  }

  lemma RecordInside(front: Bytes, record: Bytes, rest: Bytes)
    requires IsRecord(record)
    ensures RecordAt(front + record + rest, |front|)
    ensures RecordLength(front + record + rest, |front|) == |record|
  {
  }

  lemma NoRecordAfter(front: Bytes, tail: Bytes)
    requires !RecordAt(tail, 0)
    ensures !RecordAt(front + tail, |front|)
  {
    if |tail| >= RECORD_SIZE {
      assert (front + tail)[|front|..|front| + 4] == tail[0..4];
    }
  }

  lemma Regrouped(front: Bytes, first: Bytes, others: Bytes, tail: Bytes)
    ensures front + (first + others) + tail == front + first + (others + tail) == (front + first) + others + tail
  {
  }

  /** Written one after another, exactly the records are counted. */
  lemma {:induction false} CountsEveryRecord(front: Bytes, records: seq<Bytes>, tail: Bytes)
    requires forall i :: 0 <= i < |records| ==> IsRecord(records[i])
    requires !RecordAt(tail, 0)
    ensures RecordsFrom(front + Concatenated(records) + tail, |front|) == |records|
    decreases |records|
  {
    hide RecordLength, IsRecord, RecordAt;
    if records == [] {
      assert front + [] + tail == front + tail;
      NoRecordAfter(front, tail);
    } else {
      var first, others := records[0], Concatenated(records[1..]);
      RecordInside(front, first, others + tail);
      Regrouped(front, first, others, tail);
      CountsEveryRecord(front + first, records[1..], tail);
    }
  }

  /** A number below 65536 in two bytes, the low one first. */
  function LittleEndian(n: nat): Bytes {
    [n % 256, n / 256]
  }

  /** A record as the zip format lays it out: the mark, 24 bytes, three lengths, 12 bytes, then
      name, extra field and comment. */
  function LaidOut(middle: Bytes, name: Bytes, extra: Bytes, comment: Bytes, last: Bytes): Bytes {
    [0x50, 0x4B, 0x01, 0x02] + middle + LittleEndian(|name|) + LittleEndian(|extra|) + LittleEndian(|comment|) + last
    + name + extra + comment
  }

  /** What is laid out so is one record, of exactly this length. */
  lemma LaidOutIsRecord(middle: Bytes, name: Bytes, extra: Bytes, comment: Bytes, last: Bytes)
    requires |middle| == 24 && |last| == 12
    requires |name| < 0x1_0000 && |extra| < 0x1_0000 && |comment| < 0x1_0000
    ensures IsRecord(LaidOut(middle, name, extra, comment, last))
  {
    var record := LaidOut(middle, name, extra, comment, last);
    assert record[0..4] == RECORD_MARK;
    assert record[28] == |name| % 256 && record[29] == |name| / 256;
    assert record[30] == |extra| % 256 && record[31] == |extra| / 256;
    assert record[32] == |comment| % 256 && record[33] == |comment| / 256;
  }

  // --- zip: entries ------------------------------------------------------------------------

  /** A record as the zip reader opens it. */
  datatype ZipRecord = ZipRecord(
    name: Bytes,
    path: Option<string>,
    mode: Option<nat>,
    len: nat,
    opens: bool,
    readable: bool,
    content: Option<string>,
    contentLen: nat)

  const TYPE_UNIT: nat := 0x1000
  const TYPE_DIRECTORY: nat := 4
  const TYPE_REGULAR: nat := 8
  const TYPE_SYMLINK: nat := 10
  const MAX_LINK_TARGET_BYTES: nat := 1024

  /** The file type in the unix mode; zero when the archiver recorded none. */
  function TypeOf(mode: Option<nat>): nat {
    mode.GetOr(0) / TYPE_UNIT % 16
  }

  function AsEntry(z: ZipRecord): Entry {
    if !z.opens then Unreadable
    else if z.path.None? then Item(None, Special)
    else if z.path.value != "" && z.path.value[|z.path.value| - 1] == '/' then
      Item(z.path, if TypeOf(z.mode) == 0 || TypeOf(z.mode) == TYPE_DIRECTORY then Directory else Special)
    else if TypeOf(z.mode) == 0 || TypeOf(z.mode) == TYPE_REGULAR then Item(z.path, Regular(z.len, z.readable))
    else if TypeOf(z.mode) == TYPE_SYMLINK then
      Item(z.path, Symlink(if z.readable && z.contentLen <= MAX_LINK_TARGET_BYTES then z.content else None))
    else Item(z.path, Special)
  }

  predicate EndsInSlash(path: string) {
    path != "" && path[|path| - 1] == '/'
  }

  /** A record that may be unpacked, by its path and the four type bits of its unix mode: none, or 4
      for a directory, 8 for a file, 10 for a link. */
  predicate RecordOk(z: ZipRecord) {
    && z.opens && z.path.Some? && IsSafe(z.path.value)
    && var bits := z.mode.GetOr(0) / 0x1000 % 16;
       if EndsInSlash(z.path.value) then bits in {0, 4}
       else if bits in {0, 8} then z.readable
       else bits == 10 && z.readable && z.contentLen <= 1024 && z.content.Some?
  }

  /** What stands for it: a directory, a file of its length, or a link to its content. */
  function RecordNode(z: ZipRecord): Node
    requires RecordOk(z)
  {
    if EndsInSlash(z.path.value) then Dir
    else if z.mode.GetOr(0) / 0x1000 % 16 == 10 then Link(z.content.value)
    else File(z.len)
  }

  ghost predicate RecordStands(z: ZipRecord, fs: Fs, dest: Path) {
    RecordOk(z) && dest + Kept(Split(z.path.value)) in fs && fs[dest + Kept(Split(z.path.value))] == RecordNode(z)
  }

  /** Exactly these records are acceptable, and they stand as what they are. */
  lemma RecordIsEntry(z: ZipRecord, fs: Fs, dest: Path)
    ensures EntryOk(AsEntry(z)) <==> RecordOk(z)
    ensures EntryOk(AsEntry(z)) && Placed(AsEntry(z), fs, dest) ==> RecordStands(z, fs, dest)
  {
    hide IsSafe, Kept, Split;
  }

  lemma RecordsStand(records: seq<ZipRecord>, before: Fs, fs: Fs, dest: Path, report: Report)
    requires Unpacked(AsEntries(records), before, fs, dest, report)
    ensures forall i :: 0 <= i < |records| ==> RecordStands(records[i], fs, dest)
  {
    hide AsEntry, AsEntries, RecordStands, RecordOk, Placed, Accepted, Covered, Resolves, EntryOk;
    hide FileCount, DirCount, TotalBytes, Links, Distinct;
    forall i | 0 <= i < |records| ensures RecordStands(records[i], fs, dest) {
      assert AsEntries(records)[i] == AsEntry(records[i]);
      StandingIsOk(AsEntry(records[i]), fs, dest);
      RecordIsEntry(records[i], fs, dest);
    }
  }

  lemma StandingIsOk(e: Entry, fs: Fs, dest: Path)
    requires Accepted(e) && Placed(e, fs, dest)
    ensures EntryOk(e)
  {
  }

  function AsEntries(records: seq<ZipRecord>): (entries: seq<Entry>)
    ensures |entries| == |records| && forall i :: 0 <= i < |records| ==> entries[i] == AsEntry(records[i])
  {
    if records == [] then [] else AsEntries(records[..|records| - 1]) + [AsEntry(records[|records| - 1])]
  }

  /** The names the zip reader keys its entries by. */
  function Names(records: seq<ZipRecord>): set<Bytes> {
    set i | 0 <= i < |records| :: records[i].name
  }

  ghost predicate NamesDiffer(records: seq<ZipRecord>) {
    forall i, j :: 0 <= i < j < |records| ==> records[i].name != records[j].name
  }

  lemma {:induction false} NamesCount(records: seq<ZipRecord>)
    ensures |Names(records)| <= |records|
    ensures |Names(records)| == |records| <==> NamesDiffer(records)
  {
    if records != [] {
      var front, last := records[..|records| - 1], records[|records| - 1].name;
      NamesCount(front);
      NamesGrow(front, records[|records| - 1]);
      assert records == front + [records[|records| - 1]];
      if last in Names(front) {
        var i :| 0 <= i < |front| && front[i].name == last;
        assert records[i].name == records[|records| - 1].name;
      }
    }
  }

  lemma NamesGrow(front: seq<ZipRecord>, last: ZipRecord)
    ensures Names(front + [last]) == Names(front) + {last.name}
    ensures NamesDiffer(front + [last]) <==> NamesDiffer(front) && last.name !in Names(front)
  {
    var all := front + [last];
    assert all[|front|] == last;
    assert forall i :: 0 <= i < |front| ==> all[i] == front[i];
    forall name | name in Names(front) ensures name in Names(all) {
      var i :| 0 <= i < |front| && front[i].name == name;
      assert all[i].name == name;
    }
  }

  /** A zip archive: the same rules, no name twice, and no record the reader left out. The reader
      walked `records` back to back from `start`; it may have stopped early (a count field or a
      second end record can make it), and a name it saw twice leaves it with fewer names. */
  method UnpackZip(disk: Disk, dest: Path, bytes: Bytes, start: nat, records: seq<ZipRecord>)
    returns (r: Result<Report, ()>)
    requires FreshTree(disk.fs, dest)
    requires RecordsFrom(bytes, start) >= |records|
    modifies disk
    ensures Growing(old(disk.fs), disk.fs, dest)
    ensures r.Ok? ==> Unpacked(AsEntries(records), old(disk.fs), disk.fs, dest, r.value)
    ensures r.Ok? ==> RecordsFrom(bytes, start) == |records| && NamesDiffer(records)
    ensures r.Ok? ==> forall i :: 0 <= i < |records| ==> RecordStands(records[i], disk.fs, dest)
    ensures r.Ok? ==>
      Unpackable(AsEntries(records), old(disk.fs), dest) && disk.fs == TreeOf(AsEntries(records), old(disk.fs), dest)
    ensures old(disk.faults) == [] ==> disk.faults == []
    ensures old(disk.faults) == [] ==>
      (r.Ok? <==> RecordsFrom(bytes, start) == |records| && NamesDiffer(records) && Unpackable(AsEntries(records), old(disk.fs), dest))
  {
    hide Growing, Unpacked, AsEntry, LinksResolve, TreeOf, RecordStands;
    StartsGrowing(disk.fs, dest);
    NamesCount(records);
    if |Names(records)| > MAX_ENTRIES {
      return Err(());
    }
    var walked :- ZipCentralRecords(bytes, start);
    if walked != |Names(records)| {
      return Err(());
    }
    r := UnpackEntries(disk, dest, AsEntries(records));
    if r.Ok? {
      RecordsStand(records, old(disk.fs), disk.fs, dest, r.value);
    }
  }

  // --- any format ----------------------------------------------------------------------------

  /** An artifact as its bytes decode; `Broken` when they do not. */
  datatype Archive =
    | Raw(len: nat)
    | Tar(entries: seq<Entry>)
    | Zip(bytes: Bytes, start: nat, records: seq<ZipRecord>)
    | Broken

  /** The zip reader walks records that sit back to back; it has read all of them or fewer. */
  ghost predicate Consistent(archive: Archive) {
    archive.Zip? ==> RecordsFrom(archive.bytes, archive.start) >= |archive.records|
  }

  /** The reader left no record out and saw no name twice. */
  ghost predicate ReadInFull(archive: Archive) {
    archive.Zip? ==> RecordsFrom(archive.bytes, archive.start) == |archive.records| && NamesDiffer(archive.records)
  }

  /** Every record of a zip stands as what it is. */
  ghost predicate ZipStands(archive: Archive, fs: Fs, dest: Path) {
    archive.Zip? ==> forall i :: 0 <= i < |archive.records| ==> RecordStands(archive.records[i], fs, dest)
  }

  function EntriesOf(archive: Archive, rawName: string): seq<Entry> {
    match archive
    case Raw(len) => [Item(Some(rawName), Regular(len, true))]
    case Tar(entries) => entries
    case Zip(_, _, records) => AsEntries(records)
    case Broken => [Unreadable]
  }

  /** What decides about an artifact before it is unpacked. */
  ghost predicate Fits(archive: Archive, rawName: string, before: Fs, dest: Path) {
    match archive
    case Raw(_) => IsSafe(rawName)
    case Tar(entries) => Unpackable(entries, before, dest)
    case Zip(_, _, records) => ReadInFull(archive) && Unpackable(AsEntries(records), before, dest)
    case Broken => false
  }

  /** A raw artifact is the tree of its one entry, of any length. */
  lemma SingleTree(start: Fs, fs: Fs, dest: Path, name: string, len: nat)
    requires FreshTree(start, dest) && WellFormed(fs) && IsSafe(name)
    requires Extends(start, fs, dest + Kept(Split(name))) && dest + Kept(Split(name)) in fs
    requires fs[dest + Kept(Split(name))] == File(len)
    ensures fs == TreeOf([Item(Some(name), Regular(len, true))], start, dest)
  {
    hide WellFormed, TreeOf, Kept, Split;
    var entries := [Item(Some(name), Regular(len, true))];
    assert entries[0].Item? && Rel(entries[0]) == Kept(Split(name));
    DescribedIsTree(entries, start, fs, dest);
  }

  lemma EmptyHasRoom(fs: Fs, dest: Path, rel: Path)
    requires FreshTree(fs, dest) && rel != []
    ensures AllDirs(fs, Parent(dest + rel)) && dest + rel !in fs
  {
    forall k | 0 <= k <= |Parent(dest + rel)| && Parent(dest + rel)[..k] in fs ensures fs[Parent(dest + rel)[..k]].Dir? {
      var q := Parent(dest + rel)[..k];
      if k < |dest| {
        assert q == dest[..k];
        PrefixIsDir(fs, dest, k);
      } else {
        assert dest <= q;
      }
    }
    assert dest <= dest + rel && dest + rel != dest;
  }

  lemma SingleFile(start: Fs, fs: Fs, dest: Path, name: string, len: nat)
    requires IsSafe(name) && len <= MAX_UNPACKED_BYTES
    requires Extends(start, fs, dest + Kept(Split(name))) && dest + Kept(Split(name)) in fs
    requires fs[dest + Kept(Split(name))] == File(len)
    ensures Unpacked([Item(Some(name), Regular(len, true))], start, fs, dest, Report(1, 0, 0, len))
  {
    var entries := [Item(Some(name), Regular(len, true))];
    FirstPassNone(start, dest);
    FirstPassGrows([], entries[0], start, start, fs, dest, Progress({}, [], Report(0, 0, 0, 0)));
    assert [] + entries == entries;
    LinkingNone(fs, dest);
    BothPasses(entries, start, fs, fs, dest, Counted(Progress({}, [], Report(0, 0, 0, 0)), entries[0]));
  }

  /** Into the fresh directory, by format. A raw artifact becomes the one file `rawName`. */
  method ExtractInto(disk: Disk, dest: Path, archive: Archive, rawName: string) returns (r: Result<Report, ()>)
    requires FreshTree(disk.fs, dest) && Consistent(archive)
    modifies disk
    ensures Growing(old(disk.fs), disk.fs, dest)
    ensures r.Ok? ==> ReadInFull(archive) && ZipStands(archive, disk.fs, dest)
    ensures r.Ok? && (archive.Raw? ==> archive.len <= MAX_UNPACKED_BYTES) ==>
      Unpacked(EntriesOf(archive, rawName), old(disk.fs), disk.fs, dest, r.value)
    ensures r.Ok? ==>
      Fits(archive, rawName, old(disk.fs), dest) && disk.fs == TreeOf(EntriesOf(archive, rawName), old(disk.fs), dest)
    ensures old(disk.faults) == [] ==> disk.faults == []
    ensures old(disk.faults) == [] ==> (r.Ok? <==> Fits(archive, rawName, old(disk.fs), dest))
  {
    hide Growing, Unpacked, Extends, NoLinksYet, NoLinkOn, AllNormal, AllDirs, TreeOf, Unpackable, FreshTree;
    hide IsSafe, Kept, Split, RecordStands;
    ghost var before := disk.fs;
    StartsGrowing(disk.fs, dest);
    match archive
    case Raw(len) =>
      var rel :- SafeRelativePath(rawName);
      NormalRel(Item(Some(rawName), Regular(len, true)));
      PathReadyWhileGrowing(disk.fs, disk.fs, dest, rel);
      EmptyHasRoom(disk.fs, dest, rel);
      var made := disk.CreateNew(dest + rel);
      if !made {
        StaysGrowing(old(disk.fs), old(disk.fs), disk.fs, dest, rel);
        return Err(());
      }
      disk.Write(dest + rel, len, old(disk.fs));
      StaysGrowing(old(disk.fs), old(disk.fs), disk.fs, dest, rel);
      var failed := disk.Fails();
      if failed {
        return Err(());
      }
      SingleTree(before, disk.fs, dest, rawName, len);
      if len <= MAX_UNPACKED_BYTES {
        SingleFile(old(disk.fs), disk.fs, dest, rawName, len);
      }
      return Ok(Report(1, 0, 0, len));
    case Tar(entries) =>
      r := UnpackEntries(disk, dest, entries);
    case Zip(bytes, start, records) =>
      r := UnpackZip(disk, dest, bytes, start, records);
    case Broken => return Err(());
  }

  function Without(fs: Fs, dest: Path): Fs {
    map p | p in fs && !(dest <= p) :: fs[p]
  }

  method RemoveDirAll(disk: Disk, dest: Path)
    modifies disk
    ensures disk.fs == Without(old(disk.fs), dest) || (disk.fs == old(disk.fs) && old(disk.faults) != [])
  {
    var failed := disk.Fails();
    if !failed {
      disk.fs := Without(disk.fs, dest);
    }
  }

  /** The destination does not exist, and its parent is a directory. */
  predicate HasPlace(fs: Fs, dest: Path) {
    dest !in fs && Parent(dest) in fs && fs[Parent(dest)].Dir?
  }

  /** Unpacks a verified artifact into `dest`, given at its canonical place, which must not exist
      yet. Only what lies under `dest` changes; a failure removes it again, if it can be removed. */
  method Extract(disk: Disk, dest: Path, archive: Archive, rawName: string) returns (r: Result<Report, ()>)
    requires WellFormed(disk.fs) && AllNormal(dest) && dest != [] && NoLinkOn(disk.fs, dest) && Consistent(archive)
    modifies disk
    ensures OutsideUntouched(old(disk.fs), disk.fs, dest)
    ensures r.Ok? ==> dest !in old(disk.fs) && WellFormed(disk.fs) && ReadInFull(archive) && ZipStands(archive, disk.fs, dest)
    ensures r.Ok? && (archive.Raw? ==> archive.len <= MAX_UNPACKED_BYTES) ==>
      Unpacked(EntriesOf(archive, rawName), old(disk.fs)[dest := Dir], disk.fs, dest, r.value)
    ensures r.Ok? ==> disk.fs == TreeOf(EntriesOf(archive, rawName), old(disk.fs)[dest := Dir], dest)
    ensures r.Err? ==> disk.fs == old(disk.fs) || (dest !in old(disk.fs) && dest in disk.fs && old(disk.faults) != [])
    ensures old(disk.faults) == [] ==>
      (r.Ok? <==> HasPlace(old(disk.fs), dest) && Fits(archive, rawName, old(disk.fs)[dest := Dir], dest))
  {
    hide Unpacked, NoLinkOn, AllNormal, TreeOf, Fits, Growing, FreshTree, OutsideUntouched, WellFormed;
    hide Consistent, ReadInFull, ZipStands;
    hide Without, Extends, NoNewLinks;
    ghost var start := disk.fs;
    SameOutside(start, dest);
    var made := disk.MakeDir(dest);
    if made != NewDir {
      return Err(());
    }
    NewDirIsFresh(start, disk.fs, dest);
    r := ExtractInto(disk, dest, archive, rawName);
    GrownOutside(start, disk.fs, dest);
    if r.Err? {
      RemovalRestores(start, disk.fs, dest);
      RemoveDirAll(disk, dest);
    }
  }

  lemma HasAncestors(fs: Fs, p: Path, dest: Path)
    requires WellFormed(fs) && p in fs
    ensures dest <= p ==> dest in fs
  {
    if dest < p {
      PrefixIsDir(fs, p, |dest|);
      assert p[..|dest|] == dest;
    } else if dest <= p {
      assert p == dest;
    }
  }

  lemma NewDirIsFresh(start: Fs, fs: Fs, dest: Path)
    requires WellFormed(start) && WellFormed(fs) && AllNormal(dest) && dest != []
    requires fs == start[dest := Dir] && dest !in start
    ensures FreshTree(fs, dest) && HasPlace(start, dest)
  {
    forall p | p in start ensures !(dest <= p) {
      HasAncestors(start, p, dest);
    }
  }

  lemma GrownOutside(start: Fs, fs: Fs, dest: Path)
    requires Growing(start[dest := Dir], fs, dest)
    ensures WellFormed(fs) && OutsideUntouched(start, fs, dest) && dest in fs
  {
  }

  lemma SameOutside(fs: Fs, dest: Path)
    ensures OutsideUntouched(fs, fs, dest)
  {
  }

  lemma RemovalRestores(start: Fs, fs: Fs, dest: Path)
    requires WellFormed(start) && dest !in start && Growing(start[dest := Dir], fs, dest)
    ensures Without(fs, dest) == start
  {
    forall p | p in start ensures !(dest <= p) {
      HasAncestors(start, p, dest);
    }
  }
}
