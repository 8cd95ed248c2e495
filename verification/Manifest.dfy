/** The signed component manifest: which documents are accepted, and what the installer may rely on
    about their fields. */
module Manifest {
  import opened Common
  import opened ExtractPath

  const MANIFEST_SCHEMA: nat := 1
  const MAX_MANIFEST_BYTES: nat := 0x10_0000
  const MAX_ARTIFACT_BYTES: nat := 0x8000_0000
  const MAX_MANIFEST_LIFETIME_SECS: nat := 31 * 86_400
  const CLOCK_SKEW_SECS: nat := 600
  const U64_MAX: nat := 0xFFFF_FFFF_FFFF_FFFF
  const MAX_COMPONENTS: nat := 64
  const MAX_ENTRYPOINTS: nat := 32
  const MAX_URL_CHARS: nat := 2048
  const MANIFEST_DOMAIN := "citrate-components-manifest"
  const ARTIFACT_DOMAIN := "citrate-components-artifact"
  const ANY_PLATFORM := "any"

  type Bytes = seq<nat>

  datatype Artifact = Artifact(
    url: string, sha256: string, size: nat, signature: string, entrypoints: Option<seq<string>>)

  datatype Component = Component(
    name: string, version: string, license: string, entrypoints: seq<string>, artifacts: map<string, Artifact>)

  datatype Document = Document(
    schema: nat, channel: string, sequence: nat, issuedAt: nat, expiresAt: nat, components: seq<Component>)

  datatype SeenManifest = SeenManifest(sequence: nat, digest: string, verifiedAt: nat, expiresAt: nat)

  datatype Verified = Verified(document: Document, digest: string, verifiedAt: nat) {
    function Seen(): SeenManifest {
      SeenManifest(document.sequence, digest, verifiedAt, document.expiresAt)
    }
  }

  datatype Rejection =
    Malformed | SignatureInvalid | WrongTrustedComment | NotYetValid | Expired | Rollback | ReadFailed

  /** The cryptography: what a signature text decodes to, whether it verifies, its trusted comment,
      the hash, and the JSON reader. */
  datatype Crypto = Crypto(
    decodes: string -> bool,
    verifies: (string, Bytes) -> bool,
    comment: string -> string,
    sha256: Bytes -> string,
    parse: Bytes -> Option<Document>)

  // --- field rules ---------------------------------------------------------------------------

  predicate IsLower(c: char) {
    'a' <= c <= 'z'
  }

  predicate IsDigit(c: char) {
    '0' <= c <= '9'
  }

  predicate IsAlphanumeric(c: char) {
    IsLower(c) || IsDigit(c) || 'A' <= c <= 'Z'
  }

  predicate IsGraphic(c: char) {
    '!' <= c <= '~'
  }

  predicate IsName(s: string) {
    && 0 < |s| <= 48 && (IsLower(s[0]) || IsDigit(s[0]))
    && forall i :: 0 <= i < |s| ==> IsLower(s[i]) || IsDigit(s[i]) || s[i] == '-'
  }

  predicate IsVersion(s: string) {
    && 0 < |s| <= 64 && s[0] != '.'
    && forall i :: 0 <= i < |s| ==> IsAlphanumeric(s[i]) || s[i] in ['.', '+', '-', '_']
  }

  predicate IsChannel(s: string) {
    0 < |s| <= 32 && forall i :: 0 <= i < |s| ==> IsLower(s[i]) || IsDigit(s[i]) || s[i] == '-'
  }

  predicate IsHexDigit(c: char) {
    IsDigit(c) || 'a' <= c <= 'f'
  }

  predicate IsSha256Hex(s: string) {
    |s| == 64 && forall i :: 0 <= i < |s| ==> IsHexDigit(s[i])
  }

  function HostOf(rest: string): string {
    if rest == "" || rest[0] in ['/', '?', '#'] then "" else [rest[0]] + HostOf(rest[1..])
  }

  predicate IsHttpsUrl(s: string) {
    && |s| <= MAX_URL_CHARS && (forall i :: 0 <= i < |s| ==> IsGraphic(s[i]))
    && "https://" <= s && HostOf(s[8..]) != "" && '@' !in HostOf(s[8..])
  }

  lemma {:induction false} HostEnds(rest: string)
    ensures HostOf(rest) <= rest && forall c :: c in HostOf(rest) ==> c !in "/?#"
    ensures var tail := rest[|HostOf(rest)|..]; tail == "" || tail[0] in "/?#"
  {
    if HostOf(rest) != "" {
      HostEnds(rest[1..]);
      assert rest == [rest[0]] + rest[1..];
    }
  }

  lemma {:induction false} HostIs(host: string, tail: string)
    requires (forall c :: c in host ==> c !in "/?#") && (tail == "" || tail[0] in "/?#")
    ensures HostOf(host + tail) == host
  {
    if host != "" {
      assert (host + tail)[1..] == host[1..] + tail && host == [host[0]] + host[1..];
      HostIs(host[1..], tail);
    }
  }

  /** An address with a host and without user information. */
  ghost predicate IsUrlOfHost(s: string, host: string, tail: string) {
    && s == "https://" + (host + tail) && host != ""
    && (forall c :: c in host ==> c !in "/?#@") && (tail == "" || tail[0] in "/?#")
  }

  lemma UrlOfHostIsHttps(s: string, host: string, tail: string)
    requires IsUrlOfHost(s, host, tail) && |s| <= 2048 && forall c :: c in s ==> '!' <= c <= '~'
    ensures IsHttpsUrl(s)
  {
    hide HostOf;
    HostIs(host, tail);
    assert s[8..] == host + tail;
    forall i | 0 <= i < |s| ensures IsGraphic(s[i]) {
      assert s[i] in s;
    }
  }

  /** Exactly these addresses are accepted. */
  lemma HttpsUrlsHaveAHost(s: string)
    ensures IsHttpsUrl(s) <==>
      |s| <= 2048 && (forall c :: c in s ==> '!' <= c <= '~') && exists host, tail :: IsUrlOfHost(s, host, tail)
  {
    hide HostOf;
    if IsHttpsUrl(s) {
      var rest := s[8..];
      HostEnds(rest);
      assert s == "https://" + rest && rest == HostOf(rest) + rest[|HostOf(rest)|..];
      assert IsUrlOfHost(s, HostOf(rest), rest[|HostOf(rest)|..]);
    }
    if |s| <= 2048 && (forall c :: c in s ==> '!' <= c <= '~') && exists host, tail :: IsUrlOfHost(s, host, tail) {
      var host, tail :| IsUrlOfHost(s, host, tail);
      UrlOfHostIsHttps(s, host, tail);
    }
  }

  predicate IsLicense(s: string) {
    && |s| <= 128 && (exists i :: 0 <= i < |s| && s[i] != ' ')
    && forall i :: 0 <= i < |s| ==> IsGraphic(s[i]) || s[i] == ' '
  }

  predicate EntrypointsOk(eps: seq<string>) {
    |eps| <= MAX_ENTRYPOINTS && forall i :: 0 <= i < |eps| ==> IsSafe(eps[i])
  }

  const PLATFORMS: seq<string> := ["macos-arm64", "macos-x64", "linux-x64", "linux-arm64", "windows-x64", "any"]

  predicate ArtifactOk(c: Crypto, a: Artifact) {
    && IsHttpsUrl(a.url) && IsSha256Hex(a.sha256) && 0 < a.size <= MAX_ARTIFACT_BYTES
    && c.decodes(a.signature)
    && (a.entrypoints.Some? ==> EntrypointsOk(a.entrypoints.value))
  }

  predicate ComponentOk(c: Crypto, comp: Component) {
    && IsName(comp.name) && IsVersion(comp.version) && IsLicense(comp.license)
    && EntrypointsOk(comp.entrypoints)
    && comp.artifacts != map[]
    && forall platform :: platform in comp.artifacts ==> platform in PLATFORMS && ArtifactOk(c, comp.artifacts[platform])
  }

  ghost predicate NamesDiffer(components: seq<Component>) {
    forall i, j :: 0 <= i < j < |components| ==> components[i].name != components[j].name
  }

  /** A document that keeps every field rule. */
  ghost predicate IsValid(c: Crypto, m: Document) {
    && m.schema == MANIFEST_SCHEMA && IsChannel(m.channel)
    && m.issuedAt < m.expiresAt <= m.issuedAt + MAX_MANIFEST_LIFETIME_SECS
    && 0 < |m.components| <= MAX_COMPONENTS
    && (forall i :: 0 <= i < |m.components| ==> ComponentOk(c, m.components[i]))
    && NamesDiffer(m.components)
  }

  method CheckEntrypoints(eps: seq<string>) returns (ok: bool)
    ensures ok <==> EntrypointsOk(eps)
  {
    if |eps| > MAX_ENTRYPOINTS {
      return false;
    }
    for i := 0 to |eps|
      invariant forall k :: 0 <= k < i ==> IsSafe(eps[k])
    {
      var safe := SafeRelativePath(eps[i]);
      if safe.Err? {
        return false;
      }
    }
    return true;
  }

  method ValidateArtifacts(c: Crypto, artifacts: map<string, Artifact>) returns (ok: bool)
    ensures ok <==> forall platform :: platform in artifacts ==> platform in PLATFORMS && ArtifactOk(c, artifacts[platform])
  {
    hide IsHttpsUrl, IsSha256Hex, EntrypointsOk;
    var rest := artifacts.Keys;
    while rest != {}
      invariant rest <= artifacts.Keys
      invariant forall platform :: platform in artifacts && platform !in rest ==> platform in PLATFORMS && ArtifactOk(c, artifacts[platform])
      decreases |rest|
    {
      var platform :| platform in rest;
      var a := artifacts[platform];
      if platform !in PLATFORMS || !IsHttpsUrl(a.url) || !IsSha256Hex(a.sha256) || a.size == 0
         || a.size > MAX_ARTIFACT_BYTES || !c.decodes(a.signature) {
        return false;
      }
      if a.entrypoints.Some? {
        var ok := CheckEntrypoints(a.entrypoints.value);
        if !ok {
          return false;
        }
      }
      rest := rest - {platform};
    }
    return true;
  }

  method ValidateComponent(c: Crypto, comp: Component) returns (ok: bool)
    ensures ok <==> ComponentOk(c, comp)
  {
    hide IsName, IsVersion, IsLicense, EntrypointsOk, ArtifactOk;
    if !IsName(comp.name) || !IsVersion(comp.version) || !IsLicense(comp.license) || comp.artifacts == map[] {
      return false;
    }
    var entrypointsOk := CheckEntrypoints(comp.entrypoints);
    var artifactsOk := ValidateArtifacts(c, comp.artifacts);
    return entrypointsOk && artifactsOk;
  }

  /** The field rules, component by component. */
  method Validate(c: Crypto, m: Document) returns (r: Result<(), Rejection>)
    ensures r.Ok? <==> IsValid(c, m)
    ensures r.Err? ==> r.error == Malformed
  {
    hide IsChannel, ComponentOk;
    if m.schema != MANIFEST_SCHEMA || !IsChannel(m.channel) || m.expiresAt <= m.issuedAt
       || m.expiresAt - m.issuedAt > MAX_MANIFEST_LIFETIME_SECS
       || |m.components| == 0 || |m.components| > MAX_COMPONENTS {
      return Err(Malformed);
    }
    var names: set<string> := {};
    for i := 0 to |m.components|
      invariant forall k :: 0 <= k < i ==> ComponentOk(c, m.components[k]) && m.components[k].name in names
      invariant forall k, l :: 0 <= k < l < i ==> m.components[k].name != m.components[l].name
      invariant forall name :: name in names ==> exists k :: 0 <= k < i && m.components[k].name == name
    {
      var comp := m.components[i];
      if comp.name in names {
        return Err(Malformed);
      }
      var ok := ValidateComponent(c, comp);
      if !ok {
        return Err(Malformed);
      }
      names := names + {comp.name};
    }
    return Ok(());
  }

  // --- signatures ------------------------------------------------------------------------------

  /** The domain is the comment, or its first word. */
  predicate DomainOk(comment: string, domain: string) {
    domain <= comment && (|comment| == |domain| || comment[|domain|] in [' ', '\t'])
  }

  /** What the domain of a trusted comment is: all of it, or what stands before a space or tab. */
  lemma DomainEnds(comment: string, domain: string)
    ensures DomainOk(comment, domain) <==> comment == domain || domain + " " <= comment || domain + "\t" <= comment
  {
    if |comment| > |domain| && domain <= comment {
      assert comment[..|domain| + 1] == domain + [comment[|domain|]];
    }
  }

  /** No signature serves both a manifest and an artifact. */
  lemma DomainsDiffer(c: Crypto, signature: string, manifest: Bytes, artifact: Bytes)
    ensures !(SignatureOk(c, signature, manifest, MANIFEST_DOMAIN) && SignatureOk(c, signature, artifact, ARTIFACT_DOMAIN))
  {
    assert MANIFEST_DOMAIN[19] != ARTIFACT_DOMAIN[19];
  }

  predicate SignatureOk(c: Crypto, signature: string, data: Bytes, domain: string) {
    c.decodes(signature) && c.verifies(signature, data) && DomainOk(c.comment(signature), domain)
  }

  /** What successive reads return: some chunks, then the end or a failure. */
  datatype Stream = Stream(chunks: seq<Bytes>, fails: bool)

  /** The bytes read up to the first empty read. */
  function Delivered(chunks: seq<Bytes>): Bytes {
    if chunks == [] || chunks[0] == [] then [] else chunks[0] + Delivered(chunks[1..])
  }

  /** A read fails before an empty one ends the stream. */
  predicate Breaks(stream: Stream) {
    stream.fails && [] !in stream.chunks
  }

  lemma {:induction false} DeliveredOneMore(chunks: seq<Bytes>, i: nat)
    requires i < |chunks| && [] !in chunks[..i]
    ensures Delivered(chunks[..i] + [chunks[i]]) == Delivered(chunks[..i]) + chunks[i]
    ensures chunks[i] == [] ==> Delivered(chunks) == Delivered(chunks[..i])
    decreases i
  {
    if i == 0 {
      assert chunks[..0] + [chunks[0]] == [chunks[0]] && [chunks[0]][1..] == chunks[..0];
    } else {
      var rest := chunks[1..];
      assert chunks[0] in chunks[..i] && chunks[..i][1..] == rest[..i - 1];
      assert (chunks[..i] + [chunks[i]])[1..] == rest[..i - 1] + [rest[i - 1]];
      assert forall c :: c in rest[..i - 1] ==> c in chunks[..i];
      DeliveredOneMore(rest, i - 1);
    }
  }

  /** Data cut into reads of one size. */
  function Chunks(data: Bytes, size: nat): (chunks: seq<Bytes>)
    requires size > 0
    ensures Delivered(chunks) == data && [] !in chunks
  {
    if data == [] then []
    else if |data| <= size then [data]
    else [data[..size]] + Chunks(data[size..], size)
  }

  /** Reads the stream once, read by read up to the first empty one, and answers with its length
      and hash when the signature covers exactly the bytes read. */
  method VerifyStream(c: Crypto, signature: string, stream: Stream, domain: string)
    returns (r: Result<(nat, string), Rejection>)
    ensures r.Ok? <==> !Breaks(stream) && SignatureOk(c, signature, Delivered(stream.chunks), domain)
    ensures r.Ok? ==>
      var n := |Delivered(stream.chunks)|;
      r.value == (if n <= U64_MAX then n else U64_MAX, c.sha256(Delivered(stream.chunks)))
    ensures r.Err? ==> r.error in {SignatureInvalid, WrongTrustedComment, ReadFailed}
    ensures r == Err(ReadFailed) <==> c.decodes(signature) && Breaks(stream)
  {
    if !c.decodes(signature) {
      return Err(SignatureInvalid);
    }
    var fed: Bytes, n, i := [], 0, 0;
    while i < |stream.chunks| && stream.chunks[i] != []
      invariant i <= |stream.chunks| && [] !in stream.chunks[..i]
      invariant fed == Delivered(stream.chunks[..i])
      invariant n == if |fed| <= U64_MAX then |fed| else U64_MAX
      decreases |stream.chunks| - i
    {
      var chunk := stream.chunks[i];
      DeliveredOneMore(stream.chunks, i);
      assert stream.chunks[..i + 1] == stream.chunks[..i] + [chunk];
      fed := fed + chunk;
      n := if n + |chunk| <= U64_MAX then n + |chunk| else U64_MAX;
      i := i + 1;
    }
    if i < |stream.chunks| {
      DeliveredOneMore(stream.chunks, i);
    } else {
      assert stream.chunks[..i] == stream.chunks;
      if stream.fails {
        return Err(ReadFailed);
      }
    }
    if !c.verifies(signature, fed) {
      return Err(SignatureInvalid);
    }
    if !DomainOk(c.comment(signature), domain) {
      return Err(WrongTrustedComment);
    }
    return Ok((n, c.sha256(fed)));
  }

  // --- the whole check --------------------------------------------------------------------------

  /** A lower sequence is a rollback; the same sequence must be the same bytes. */
  predicate SequenceOk(last: Option<SeenManifest>, sequence: nat, digest: string) {
    last.Some? ==> sequence >= last.value.sequence && (sequence == last.value.sequence ==> digest == last.value.digest)
  }

  /** What a verified manifest stands for. */
  ghost predicate Trusted(c: Crypto, vm: Verified) {
    && IsValid(c, vm.document)
    && exists bytes, signature ::
         && SignatureOk(c, signature, bytes, MANIFEST_DOMAIN)
         && c.parse(bytes) == Some(vm.document) && c.sha256(bytes) == vm.digest
  }

  method VerifyManifest(c: Crypto, bytes: Bytes, signature: string, last: Option<SeenManifest>, now: nat)
    returns (r: Result<Verified, Rejection>)
    ensures r.Ok? <==>
      && |bytes| <= MAX_MANIFEST_BYTES && SignatureOk(c, signature, bytes, MANIFEST_DOMAIN)
      && c.parse(bytes).Some? && IsValid(c, c.parse(bytes).value)
      && c.parse(bytes).value.issuedAt <= (if now + CLOCK_SKEW_SECS <= U64_MAX then now + CLOCK_SKEW_SECS else U64_MAX)
      && now < c.parse(bytes).value.expiresAt
      && SequenceOk(last, c.parse(bytes).value.sequence, c.sha256(bytes))
    ensures r.Ok? ==> r.value == Verified(c.parse(bytes).value, c.sha256(bytes), now) && Trusted(c, r.value)
    ensures r.Err? && r.error == Rollback ==>
      c.parse(bytes).Some? && !SequenceOk(last, c.parse(bytes).value.sequence, c.sha256(bytes))
  {
    hide IsValid, DomainOk;
    if |bytes| > MAX_MANIFEST_BYTES {
      return Err(Malformed);
    }
    if !c.decodes(signature) || !c.verifies(signature, bytes) {
      return Err(SignatureInvalid);
    }
    if !DomainOk(c.comment(signature), MANIFEST_DOMAIN) {
      return Err(WrongTrustedComment);
    }
    var document := c.parse(bytes);
    if document.None? {
      return Err(Malformed);
    }
    var m := document.value;
    var _ :- Validate(c, m);
    if m.issuedAt > (if now + CLOCK_SKEW_SECS <= U64_MAX then now + CLOCK_SKEW_SECS else U64_MAX) {
      return Err(NotYetValid);
    }
    if now >= m.expiresAt {
      return Err(Expired);
    }
    if !SequenceOk(last, m.sequence, c.sha256(bytes)) {
      return Err(Rollback);
    }
    return Ok(Verified(m, c.sha256(bytes), now));
  }

  // --- what the installer picks -------------------------------------------------------------------

  function Find(components: seq<Component>, name: string): (r: Option<Component>)
    ensures r.Some? ==> r.value in components && r.value.name == name
    ensures r.Some? ==>
      exists i :: 0 <= i < |components| && components[i] == r.value && r.value.name == name
        && forall j :: 0 <= j < i ==> components[j].name != name
    ensures r.None? ==> forall i :: 0 <= i < |components| ==> components[i].name != name
  {
    First(components, (c: Component) => c.name == name)
  }

  /** The artifact for a platform, or a platform-independent one. */
  function ArtifactFor(comp: Component, platform: string): Option<(string, Artifact)> {
    if platform in comp.artifacts then Some((platform, comp.artifacts[platform]))
    else if ANY_PLATFORM in comp.artifacts then Some((ANY_PLATFORM, comp.artifacts[ANY_PLATFORM]))
    else None
  }

  /** The directory of a version: the version and the first twelve digits of the hash. */
  function DirName(version: string, sha256: string): string
    requires |sha256| >= 12
  {
    version + "-" + sha256[..12]
  }

  /** A version directory is one normal path component, so it lies directly under its component. */
  lemma DirNameStaysBelow(version: string, sha256: string)
    requires IsVersion(version) && IsSha256Hex(sha256)
    ensures IsNormal(DirName(version, sha256))
  {
  }

  /** A component directory is one normal path component and no file of the store itself. */
  lemma NameStaysBelow(name: string)
    requires IsName(name)
    ensures IsNormal(name) && name != ".staging" && name != "state.json" && name != "state.json.tmp"
  {
    assert forall i :: 0 <= i < |name| ==> name[i] != '.' && name[i] != '/';
    assert ".staging"[0] == '.' && "state.json"[5] == '.' && "state.json.tmp"[5] == '.';
  }

  /** Different versions get different directories; only the hash is shortened. */
  lemma DirNameTellsApart(v: string, s: string, v': string, s': string)
    requires |s| >= 12 && |s'| >= 12
    ensures DirName(v, s) == DirName(v', s') ==> v == v' && s[..12] == s'[..12]
  {
    var d, d' := DirName(v, s), DirName(v', s');
    if d == d' {
      assert |v| == |d| - 13 == |v'|;
      assert v == d[..|v|] && v' == d'[..|v'|];
      assert s[..12] == d[|v| + 1..] && s'[..12] == d'[|v'| + 1..];
    }
  }
}
