/** The chain a signature commits to. A transaction names it in the signer's EIP-155 chain id and
    perhaps in its payload; a Sign-In with Ethereum message names it on its `Chain ID:` lines. */
module CeremonyChain {
  import opened Common
  import opened Numerals

  const U64_MAX: nat := 0xFFFF_FFFF_FFFF_FFFF

  datatype Kind = PersonalSign | TypedData | Transaction

  datatype JsonValue = JsonNumber(asU64: Option<nat>) | JsonString(text: string) | JsonOther

  /** The payload read as JSON: unreadable, or what stands under `chainId`. */
  datatype Payload = Unreadable | Fields(chainId: Option<JsonValue>)

  /** The payload read as hex bytes: unreadable, or its text when it is UTF-8. */
  datatype Message = NotHex | Bytes(text: Option<string>)

  datatype Intent = Intent(kind: Kind, chainId: nat, payload: Payload, message: Message)

  // --- text ---------------------------------------------------------------------------

  predicate IsWhitespace(c: char) {
    || '\t' <= c <= '\r' || c == ' ' || c == '\U{0085}' || c == '\U{00A0}' || c == '\U{1680}'
    || '\U{2000}' <= c <= '\U{200A}' || c == '\U{2028}' || c == '\U{2029}' || c == '\U{202F}'
    || c == '\U{205F}' || c == '\U{3000}'
  }

  function TrimStart(s: string): string {
    if s != [] && IsWhitespace(s[0]) then TrimStart(s[1..]) else s
  }

  function TrimEnd(s: string): string {
    if s != [] && IsWhitespace(s[|s| - 1]) then TrimEnd(s[..|s| - 1]) else s
  }

  function Trim(s: string): string {
    TrimEnd(TrimStart(s))
  }

  function ToLower(c: char): char {
    if 'A' <= c <= 'Z' then c - 'A' + 'a' else c
  }

  predicate EqualIgnoringCase(a: string, b: string) {
    |a| == |b| && forall i :: 0 <= i < |a| ==> ToLower(a[i]) == ToLower(b[i])
  }

  /** The text up to the first line end, and what follows it. */
  function FirstLine(text: string): (r: (string, string))
    requires text != []
    ensures |r.1| < |text| && '\n' !in r.0
    ensures text == r.0 + "\n" + r.1 || (text == r.0 && r.1 == "")
  {
    if text[0] == '\n' then ("", text[1..])
    else if |text| == 1 then (text, "")
    else var rest := FirstLine(text[1..]); ([text[0]] + rest.0, rest.1)
  }

  function Lines(text: string): seq<string>
    decreases |text|
  {
    if text == [] then [] else [FirstLine(text).0] + Lines(FirstLine(text).1)
  }

  predicate IsChainLine(line: string) {
    |Trim(line)| >= 9 && EqualIgnoringCase(Trim(line)[..9], "chain id:")
  }

  /** What a `Chain ID:` line names, if it can be read. */
  function ChainOnLine(line: string): Option<nat>
    requires IsChainLine(line)
  {
    ParseUnsigned(Trim(Trim(line)[9..]), 10, U64_MAX)
  }

  // --- what texts name a chain ------------------------------------------------------------

  /** A number, its decimal numeral and its hexadecimal one after `0x` name the chain of that
      number. */
  lemma ChainTextsRead(n: nat, prefix: string)
    requires n <= U64_MAX && prefix in {"0x", "0X"}
    ensures ReadChain(JsonNumber(Some(n))) == Some(n)
    ensures ReadChain(JsonString(Numeral(n))) == Some(n)
    ensures ReadChain(JsonString(prefix + HexNumeral(n))) == Some(n)
  {
    hide Numeral, HexNumeral, ParseUnsigned;
    NumeralParses(n, U64_MAX);
    HexNumeralParses(n, U64_MAX);
    assert (prefix + HexNumeral(n))[2..] == HexNumeral(n);
  }

  lemma TrimKeeps(s: string)
    requires s != "" && !IsWhitespace(s[0]) && !IsWhitespace(s[|s| - 1])
    ensures Trim(s) == s && Trim(" " + s) == s
  {
    assert TrimStart(s) == s && TrimEnd(s) == s;
    assert (" " + s)[1..] == s && (" " + s)[0] == ' ';
  }

  /** A line `Chain ID: n`, in any of these spellings, names chain `n`. */
  lemma ChainLineNames(head: string, n: nat)
    requires head in {"Chain ID:", "chain id:", "CHAIN ID:"} && n <= U64_MAX
    ensures IsChainLine(head + " " + Numeral(n)) && ChainOnLine(head + " " + Numeral(n)) == Some(n)
  {
    hide Numeral, TrimStart, TrimEnd, ParseUnsigned;
    NumeralParses(n, U64_MAX);
    var line := head + " " + Numeral(n);
    TrimKeeps(line);
    TrimKeeps(Numeral(n));
    assert line[..9] == head && line[9..] == " " + Numeral(n);
  }

  lemma {:induction false} FirstLineIs(line: string, rest: string)
    requires '\n' !in line
    ensures FirstLine(line + "\n" + rest) == (line, rest)
  {
    var text := line + "\n" + rest;
    if line == "" {
      assert text[1..] == rest;
    } else {
      FirstLineIs(line[1..], rest);
      assert text[1..] == line[1..] + "\n" + rest && [line[0]] + line[1..] == line;
    }
  }

  lemma LinesBegin(line: string, rest: string)
    requires '\n' !in line
    ensures Lines(line + "\n" + rest) == [line] + Lines(rest)
  {
    FirstLineIs(line, rest);
  }

  lemma LinesSplit(first: string, others: string, line: string, rest: string)
    ensures (first + "\n" + others) + "\n" + line + "\n" + rest == first + "\n" + (others + "\n" + line + "\n" + rest)
    ensures first + "\n" + line + "\n" + rest == first + "\n" + (line + "\n" + rest)
  {
  }

  /** A line of a text is among its lines. */
  lemma {:induction false} LineIsRead(front: string, line: string, rest: string)
    requires '\n' !in line
    ensures line in Lines(front + "\n" + line + "\n" + rest)
    decreases |front|
  {
    hide Lines;
    if '\n' !in front {
      LinesSplit(front, "", line, rest);
      LinesBegin(front, line + "\n" + rest);
      LinesBegin(line, rest);
    } else {
      var (first, others) := FirstLine(front);
      LinesSplit(first, others, line, rest);
      LinesBegin(first, others + "\n" + line + "\n" + rest);
      LineIsRead(others, line, rest);
    }
  }

  /** A message with a line `Chain ID: n` commits to no chain but `n`. */
  lemma MessageNamesItsChain(intent: Intent, signerChain: Option<nat>, front: string, head: string, n: nat, rest: string, chain: nat)
    requires intent.kind.PersonalSign? && head in {"Chain ID:", "chain id:", "CHAIN ID:"} && n <= U64_MAX
    requires intent.message == Bytes(Some(front + "\n" + (head + " " + Numeral(n)) + "\n" + rest))
    ensures CommitsOnlyTo(intent, signerChain, chain) ==> chain == n
  {
    hide Lines, IsChainLine, ChainOnLine, Numeral;
    NumeralReadsBack(n);
    ChainLineNames(head, n);
    LineIsRead(front, head + " " + Numeral(n), rest);
  }

  // --- what the signature commits to ---------------------------------------------------

  /** Every chain line of the text can be read and names this chain. */
  ghost predicate EveryLineNames(lines: seq<string>, chain: nat) {
    forall i :: 0 <= i < |lines| && IsChainLine(lines[i]) ==> ChainOnLine(lines[i]) == Some(chain)
  }

  ghost predicate HasChainLine(lines: seq<string>) {
    exists i :: 0 <= i < |lines| && IsChainLine(lines[i])
  }

  /** A number, a `0x` hex string or a decimal string. */
  function ReadChain(v: JsonValue): Option<nat> {
    match v
    case JsonNumber(asU64) => asU64
    case JsonString(text) =>
      if |text| >= 2 && text[0] == '0' && (text[1] == 'x' || text[1] == 'X') then ParseUnsigned(text[2..], 16, U64_MAX)
      else ParseUnsigned(text, 10, U64_MAX)
    case JsonOther => None
  }

  /** Nothing in the signed bytes names a chain other than `chain`, and nothing that names one is
      unreadable. Typed data is never signed here. */
  ghost predicate CommitsOnlyTo(intent: Intent, signerChain: Option<nat>, chain: nat) {
    match intent.kind
    case Transaction =>
      && signerChain == Some(chain)
      && intent.payload.Fields?
      && (intent.payload.chainId.Some? ==> ReadChain(intent.payload.chainId.value) == Some(chain))
    case PersonalSign =>
      && intent.message.Bytes?
      && (intent.message.text.Some? ==> EveryLineNames(Lines(intent.message.text.value), chain))
    case TypedData => false
  }

  ghost predicate AllAre(chains: seq<nat>, chain: nat) {
    forall c :: c in chains ==> c == chain
  }

  method PayloadChainId(payload: Payload) returns (r: Result<Option<nat>, ()>)
    ensures r.Err? <==> payload.Unreadable? || (payload.chainId.Some? && ReadChain(payload.chainId.value).None?)
    ensures r.Ok? ==> (r.value.Some? <==> payload.chainId.Some?)
    ensures r.Ok? && r.value.Some? ==> ReadChain(payload.chainId.value) == r.value
  {
    match payload
    case Unreadable => return Err(());
    case Fields(None) => return Ok(None);
    case Fields(Some(v)) =>
      var chain := ReadChain(v);
      return if chain.Some? then Ok(chain) else Err(());
  }

  /** The chain on the chain lines of a message; refused when one cannot be read or two differ. */
  method MessageChainIds(text: string) returns (r: Result<seq<nat>, ()>)
    ensures r.Ok? && r.value == [] <==> !HasChainLine(Lines(text))
    ensures forall chain :: r.Ok? && AllAre(r.value, chain) <==> EveryLineNames(Lines(text), chain)
    ensures r.Err? <==> !exists chain :: EveryLineNames(Lines(text), chain)
  {
    hide Trim, EqualIgnoringCase, ParseUnsigned, Lines, IsChainLine, ChainOnLine;
    var lines := Lines(text);
    var found: Option<nat> := None;
    ghost var witnessLine := 0;
    for i := 0 to |lines|
      invariant found.None? ==> forall k :: 0 <= k < i ==> !IsChainLine(lines[k])
      invariant found.Some? ==> witnessLine < i && IsChainLine(lines[witnessLine]) && ChainOnLine(lines[witnessLine]) == found
      invariant found.Some? ==> forall k :: 0 <= k < i && IsChainLine(lines[k]) ==> ChainOnLine(lines[k]) == found
    {
      if !IsChainLine(lines[i]) {
        continue;
      }
      var id := ChainOnLine(lines[i]);
      if id.None? || (found.Some? && found != id) {
        return Err(());
      }
      found := id;
      witnessLine := i;
    }
    assert found.Some? ==> EveryLineNames(lines, found.value);
    r := Ok(if found.Some? then [found.value] else []);
    assert found.Some? ==> found.value in r.value;
    assert found.None? ==> EveryLineNames(lines, 0);
  }

  /** Every chain id the bytes to be signed commit to. */
  method CommittedChain(intent: Intent, signerChain: Option<nat>) returns (r: Result<seq<nat>, ()>)
    ensures forall chain :: r.Ok? && AllAre(r.value, chain) <==> CommitsOnlyTo(intent, signerChain, chain)
  {
    hide Lines, ReadChain, EveryLineNames;
    match intent.kind
    case Transaction =>
      if signerChain.None? {
        return Err(());
      }
      var named :- PayloadChainId(intent.payload);
      r := Ok([signerChain.value] + if named.Some? then [named.value] else []);
      assert forall c :: c in r.value <==> c == signerChain.value || named == Some(c);
    case PersonalSign =>
      if intent.message.NotHex? {
        return Err(());
      }
      match intent.message.text {
        case None => return Ok([]);
        case Some(text) => r := MessageChainIds(text);
      }
    case TypedData => return Err(());
  }

  /** The chain part of the last check before a signer is called: it passes exactly when the bytes
      commit to no chain but the one the card shows. */
  method BindChain(intent: Intent, signerChain: Option<nat>) returns (r: Result<nat, ()>)
    ensures r.Ok? <==> CommitsOnlyTo(intent, signerChain, intent.chainId)
    ensures r.Ok? ==> r.value == intent.chainId
  {
    hide CommitsOnlyTo;
    var named :- CommittedChain(intent, signerChain);
    for i := 0 to |named|
      invariant AllAre(named[..i], intent.chainId)
    {
      if named[i] != intent.chainId {
        assert named[i] in named;
        return Err(());
      }
      assert named[..i + 1] == named[..i] + [named[i]];
    }
    assert named[..|named|] == named;
    return Ok(intent.chainId);
  }
}
