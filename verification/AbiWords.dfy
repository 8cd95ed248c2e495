/** Static elementary ABI types: their names, the value a word encodes, and the decoder that accepts
    canonical encodings only. */
module AbiWords {
  import opened Common
  import opened Numerals
  import opened AbiDecimal

  datatype AbiType = Uint(bits: nat) | Int(bits: nat) | Address | Bool | FixedBytes(n: nat)

  predicate IsWidth(n: nat) {
    8 <= n <= 256 && n % 8 == 0
  }

  predicate IsType(t: AbiType) {
    match t
    case Uint(bits) => IsWidth(bits)
    case Int(bits) => IsWidth(bits)
    case FixedBytes(n) => 1 <= n <= 32
    case _ => true
  }

  // --- names --------------------------------------------------------------------------------

  function Width(rest: string): Option<nat> {
    var n := if rest == "" then Some(256) else ParseUnsigned(rest, 10, 0xFFFF);
    if n.Some? && IsWidth(n.value) then n else None
  }

  function ParseType(s: string): (r: Option<AbiType>)
    ensures r.Some? ==> IsType(r.value)
  {
    if s == "address" then Some(Address)
    else if s == "bool" then Some(Bool)
    else if "uint" <= s then
      var n := Width(s[4..]);
      if n.Some? then Some(Uint(n.value)) else None
    else if "int" <= s then
      var n := Width(s[3..]);
      if n.Some? then Some(Int(n.value)) else None
    else if "bytes" < s then
      var n := ParseUnsigned(s[5..], 10, 255);
      if n.Some? && 1 <= n.value <= 32 then Some(FixedBytes(n.value)) else None
    else None
  }

  function Canonical(t: AbiType): string {
    match t
    case Uint(n) => "uint" + Numeral(n)
    case Int(n) => "int" + Numeral(n)
    case Address => "address"
    case Bool => "bool"
    case FixedBytes(n) => "bytes" + Numeral(n)
  }

  lemma UintReadsBack(n: nat)
    requires IsWidth(n)
    ensures ParseType("uint" + Numeral(n)) == Some(Uint(n))
  {
    hide Numeral, ParseUnsigned;
    NumeralParses(n, 0xFFFF);
    assert ("uint" + Numeral(n))[4..] == Numeral(n) && ("uint" + Numeral(n))[0] == 'u';
  }

  lemma IntReadsBack(n: nat)
    requires IsWidth(n)
    ensures ParseType("int" + Numeral(n)) == Some(Int(n))
  {
    hide Numeral, ParseUnsigned;
    NumeralParses(n, 0xFFFF);
    assert ("int" + Numeral(n))[3..] == Numeral(n) && ("int" + Numeral(n))[0] == 'i';
  }

  lemma BytesReadsBack(n: nat)
    requires 1 <= n <= 32
    ensures ParseType("bytes" + Numeral(n)) == Some(FixedBytes(n))
  {
    hide Numeral, ParseUnsigned;
    NumeralParses(n, 255);
    assert ("bytes" + Numeral(n))[5..] == Numeral(n);
    assert ("bytes" + Numeral(n))[0] == 'b' && ("bytes" + Numeral(n))[1] == 'y';
  }

  /** The canonical name of a type reads back as that type. */
  lemma CanonicalReadsBack(t: AbiType)
    requires IsType(t)
    ensures ParseType(Canonical(t)) == Some(t)
  {
    hide Numeral, ParseUnsigned;
    match t
    case Uint(n) => UintReadsBack(n);
    case Int(n) => IntReadsBack(n);
    case FixedBytes(n) => BytesReadsBack(n);
    case _ =>
  }

  /** The names of a type: `uint` and `int` may leave out a width of 256, and a width may be written
      with leading zeros or a plus sign. */
  ghost predicate Names(s: string, t: AbiType) {
    match t
    case Uint(n) => "uint" <= s && ((s == "uint" && n == 256) || Spells(s[4..], n))
    case Int(n) => "int" <= s && ((s == "int" && n == 256) || Spells(s[3..], n))
    case Address => s == "address"
    case Bool => s == "bool"
    case FixedBytes(n) => "bytes" <= s && Spells(s[5..], n)
  }

  lemma WidthsRead(rest: string, n: nat)
    requires IsWidth(n)
    ensures Width(rest) == Some(n) <==> (rest == "" && n == 256) || Spells(rest, n)
  {
    hide ParseUnsigned;
    ParsesSpellings(rest, n, 0xFFFF);
    if rest == "" && Spells(rest, n) {
      NumeralReadsBack(n);
      assert false;
    }
  }

  /** Exactly these names are read, each as its type. */
  lemma ReadsExactlyNames(s: string, t: AbiType)
    ensures ParseType(s) == Some(t) <==> IsType(t) && Names(s, t)
  {
    hide ParseUnsigned, Width, Spells;
    match t
    case Uint(n) =>
      if "uint" <= s && IsWidth(n) {
        WidthsRead(s[4..], n);
        assert s[4..] == "" <==> s == "uint";
        assert s[0] == 'u';
      }
    case Int(n) =>
      if "int" <= s && IsWidth(n) {
        WidthsRead(s[3..], n);
        assert s[3..] == "" <==> s == "int";
        assert s[0] == 'i';
      }
    case FixedBytes(n) =>
      if "bytes" <= s {
        ParsesSpellings(s[5..], n, 255);
        NothingSpells(n);
        assert s[0] == 'b' && s[1] == 'y';
        assert s[5..] == "" <==> s == "bytes";
      }
    case _ =>
  }

  lemma NothingSpells(n: nat)
    ensures !Spells("", n)
  {
    NumeralReadsBack(n);
  }

  /** The text of the width in a name. */
  function WidthText(s: string, t: AbiType): string {
    match t
    case Uint(_) => if |s| >= 4 then s[4..] else ""
    case Int(_) => if |s| >= 3 then s[3..] else ""
    case FixedBytes(_) => if |s| >= 5 then s[5..] else ""
    case _ => ""
  }

  /** A name that is read is canonical exactly when it has no width, or one written as a numeral:
      present, without leading zeros and without a plus sign. */
  lemma CanonicalNames(s: string, t: AbiType)
    requires ParseType(s) == Some(t)
    ensures Canonical(t) == s <==> t.Address? || t.Bool? || IsNumeral(WidthText(s, t))
  {
    hide ParseType, Numeral;
    ReadsExactlyNames(s, t);
    match t
    case Uint(n) => CanonicalWidth("uint", s, n);
    case Int(n) => CanonicalWidth("int", s, n);
    case FixedBytes(n) => CanonicalWidth("bytes", s, n);
    case _ =>
  }

  lemma CanonicalWidth(base: string, s: string, n: nat)
    requires base <= s && (s == base || Spells(s[|base|..], n))
    ensures base + Numeral(n) == s <==> IsNumeral(s[|base|..])
  {
    hide Numeral, Spells;
    NumeralReadsBack(n);
    var w := s[|base|..];
    assert s == base + w;
    if base + Numeral(n) == s {
      assert w == Numeral(n);
    }
    if IsNumeral(w) {
      NumeralSpells(w, n);
    }
  }

  lemma NumeralSpells(w: string, n: nat)
    requires IsNumeral(w) && Spells(w, n)
    ensures w == Numeral(n)
  {
    ParsesSpellings(w, n, n);
    NumeralIsUnique(w);
  }

  /** A name that is read but not canonical: the integer parser takes leading zeros (and a plus
      sign). */
  lemma LooseNamesAreRead()
    ensures ParseType("uint08") == Some(Uint(8)) && Canonical(Uint(8)) != "uint08"
  {
    assert "uint08"[4..] == "08" && "08"[..1] == "0" && "0"[..0] == "";
    assert ValueOf("", 10) == 0 && ValueOf("0", 10) == 0 && ValueOf("08", 10) == 8;
    assert |Numeral(8)| == 1;
  }

  /** Different types have different canonical names. */
  lemma CanonicalNamesTellApart(t: AbiType, u: AbiType)
    requires IsType(t) && IsType(u) && Canonical(t) == Canonical(u)
    ensures t == u
  {
    CanonicalReadsBack(t);
    CanonicalReadsBack(u);
  }

  // --- what a word encodes (the formal specification of the encoding) --------------------------

  datatype Value = Number(i: int) | Truth(b: bool) | Raw(bytes: seq<Byte>)

  /** 2 to the power of bits - 1. */
  function Half(bits: nat): int
    requires IsWidth(bits)
  {
    128 * Pow256(bits / 8 - 1)
  }

  predicate Fits(t: AbiType, v: Value)
    requires IsType(t)
  {
    match t
    case Uint(bits) => v.Number? && 0 <= v.i < Pow256(bits / 8)
    case Int(bits) => v.Number? && -Half(bits) <= v.i < Half(bits)
    case Address => v.Raw? && |v.bytes| == 20
    case Bool => v.Truth?
    case FixedBytes(n) => v.Raw? && |v.bytes| == n
  }

  function Zeros(n: nat): (w: seq<Byte>)
    ensures |w| == n && forall i :: 0 <= i < n ==> w[i] == 0
  {
    seq(n, _ => 0)
  }

  function TwosComplement(i: int): nat {
    if i >= 0 then i else if Pow256(32) + i >= 0 then Pow256(32) + i else 0
  }

  /** The encoding of a value: numbers big-endian in two's complement, bytes padded on the right. */
  function Encode(t: AbiType, v: Value): (w: seq<Byte>)
    requires IsType(t) && Fits(t, v)
    ensures |w| == 32
  {
    match t
    case Uint(_) => Bytes(v.i, 32)
    case Int(_) => Bytes(TwosComplement(v.i), 32)
    case Address => Zeros(12) + v.bytes
    case Bool => Bytes(if v.b then 1 else 0, 32)
    case FixedBytes(n) => v.bytes + Zeros(32 - n)
  }

  // --- what a word reads as ---------------------------------------------------------------------

  function Signed(w: seq<Byte>): int
    requires |w| == 32
  {
    if w[0] >= 128 then BigEndian(w) - Pow256(32) else BigEndian(w)
  }

  /** The value a word encodes, if it is a canonical encoding of the type. */
  function Read(t: AbiType, w: seq<Byte>): Option<Value>
    requires IsType(t) && |w| == 32
  {
    match t
    case Uint(bits) => if BigEndian(w) < Pow256(bits / 8) then Some(Number(BigEndian(w))) else None
    case Int(bits) => if -Half(bits) <= Signed(w) < Half(bits) then Some(Number(Signed(w))) else None
    case Address => if Filled(w, 12, 0) then Some(Raw(w[12..])) else None
    case Bool => if BigEndian(w) <= 1 then Some(Truth(BigEndian(w) == 1)) else None
    case FixedBytes(n) => if Filled(w[n..], 32 - n, 0) then Some(Raw(w[..n])) else None
  }

  lemma {:induction false} WithoutZeros(w: seq<Byte>, pad: nat)
    requires pad <= |w| && Filled(w, pad, 0)
    ensures BigEndian(w) == BigEndian(w[pad..])
  {
    if pad > 0 {
      FirstByte(w);
      FilledRest(w, pad, 0);
      WithoutZeros(w[1..], pad - 1);
      assert w[1..][pad - 1..] == w[pad..];
    } else {
      assert w[0..] == w;
    }
  }

  /** The positive range: zeros in front and the top bit clear. */
  lemma PositiveRange(w: seq<Byte>, pad: nat)
    requires |w| == 32 && pad < 32
    ensures Filled(w, pad, 0) && w[pad] < 128 <==> BigEndian(w) < 128 * Pow256(31 - pad)
  {
    LeadingZeros(w, pad);
    var p := Pow256(31 - pad);
    assert Pow256(32 - pad) == 256 * p;
    if Filled(w, pad, 0) {
      WithoutZeros(w, pad);
      var rest := w[pad + 1..];
      Prepended(w[pad], rest);
      assert w[pad..] == [w[pad]] + rest;
      BytesOfValue(rest);
      TopByte(w[pad], p, BigEndian(rest));
    }
  }

  lemma TopByte(b: Byte, p: nat, r: nat)
    requires r < p
    ensures b < 128 <==> b * p + r < 128 * p
  {
  }

  function Complement(w: seq<Byte>): (c: seq<Byte>)
    ensures |c| == |w| && forall i :: 0 <= i < |w| ==> c[i] == 255 - w[i]
  {
    seq(|w|, i requires 0 <= i < |w| => 255 - w[i])
  }

  lemma {:induction false} ComplementValue(w: seq<Byte>)
    ensures BigEndian(Complement(w)) == Pow256(|w|) - 1 - BigEndian(w)
  {
    if w != [] {
      var front := w[..|w| - 1];
      ComplementValue(front);
      assert Complement(w)[..|w| - 1] == Complement(front);
    }
  }

  /** The negative range: ones in front and the top bit set. */
  lemma NegativeRange(w: seq<Byte>, pad: nat)
    requires |w| == 32 && pad < 32
    ensures Filled(w, pad, 255) && w[pad] >= 128 <==> BigEndian(w) >= Pow256(32) - 128 * Pow256(31 - pad)
  {
    hide BigEndian, Pow256;
    var c := Complement(w);
    assert Filled(w, pad, 255) <==> Filled(c, pad, 0) by {
      assert forall i :: 0 <= i < pad ==> (w[i] == 255 <==> c[i] == 0);
    }
    PositiveRange(c, pad);
    ComplementValue(w);
  }

  lemma {:induction false} SignedBounds(w: seq<Byte>)
    requires |w| == 32
    ensures w[0] >= 128 <==> Signed(w) < 0
    ensures w[0] < 128 <==> BigEndian(w) < 128 * Pow256(31)
  {
    hide Pow256;
    PositiveRange(w, 0);
    BytesOfValue(w);
  }

  /** A word reads as a value exactly when it is the encoding of that value: a value has one
      encoding and every other word is refused. */
  lemma ReadIsEncode(t: AbiType, w: seq<Byte>, v: Value)
    requires IsType(t) && |w| == 32
    ensures Read(t, w) == Some(v) <==> Fits(t, v) && Encode(t, v) == w
  {
    hide BigEndian, Pow256, Bytes;
    BytesOfValue(w);
    match t
    case Uint(bits) =>
      PowGrows(bits / 8, 32);
      if Fits(t, v) {
        BytesReadBack(v.i, 32);
      }
    case Int(bits) => ReadInt(bits, w, v);
    case Address =>
      if Fits(t, v) && Encode(t, v) == w {
        assert w[12..] == v.bytes;
      }
      if Filled(w, 12, 0) {
        assert w == Zeros(12) + w[12..];
      }
    case Bool => ReadBool(w, v);
    case FixedBytes(n) =>
      if Fits(t, v) && Encode(t, v) == w {
        assert w[..n] == v.bytes && w[n..] == Zeros(32 - n);
      }
      if Filled(w[n..], 32 - n, 0) {
        assert w[n..] == Zeros(32 - n) && w == w[..n] + w[n..];
      }
  }

  lemma ReadBool(w: seq<Byte>, v: Value)
    requires |w| == 32
    ensures Read(Bool, w) == Some(v) <==> Fits(Bool, v) && Encode(Bool, v) == w
  {
    hide BigEndian, Pow256, Bytes;
    BytesOfValue(w);
    assert 256 <= Pow256(32) by {
      PowGrows(1, 32);
      assert Pow256(1) == 256 * Pow256(0) == 256 by {
        SmallPowers();
      }
    }
    BytesReadBack(0, 32);
    BytesReadBack(1, 32);
  }

  lemma SmallPowers()
    ensures Pow256(0) == 1 && Pow256(1) == 256
  {
  }

  lemma HalfFits(bits: nat)
    requires IsWidth(bits)
    ensures 2 * Half(bits) == Pow256(bits / 8) && Half(bits) <= 128 * Pow256(31) && Pow256(32) == 256 * Pow256(31) && Half(bits) > 0
  {
    PowGrows(bits / 8 - 1, 31);
  }

  lemma ReadInt(bits: nat, w: seq<Byte>, v: Value)
    requires IsWidth(bits) && |w| == 32
    ensures Read(Int(bits), w) == Some(v) <==> Fits(Int(bits), v) && Encode(Int(bits), v) == w
  {
    hide BigEndian, Pow256, Bytes, Half;
    HalfFits(bits);
    BytesOfValue(w);
    SignedBounds(w);
    if Fits(Int(bits), v) {
      var n := TwosComplement(v.i);
      BytesReadBack(n, 32);
      SignedBounds(Bytes(n, 32));
    }
  }

  // --- the text of a value ------------------------------------------------------------------------

  function HexChar(n: nat): char
    requires n < 16
  {
    if n < 10 then '0' + n as char else 'a' + (n - 10) as char
  }

  function Hex(bytes: seq<Byte>): string {
    if bytes == [] then "" else [HexChar(bytes[0] / 16), HexChar(bytes[0] % 16)] + Hex(bytes[1..])
  }

  function Show(v: Value): string {
    match v
    case Number(i) => if i >= 0 then Numeral(i) else "-" + Numeral(-i)
    case Truth(b) => if b then "true" else "false"
    case Raw(bytes) => "0x" + Hex(bytes)
  }

  lemma {:induction false} HexTellsApart(a: seq<Byte>, b: seq<Byte>)
    requires Hex(a) == Hex(b)
    ensures a == b
  {
    if a != [] && b != [] {
      var x, y := Hex(a), Hex(b);
      assert x[0] == HexChar(a[0] / 16) && x[1] == HexChar(a[0] % 16) && x[2..] == Hex(a[1..]);
      assert y[0] == HexChar(b[0] / 16) && y[1] == HexChar(b[0] % 16) && y[2..] == Hex(b[1..]);
      assert a[0] == b[0];
      HexTellsApart(a[1..], b[1..]);
      assert a == [a[0]] + a[1..] && b == [b[0]] + b[1..];
    }
  }

  /** Two lower-case digits for each byte, the high half first. */
  ghost predicate SpellsBytes(text: string, bytes: seq<Byte>) {
    && |text| == 2 * |bytes|
    && forall i :: 0 <= i < |bytes| ==>
      text[2 * i] == HEX_DIGITS[bytes[i] / 16] && text[2 * i + 1] == HEX_DIGITS[bytes[i] % 16]
  }

  lemma HexCharIsDigit(n: nat)
    requires n < 16
    ensures HexChar(n) == HEX_DIGITS[n]
  {
  }

  lemma {:induction false} HexSpells(bytes: seq<Byte>)
    ensures SpellsBytes(Hex(bytes), bytes)
  {
    hide HexChar;
    if bytes != [] {
      var rest := bytes[1..];
      HexSpells(rest);
      HexCharIsDigit(bytes[0] / 16);
      HexCharIsDigit(bytes[0] % 16);
      forall i | 0 < i < |bytes|
        ensures Hex(bytes)[2 * i] == HEX_DIGITS[bytes[i] / 16] && Hex(bytes)[2 * i + 1] == HEX_DIGITS[bytes[i] % 16]
      {
        assert rest[i - 1] == bytes[i];
        assert Hex(bytes)[2 * i] == Hex(rest)[2 * (i - 1)] && Hex(bytes)[2 * i + 1] == Hex(rest)[2 * (i - 1) + 1];
      }
    }
  }

  ghost predicate SpellsNumber(text: string, i: int) {
    if i >= 0 then IsNumeral(text) && ValueOf(text, 10) == i
    else text != "" && text[0] == '-' && IsNumeral(text[1..]) && ValueOf(text[1..], 10) == -i
  }

  /** What the text of a word says: the digits of its bytes, `true` for one and `false` for zero, or
      the numeral of its number. */
  ghost predicate Says(t: AbiType, w: seq<Byte>, text: string)
    requires |w| == 32 && IsType(t)
  {
    match t
    case Address => "0x" <= text && SpellsBytes(text[2..], w[12..])
    case FixedBytes(n) => "0x" <= text && SpellsBytes(text[2..], w[..n])
    case Bool => (text == "true" && BigEndian(w) == 1) || (text == "false" && BigEndian(w) == 0)
    case Uint(_) => SpellsNumber(text, BigEndian(w))
    case Int(_) => SpellsNumber(text, if w[0] >= 128 then BigEndian(w) - Pow256(32) else BigEndian(w))
  }

  /** The text of the value a word reads as says what the word holds. */
  lemma ShownIsSaid(t: AbiType, w: seq<Byte>)
    requires IsType(t) && |w| == 32 && Read(t, w).Some?
    ensures Says(t, w, Show(Read(t, w).value))
  {
    hide BigEndian, Pow256, Numeral, SpellsBytes, Hex;
    match Read(t, w).value
    case Number(i) =>
      NumeralReadsBack(if i >= 0 then i else -i);
      if i < 0 {
        assert ("-" + Numeral(-i))[1..] == Numeral(-i);
      }
    case Truth(_) =>
    case Raw(bytes) =>
      HexSpells(bytes);
      assert ("0x" + Hex(bytes))[2..] == Hex(bytes);
  }

  /** Two values of one type with the same text are the same value. */
  lemma ShowTellsApart(t: AbiType, v: Value, u: Value)
    requires IsType(t) && Fits(t, v) && Fits(t, u) && Show(v) == Show(u)
    ensures v == u
  {
    hide Pow256, Numeral;
    match v
    case Number(i) =>
      NumeralReadsBack(if i >= 0 then i else -i);
      NumeralReadsBack(if u.i >= 0 then u.i else -u.i);
      assert Show(v)[0] == Show(u)[0];
      if i >= 0 && u.i >= 0 {
        NumeralsTellApart(i, u.i);
      } else if i < 0 && u.i < 0 {
        assert Show(v)[1..] == Numeral(-i) && Show(u)[1..] == Numeral(-u.i);
        NumeralsTellApart(-i, -u.i);
      }
    case Truth(_) => assert "true"[0] != "false"[0];
    case Raw(bytes) =>
      assert Show(v)[2..] == Hex(bytes) && Show(u)[2..] == Hex(u.bytes);
      HexTellsApart(bytes, u.bytes);
  }

  /** The text of a value holds no comma. */
  lemma {:induction false} HexHasNoComma(bytes: seq<Byte>)
    ensures ',' !in Hex(bytes)
  {
    if bytes != [] {
      HexHasNoComma(bytes[1..]);
    }
  }

  lemma ShowHasNoComma(v: Value)
    ensures ',' !in Show(v) && Show(v) != ""
  {
    match v
    case Number(i) => NumeralReadsBack(if i >= 0 then i else -i);
    case Truth(_) =>
    case Raw(bytes) => HexHasNoComma(bytes);
  }

  // --- the decoder ----------------------------------------------------------------------------------

  method AllAre(w: seq<Byte>, fill: Byte) returns (all: bool)
    ensures all <==> Filled(w, |w|, fill)
  {
    for i := 0 to |w|
      invariant Filled(w, i, fill)
    {
      if w[i] != fill {
        return false;
      }
    }
    return true;
  }

  /** The magnitude of a negative word: every byte inverted, plus one. */
  method Negated(w: seq<Byte>) returns (m: seq<Byte>)
    requires |w| == 32 && w[0] >= 128
    ensures |m| == 32 && BigEndian(m) == Pow256(32) - BigEndian(w)
  {
    hide BigEndian, Pow256;
    m := [];
    var carry: nat := 1;
    NoBytes();
    assert w[32..] == [];
    for i := 32 downto 0
      invariant |m| == 32 - i && carry <= 1
      invariant BigEndian(m) + carry * Pow256(32 - i) + BigEndian(w[i..]) == Pow256(32 - i)
    {
      var v := 255 - w[i] + carry;
      ghost var rest := m;
      m := [v % 256] + m;
      Prepended(v % 256, rest);
      Prepended(w[i], w[i + 1..]);
      assert w[i..] == [w[i]] + w[i + 1..];
      OneByte(w[i], carry, Pow256(31 - i), BigEndian(rest), BigEndian(w[i + 1..]));
      NextPower(31 - i);
      carry := v / 256;
    }
    assert w[0..] == w;
    SignedBounds(w);
    HalfFits(256);
  }

  lemma NoBytes()
    ensures BigEndian([]) == 0 && Pow256(0) == 1
  {
  }

  lemma NextPower(k: nat)
    ensures Pow256(k + 1) == 256 * Pow256(k)
  {
  }

  lemma OneByte(b: Byte, carry: nat, p: nat, m: nat, r: nat)
    requires carry <= 1 && m + carry * p + r == p
    ensures var v := 255 - b + carry;
      v / 256 <= 1 && ((v % 256) * p + m) + (v / 256) * (256 * p) + (b * p + r) == 256 * p
  {
  }

  /** A word as its type, as text; `None` when it is not a canonical encoding. An integer is read
      exactly when its signed value fits, the smallest one included. */
  method Decode(t: AbiType, w: seq<Byte>) returns (r: Option<string>)
    requires IsType(t) && |w| == 32
    ensures r == (match Read(t, w) case Some(v) => Some(Show(v)) case None => None)
    ensures r.Some? ==> Says(t, w, r.value)
  {
    hide BigEndian, Pow256, Numeral, Says;
    if Read(t, w).Some? {
      ShownIsSaid(t, w);
    }
    match t
    case Address =>
      var zeros := AllAre(w[..12], 0);
      return if zeros then Some("0x" + Hex(w[12..])) else None;
    case Bool =>
      var zeros := AllAre(w[..31], 0);
      BoolWord(w);
      return if zeros && w[31] <= 1 then Some(if w[31] == 1 then "true" else "false") else None;
    case FixedBytes(n) =>
      var zeros := AllAre(w[n..], 0);
      return if zeros then Some("0x" + Hex(w[..n])) else None;
    case Uint(bits) =>
      var pad := 32 - bits / 8;
      LeadingZeros(w, pad);
      var zeros := AllAre(w[..pad], 0);
      if !zeros {
        return None;
      }
      var s := WordDecimal(w);
      return Some(s);
    case Int(bits) =>
      r := DecodeInt(bits, w);
  }

  lemma BoolWord(w: seq<Byte>)
    requires |w| == 32
    ensures Filled(w, 31, 0) && w[31] <= 1 <==> BigEndian(w) <= 1
    ensures BigEndian(w) <= 1 ==> BigEndian(w) == w[31]
  {
    hide BigEndian, Pow256;
    LeadingZeros(w, 31);
    SmallPowers();
    if Filled(w, 31, 0) {
      WithoutZeros(w, 31);
      assert BigEndian(w[31..]) == w[31] by {
        LastByte(w[31..]);
      }
    }
  }

  lemma LastByte(w: seq<Byte>)
    requires |w| == 1
    ensures BigEndian(w) == w[0]
  {
  }

  /** The padding test of a signed word is the range of its type. */
  lemma PaddingIsRange(bits: nat, w: seq<Byte>)
    requires IsWidth(bits) && |w| == 32
    ensures var pad := 32 - bits / 8;
      && (w[pad] >= 128 ==> (Filled(w, pad, 0xFF) <==> -Half(bits) <= Signed(w) < 0))
      && (w[pad] < 128 ==> (Filled(w, pad, 0) <==> 0 <= Signed(w) < Half(bits)))
      && (Filled(w, pad, 0xFF) && w[pad] >= 128 ==> w[0] >= 128)
      && (-Half(bits) <= Signed(w) < 0 ==> w[pad] >= 128) && (0 <= Signed(w) < Half(bits) ==> w[pad] < 128)
  {
    hide BigEndian, Pow256;
    var pad := 32 - bits / 8;
    PositiveRange(w, pad);
    NegativeRange(w, pad);
    SignedBounds(w);
    HalfFits(bits);
    BytesOfValue(w);
  }

  method DecodeInt(bits: nat, w: seq<Byte>) returns (r: Option<string>)
    requires IsWidth(bits) && |w| == 32
    ensures r == (match Read(Int(bits), w) case Some(v) => Some(Show(v)) case None => None)
  {
    hide BigEndian, Pow256, Numeral, Half;
    var pad := 32 - bits / 8;
    var negative := w[pad] >= 128;
    var fill: Byte := if negative then 0xFF else 0;
    var filled := AllAre(w[..pad], fill);
    PaddingIsRange(bits, w);
    if !filled {
      return None;
    }
    if !negative {
      var s := WordDecimal(w);
      return Some(s);
    }
    var m := Negated(w);
    var s := WordDecimal(m);
    return Some("-" + s);
  }
}
