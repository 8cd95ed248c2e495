/** Numbers as text and as big-endian bytes. */
module Numerals {
  import opened Common

  type Byte = b: nat | b < 256

  // --- digits ------------------------------------------------------------------------------

  function DigitValue(c: char): nat {
    if '0' <= c <= '9' then c as nat - '0' as nat
    else if 'a' <= c <= 'f' then c as nat - 'a' as nat + 10
    else if 'A' <= c <= 'F' then c as nat - 'A' as nat + 10
    else 99
  }

  predicate AllDigits(s: string, radix: nat) {
    forall i :: 0 <= i < |s| ==> DigitValue(s[i]) < radix
  }

  function ValueOf(s: string, radix: nat): nat {
    if s == [] then 0 else ValueOf(s[..|s| - 1], radix) * radix + DigitValue(s[|s| - 1])
  }

  lemma NoDigits(radix: nat)
    ensures ValueOf([], radix) == 0 && AllDigits([], radix)
  {
  }

  lemma LastDigit(s: string, c: char, radix: nat)
    ensures ValueOf(s + [c], radix) == ValueOf(s, radix) * radix + DigitValue(c)
  {
    assert (s + [c])[..|s|] == s;
  }

  /** An unsigned number as the standard integer parser reads it: digits, after an optional plus
      sign, not above `max`. */
  function ParseUnsigned(s: string, radix: nat, max: nat): Option<nat> {
    var digits := if |s| > 0 && s[0] == '+' then s[1..] else s;
    if digits != [] && AllDigits(digits, radix) && ValueOf(digits, radix) <= max
    then Some(ValueOf(digits, radix)) else None
  }

  function DigitChar(d: nat): char
    requires d < 10
  {
    '0' + d as char
  }

  /** The decimal numeral of a number. */
  function Numeral(n: nat): string {
    if n < 10 then [DigitChar(n)] else Numeral(n / 10) + [DigitChar(n % 10)]
  }

  const HEX_DIGITS := "0123456789abcdef"
  const CAPITAL_HEX_DIGITS := "0123456789ABCDEF"

  lemma HexDigitsRead(d: nat)
    requires d < 16
    ensures DigitValue(HEX_DIGITS[d]) == DigitValue(CAPITAL_HEX_DIGITS[d]) == d
  {
  }

  /** The hexadecimal numeral of a number, in lower case. */
  function HexNumeral(n: nat): string {
    if n < 16 then [HEX_DIGITS[n]] else HexNumeral(n / 16) + [HEX_DIGITS[n % 16]]
  }

  lemma OneMoreHexDigit(front: string, d: nat, n: nat)
    requires d < 16 && AllDigits(front, 16) && ValueOf(front, 16) == n
    ensures AllDigits(front + [HEX_DIGITS[d]], 16) && ValueOf(front + [HEX_DIGITS[d]], 16) == n * 16 + d
  {
    hide DigitValue, ValueOf;
    HexDigitsRead(d);
    LastDigit(front, HEX_DIGITS[d], 16);
  }

  lemma {:induction false} HexNumeralReadsBack(n: nat)
    ensures HexNumeral(n) != "" && HexNumeral(n)[0] in HEX_DIGITS
    ensures AllDigits(HexNumeral(n), 16) && ValueOf(HexNumeral(n), 16) == n
  {
    hide AllDigits, ValueOf;
    if n < 16 {
      NoDigits(16);
      OneMoreHexDigit("", n, 0);
      assert "" + [HEX_DIGITS[n]] == [HEX_DIGITS[n]];
    } else {
      HexNumeralReadsBack(n / 16);
      OneMoreHexDigit(HexNumeral(n / 16), n % 16, n / 16);
    }
  }

  /** Decimal digits without a leading zero. */
  predicate IsNumeral(s: string) {
    s != [] && (forall i :: 0 <= i < |s| ==> '0' <= s[i] <= '9') && (|s| > 1 ==> s[0] != '0')
  }

  lemma {:induction false} NumeralReadsBack(n: nat)
    ensures IsNumeral(Numeral(n)) && ValueOf(Numeral(n), 10) == n
    ensures n > 0 ==> Numeral(n)[0] != '0'
  {
    if n < 10 {
      assert ValueOf(Numeral(n)[..0], 10) == 0;
    } else {
      NumeralReadsBack(n / 10);
      assert Numeral(n)[..|Numeral(n)| - 1] == Numeral(n / 10);
    }
  }

  /** A number has one numeral. */
  lemma {:induction false} NumeralIsUnique(s: string)
    requires IsNumeral(s)
    ensures s == Numeral(ValueOf(s, 10))
    ensures |s| > 1 || s[0] != '0' ==> ValueOf(s, 10) > 0
  {
    var front := s[..|s| - 1];
    if |s| == 1 {
      assert ValueOf(front, 10) == 0;
    } else {
      NumeralIsUnique(front);
      var q, d := ValueOf(front, 10), DigitValue(s[|s| - 1]);
      assert ValueOf(s, 10) == q * 10 + d && d < 10 && DigitChar(d) == s[|s| - 1];
      TenTimes(q, d);
      assert s == front + [s[|s| - 1]];
    }
  }

  /** The parser reads the numerals of numbers up to its bound. */
  lemma NumeralParses(n: nat, max: nat)
    requires n <= max
    ensures IsNumeral(Numeral(n)) && ParseUnsigned(Numeral(n), 10, max) == Some(n)
  {
    hide Numeral, ValueOf;
    NumeralReadsBack(n);
  }

  lemma HexNumeralParses(n: nat, max: nat)
    requires n <= max
    ensures ParseUnsigned(HexNumeral(n), 16, max) == Some(n)
  {
    hide HexNumeral, ValueOf, AllDigits;
    HexNumeralReadsBack(n);
  }

  function ZeroDigits(k: nat): (s: string)
    ensures |s| == k && forall i :: 0 <= i < k ==> s[i] == '0'
  {
    seq(k, _ => '0')
  }

  /** `s` is the numeral of `n` after zeros and an optional plus sign. */
  ghost predicate Spells(s: string, n: nat) {
    exists sign, k: nat :: (sign == "" || sign == "+") && s == sign + (ZeroDigits(k) + Numeral(n))
  }

  lemma {:induction false} ZerosAddNothing(k: nat, s: string)
    ensures ValueOf(ZeroDigits(k) + s, 10) == ValueOf(s, 10)
    decreases |s|, k
  {
    if s != [] {
      ZerosAddNothing(k, s[..|s| - 1]);
      assert (ZeroDigits(k) + s)[..k + |s| - 1] == ZeroDigits(k) + s[..|s| - 1];
    } else if k > 0 {
      ZerosAddNothing(k - 1, s);
      assert (ZeroDigits(k) + s)[..k - 1] == ZeroDigits(k - 1) + s;
    }
  }

  /** Digits are zeros and the numeral of their value. */
  lemma {:induction false} ZerosAndNumeral(s: string) returns (k: nat)
    requires s != "" && AllDigits(s, 10)
    ensures s == ZeroDigits(k) + Numeral(ValueOf(s, 10))
  {
    if |s| == 1 || s[0] != '0' {
      k := 0;
      NumeralIsUnique(s);
    } else {
      var rest := ZerosAndNumeral(s[1..]);
      k := rest + 1;
      ZerosAddNothing(1, s[1..]);
      assert s == ZeroDigits(1) + s[1..] && ZeroDigits(k) == ZeroDigits(1) + ZeroDigits(rest);
    }
  }

  lemma ParsedIsSpelled(s: string, n: nat, max: nat)
    requires ParseUnsigned(s, 10, max) == Some(n)
    ensures Spells(s, n)
  {
    hide ValueOf, Numeral;
    var sign, digits := if s[0] == '+' then "+" else "", if s[0] == '+' then s[1..] else s;
    var k := ZerosAndNumeral(digits);
    assert s == sign + (ZeroDigits(k) + Numeral(n));
  }

  lemma SpelledDigits(k: nat, n: nat)
    ensures var digits := ZeroDigits(k) + Numeral(n);
      digits != "" && AllDigits(digits, 10) && digits[0] != '+' && ValueOf(digits, 10) == n
  {
    hide ValueOf, Numeral;
    NumeralReadsBack(n);
    ZerosAddNothing(k, Numeral(n));
  }

  /** Which texts the integer parser reads as `n`. */
  lemma ParsesSpellings(s: string, n: nat, max: nat)
    ensures ParseUnsigned(s, 10, max) == Some(n) <==> n <= max && Spells(s, n)
  {
    hide ValueOf, Numeral, AllDigits, ZeroDigits;
    if ParseUnsigned(s, 10, max) == Some(n) {
      ParsedIsSpelled(s, n, max);
    }
    if Spells(s, n) {
      var sign, k: nat :| (sign == "" || sign == "+") && s == sign + (ZeroDigits(k) + Numeral(n));
      var digits := ZeroDigits(k) + Numeral(n);
      SpelledDigits(k, n);
      if sign == "" {
        assert s == digits;
      } else {
        assert s[0] == '+' && s[1..] == digits;
      }
    }
  }

  lemma TenTimes(q: nat, d: nat)
    requires d < 10
    ensures (q * 10 + d) / 10 == q && (q * 10 + d) % 10 == d
  {
  }

  lemma NumeralsTellApart(m: nat, n: nat)
    requires Numeral(m) == Numeral(n)
    ensures m == n
  {
    NumeralReadsBack(m);
    NumeralReadsBack(n);
  }

  // --- big-endian bytes ------------------------------------------------------------------------

  function Pow256(k: nat): nat {
    if k == 0 then 1 else 256 * Pow256(k - 1)
  }

  function BigEndian(w: seq<Byte>): nat {
    if w == [] then 0 else BigEndian(w[..|w| - 1]) * 256 + w[|w| - 1]
  }

  /** `n` in `k` bytes, without what does not fit. */
  function Bytes(n: nat, k: nat): (w: seq<Byte>)
    ensures |w| == k
  {
    if k == 0 then [] else Bytes(n / 256, k - 1) + [n % 256]
  }

  lemma {:induction false} BytesReadBack(n: nat, k: nat)
    requires n < Pow256(k)
    ensures BigEndian(Bytes(n, k)) == n
  {
    if k > 0 {
      BytesReadBack(n / 256, k - 1);
      assert Bytes(n, k)[..k - 1] == Bytes(n / 256, k - 1);
    }
  }

  lemma {:induction false} BytesOfValue(w: seq<Byte>)
    ensures Bytes(BigEndian(w), |w|) == w
    ensures BigEndian(w) < Pow256(|w|)
  {
    if w != [] {
      BytesOfValue(w[..|w| - 1]);
    }
  }

  lemma {:induction false} Prepended(b: Byte, w: seq<Byte>)
    ensures BigEndian([b] + w) == b * Pow256(|w|) + BigEndian(w)
  {
    if w == [] {
      assert ([b] + w)[..0] == [];
    } else {
      Prepended(b, w[..|w| - 1]);
      assert ([b] + w)[..|w|] == [b] + w[..|w| - 1];
    }
  }

  predicate Filled(w: seq<Byte>, pad: nat, fill: Byte)
    requires pad <= |w|
  {
    forall i :: 0 <= i < pad ==> w[i] == fill
  }

  /** The first `pad` bytes are zero exactly when the value fits in the others. */
  lemma {:induction false} LeadingZeros(w: seq<Byte>, pad: nat)
    requires pad <= |w|
    ensures Filled(w, pad, 0) <==> BigEndian(w) < Pow256(|w| - pad)
  {
    if pad == 0 {
      BytesOfValue(w);
    } else {
      LeadingZeros(w[1..], pad - 1);
      FirstByte(w);
      PowGrows(|w| - pad, |w| - 1);
      if w[0] == 0 {
        FilledRest(w, pad, 0);
      }
    }
  }

  lemma FilledRest(w: seq<Byte>, pad: nat, fill: Byte)
    requires 0 < pad <= |w| && w[0] == fill
    ensures Filled(w, pad, fill) <==> Filled(w[1..], pad - 1, fill)
  {
  }

  lemma FirstByte(w: seq<Byte>)
    requires w != []
    ensures BigEndian(w) == w[0] * Pow256(|w| - 1) + BigEndian(w[1..])
    ensures w[0] == 0 ==> BigEndian(w) == BigEndian(w[1..])
    ensures w[0] > 0 ==> BigEndian(w) >= Pow256(|w| - 1)
  {
    hide BigEndian, Pow256;
    var p := Pow256(|w| - 1);
    assert BigEndian(w) == w[0] * p + BigEndian(w[1..]) by {
      Prepended(w[0], w[1..]);
      assert w == [w[0]] + w[1..];
    }
    if w[0] > 0 {
      Multiple(w[0], p);
    }
  }

  lemma Multiple(b: nat, p: nat)
    requires b > 0
    ensures b * p >= p
  {
  }

  lemma {:induction false} PowGrows(j: nat, k: nat)
    requires j <= k
    ensures 1 <= Pow256(j) <= Pow256(k)
  {
    if j > 0 {
      PowGrows(j - 1, k - 1);
    } else if k > 0 {
      PowGrows(0, k - 1);
    }
  }
}
