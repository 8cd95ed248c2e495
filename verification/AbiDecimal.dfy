/** A 32-byte word in decimal: long multiplication on a vector of decimal digits. */
module AbiDecimal {
  import opened Common
  import opened Numerals

  /** The value of digits whose first is the units. */
  function Value(digits: seq<nat>): nat {
    if digits == [] then 0 else digits[0] + 10 * Value(digits[1..])
  }

  ghost predicate AreDigits(digits: seq<nat>) {
    forall i :: 0 <= i < |digits| ==> digits[i] < 10
  }

  function Pow10(k: nat): nat {
    if k == 0 then 1 else 10 * Pow10(k - 1)
  }

  lemma {:induction false} ValueAppend(digits: seq<nat>, d: nat)
    ensures Value(digits + [d]) == Value(digits) + Pow10(|digits|) * d
  {
    if digits == [] {
      assert [d][1..] == [];
    } else {
      assert (digits + [d])[1..] == digits[1..] + [d];
      ValueAppend(digits[1..], d);
      assert 10 * (Pow10(|digits| - 1) * d) == Pow10(|digits|) * d;
    }
  }

  /** The numeral that lists the digits from the last to the first. */
  function Written(digits: seq<nat>): string
    requires AreDigits(digits)
  {
    if digits == [] then "" else Written(digits[1..]) + [DigitChar(digits[0])]
  }

  lemma {:induction false} WrittenDigits(digits: seq<nat>)
    requires AreDigits(digits)
    ensures |Written(digits)| == |digits|
    ensures forall i :: 0 <= i < |digits| ==> Written(digits)[i] == DigitChar(digits[|digits| - 1 - i])
  {
    if digits != [] {
      WrittenDigits(digits[1..]);
    }
  }

  lemma {:induction false} WrittenValue(digits: seq<nat>)
    requires AreDigits(digits)
    ensures ValueOf(Written(digits), 10) == Value(digits)
  {
    hide ValueOf;
    if digits == [] {
      NoDigits(10);
    } else {
      WrittenValue(digits[1..]);
      LastDigit(Written(digits[1..]), DigitChar(digits[0]), 10);
    }
  }

  /** One digit of the long multiplication: what stands after it is worth `carry` more. */
  lemma OneDigit(done: seq<nat>, d: nat, rest: nat, carry: nat)
    ensures var v := d * 256 + carry;
      Value(done + [v % 10]) + Pow10(|done| + 1) * (256 * rest + v / 10)
      == Value(done) + Pow10(|done|) * (256 * (d + 10 * rest) + carry)
  {
    hide Value;
    var v, p := d * 256 + carry, Pow10(|done|);
    ValueAppend(done, v % 10);
    assert v == 10 * (v / 10) + v % 10;
    Spread(p, rest, v / 10, v % 10);
    assert 256 * (d + 10 * rest) + carry == 2560 * rest + v;
  }

  lemma Spread(p: nat, rest: nat, q: nat, r: nat)
    ensures p * r + (10 * p) * (256 * rest + q) == p * (2560 * rest + (10 * q + r))
  {
  }

  /** Multiplies the digits by 256 and adds a byte. */
  method TimesByte(digits: seq<nat>, byte: Byte) returns (r: seq<nat>)
    requires digits != [] && AreDigits(digits) && (|digits| > 1 ==> digits[|digits| - 1] > 0)
    ensures AreDigits(r) && r != [] && (|r| > 1 ==> r[|r| - 1] > 0)
    ensures Value(r) == 256 * Value(digits) + byte
  {
    hide Value, Pow10;
    r := digits;
    var carry: nat := byte;
    assert r[..0] == [] && digits[0..] == digits;
    ValueOfNone();
    for i := 0 to |digits|
      invariant |r| == |digits| && r[i..] == digits[i..] && carry < 256 // a byte, so the sum below stays small
      invariant AreDigits(r[..i])
      invariant i > 0 && digits[i - 1] > 0 ==> carry > 0
      invariant Value(r[..i]) + Pow10(i) * (256 * Value(digits[i..]) + carry) == 256 * Value(digits) + byte
    {
      var v := r[i] * 256 + carry;
      assert r[i] == digits[i..][0] && digits[i..][1..] == digits[i + 1..];
      FirstDigit(digits[i..]);
      OneDigit(r[..i], digits[i], Value(digits[i + 1..]), carry);
      r := r[i := v % 10];
      carry := v / 10;
      assert r[..i + 1] == r[..i] + [v % 10];
    }
    assert r[..|digits|] == r && digits[|digits|..] == [];
    while carry > 0
      invariant AreDigits(r) && r != []
      invariant carry == 0 ==> |r| == 1 || r[|r| - 1] > 0
      invariant Value(r) + Pow10(|r|) * carry == 256 * Value(digits) + byte
      decreases carry
    {
      OneDigit(r, 0, 0, carry);
      r := r + [carry % 10];
      carry := carry / 10;
    }
  }

  lemma FirstDigit(digits: seq<nat>)
    requires digits != []
    ensures Value(digits) == digits[0] + 10 * Value(digits[1..])
  {
  }

  lemma ValueOfNone()
    ensures Value([]) == 0 && Pow10(0) == 1
  {
  }

  /** The unique decimal numeral of a big-endian word. */
  method WordDecimal(w: seq<Byte>) returns (s: string)
    ensures s == Numeral(BigEndian(w))
  {
    var digits: seq<nat> := [0];
    for k := 0 to |w|
      invariant AreDigits(digits) && digits != [] && (|digits| > 1 ==> digits[|digits| - 1] > 0)
      invariant Value(digits) == BigEndian(w[..k])
    {
      assert w[..k + 1][..k] == w[..k];
      digits := TimesByte(digits, w[k]);
    }
    assert w[..|w|] == w;
    WrittenDigits(digits);
    WrittenValue(digits);
    s := Written(digits);
    NumeralIsUnique(s);
  }
}
