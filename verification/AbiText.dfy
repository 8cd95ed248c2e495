/** When two calls of one contract show one text: exactly when it has two functions of one name and
    one list of argument names whose types can show the same text position by position. */
module AbiText {
  import opened Common
  import opened Numerals
  import opened AbiWords
  import opened AbiCall

  // --- the text of a call determines its parts --------------------------------------------------

  ghost predicate NoCommas(parts: seq<string>) {
    forall i :: 0 <= i < |parts| ==> parts[i] != "" && ',' !in parts[i]
  }

  lemma JoinedUnfolds(x: seq<string>)
    requires x != []
    ensures Joined(x) == x[0] + Tail(x)
    ensures Tail(x) == if |x| == 1 then "" else ", " + Joined(x[1..])
  {
    if |x| == 1 {
      assert x[0] + "" == x[0];
    } else {
      Regrouped(x[0], ", ", Joined(x[1..]));
    }
  }

  lemma Regrouped(a: string, b: string, c: string)
    ensures (a + b) + c == a + (b + c)
  {
  }

  lemma JoinedBegins(x: seq<string>)
    requires x != [] && NoCommas(x)
    ensures Joined(x) == x[0] + Tail(x) && Joined(x) != "" && Separated(x[0], Tail(x), ',')
    ensures Tail(x) == if |x| == 1 then "" else ", " + Joined(x[1..])
  {
    hide Joined, Tail;
    JoinedUnfolds(x);
    assert |Joined(x)| == |x[0]| + |Tail(x)|;
    assert Tail(x) == "" || Tail(x)[0] == ',';
  }

  /** Parts without commas are determined by their joined text. */
  lemma {:induction false} JoinedTellsApart(x: seq<string>, y: seq<string>)
    requires NoCommas(x) && NoCommas(y) && Joined(x) == Joined(y)
    ensures x == y
  {
    hide Tail, Separated;
    if x != [] && y != [] {
      hide Joined;
      JoinedBegins(x);
      JoinedBegins(y);
      FirstPart(x[0], Tail(x), y[0], Tail(y), ',');
      if |x| > 1 && |y| > 1 {
        SameRest(", ", Joined(x[1..]), Joined(y[1..]));
        JoinedTellsApart(x[1..], y[1..]);
      }
      assert x == [x[0]] + x[1..] && y == [y[0]] + y[1..];
    } else if x != [] {
      JoinedBegins(x);
    } else if y != [] {
      JoinedBegins(y);
    }
  }

  lemma {:induction false} ShownAt(inputs: seq<Input>, values: seq<Value>, i: nat)
    requires |inputs| == |values| && i < |inputs|
    ensures |ShowArguments(inputs, values)| == |inputs|
    ensures ShowArguments(inputs, values)[i] == inputs[i].name + "=" + Show(values[i])
  {
    hide Show;
    ShownCount(inputs, values);
    if i > 0 {
      ShownAt(inputs[1..], values[1..], i - 1);
    }
  }

  lemma ShownNoCommas(f: Function, values: seq<Value>)
    requires PlainNames(f) && |f.inputs| == |values|
    ensures NoCommas(ShowArguments(f.inputs, values))
  {
    hide Show;
    ShownCount(f.inputs, values);
    forall i | 0 <= i < |f.inputs|
      ensures ',' !in ShowArguments(f.inputs, values)[i] && ShowArguments(f.inputs, values)[i] != ""
    {
      ShownAt(f.inputs, values, i);
      ShowHasNoComma(values[i]);
    }
  }

  /** The same names and, value by value, the same text. */
  ghost predicate SameParts(f: Function, values: seq<Value>, g: Function, others: seq<Value>)
    requires |f.inputs| == |values| && |g.inputs| == |others|
  {
    && f.name == g.name && |f.inputs| == |g.inputs|
    && forall i :: 0 <= i < |f.inputs| ==> f.inputs[i].name == g.inputs[i].name && Show(values[i]) == Show(others[i])
  }

  lemma CallSplits(f: Function, values: seq<Value>, g: Function, others: seq<Value>)
    requires PlainNames(f) && PlainNames(g) && |f.inputs| == |values| && |g.inputs| == |others|
    requires ShowCall(f, values) == ShowCall(g, others)
    ensures f.name == g.name && ShowArguments(f.inputs, values) == ShowArguments(g.inputs, others)
  {
    hide ShowArguments, Joined, NoCommas;
    var x, y := Joined(ShowArguments(f.inputs, values)), Joined(ShowArguments(g.inputs, others));
    assert ShowCall(f, values) == f.name + ("(" + x + ")") && ShowCall(g, others) == g.name + ("(" + y + ")");
    FirstPart(f.name, "(" + x + ")", g.name, "(" + y + ")", '(');
    assert ("(" + x + ")")[1..|x| + 1] == x && ("(" + y + ")")[1..|y| + 1] == y;
    ShownNoCommas(f, values);
    ShownNoCommas(g, others);
    JoinedTellsApart(ShowArguments(f.inputs, values), ShowArguments(g.inputs, others));
  }

  /** Two calls show one text exactly when their names agree and each pair of values shows one. */
  lemma TextTellsParts(f: Function, values: seq<Value>, g: Function, others: seq<Value>)
    requires PlainNames(f) && PlainNames(g) && |f.inputs| == |values| && |g.inputs| == |others|
    ensures ShowCall(f, values) == ShowCall(g, others) <==> SameParts(f, values, g, others)
  {
    hide Show, Joined, ShowArguments, IsPlain;
    ShownCount(f.inputs, values);
    ShownCount(g.inputs, others);
    if ShowCall(f, values) == ShowCall(g, others) {
      CallSplits(f, values, g, others);
      forall i | 0 <= i < |f.inputs| ensures f.inputs[i].name == g.inputs[i].name && Show(values[i]) == Show(others[i]) {
        ShownAt(f.inputs, values, i);
        ShownAt(g.inputs, others, i);
        ArgumentSplits(f.inputs[i].name, Show(values[i]), g.inputs[i].name, Show(others[i]));
      }
    }
    if SameParts(f, values, g, others) {
      forall i | 0 <= i < |f.inputs| ensures ShowArguments(f.inputs, values)[i] == ShowArguments(g.inputs, others)[i] {
        ShownAt(f.inputs, values, i);
        ShownAt(g.inputs, others, i);
      }
      assert ShowArguments(f.inputs, values) == ShowArguments(g.inputs, others);
    }
  }

  lemma ArgumentSplits(a: string, x: string, b: string, y: string)
    requires IsPlain(a) && IsPlain(b) && a + "=" + x == b + "=" + y
    ensures a == b && x == y
  {
    assert a + "=" + x == a + ("=" + x) && b + "=" + y == b + ("=" + y);
    FirstPart(a, "=" + x, b, "=" + y, '=');
    SameRest("=", x, y);
  }

  // --- types that can show the same text ----------------------------------------------------------

  function RawLength(t: AbiType): nat {
    match t
    case Address => 20
    case FixedBytes(n) => n
    case _ => 0
  }

  predicate IsNumber(t: AbiType) {
    t.Uint? || t.Int?
  }

  /** Any two integer types, booleans, and byte strings of one length: an address reads like 20
      bytes. */
  predicate TextCompatible(t: AbiType, u: AbiType) {
    if IsNumber(t) then IsNumber(u)
    else if t.Bool? then u.Bool?
    else !IsNumber(u) && !u.Bool? && RawLength(t) == RawLength(u)
  }

  lemma {:induction false} HexLength(bytes: seq<Byte>)
    ensures |Hex(bytes)| == 2 * |bytes|
  {
    if bytes != [] {
      HexLength(bytes[1..]);
    }
  }

  /** The text of a value tells a number, a boolean and a byte string of some length apart. */
  lemma TextTellsKinds(v: Value, w: Value)
    requires Show(v) == Show(w)
    ensures (v.Number? <==> w.Number?) && (v.Raw? <==> w.Raw?)
    ensures v.Raw? && w.Raw? ==> |v.bytes| == |w.bytes|
  {
    hide Numeral, Hex;
    NumberText(v);
    NumberText(w);
    if v.Raw? && w.Raw? {
      HexLength(v.bytes);
      HexLength(w.bytes);
    }
  }

  lemma NumberText(v: Value)
    ensures v.Number? ==> Show(v) != "" && (Show(v)[0] == '-' || '0' <= Show(v)[0] <= '9') && 'x' !in Show(v)
    ensures v.Raw? ==> |Show(v)| >= 2 && Show(v)[0] == '0' && Show(v)[1] == 'x'
    ensures v.Truth? ==> Show(v)[0] == 't' || Show(v)[0] == 'f'
  {
    if v.Number? {
      NumeralReadsBack(if v.i >= 0 then v.i else -v.i);
    }
  }

  /** A value that every compatible type has. */
  function Sample(t: AbiType): (v: Value)
    requires IsType(t)
    ensures Fits(t, v)
  {
    match t
    case Uint(bits) => PowGrows(0, bits / 8); Number(0)
    case Int(bits) => HalfFits(bits); Number(0)
    case Bool => Truth(true)
    case _ => Raw(Zeros(RawLength(t)))
  }

  ghost predicate CanShowAlike(t: AbiType, u: AbiType)
    requires IsType(t) && IsType(u)
  {
    exists v, w :: Fits(t, v) && Fits(u, w) && Show(v) == Show(w)
  }

  lemma SamplesAgree(t: AbiType, u: AbiType)
    requires IsType(t) && IsType(u) && TextCompatible(t, u)
    ensures Sample(t) == Sample(u)
  {
  }

  lemma AlikeIsCompatible(t: AbiType, v: Value, u: AbiType, w: Value)
    requires IsType(t) && IsType(u) && Fits(t, v) && Fits(u, w) && Show(v) == Show(w)
    ensures TextCompatible(t, u)
  {
    hide Show, Pow256, Half;
    TextTellsKinds(v, w);
  }

  /** Two types can show the same text exactly when they are compatible. */
  lemma CompatibleShowAlike(t: AbiType, u: AbiType)
    requires IsType(t) && IsType(u)
    ensures TextCompatible(t, u) <==> CanShowAlike(t, u)
  {
    hide Show, Fits, TextCompatible, Sample, IsType;
    if CanShowAlike(t, u) {
      var v, w :| Fits(t, v) && Fits(u, w) && Show(v) == Show(w);
      AlikeIsCompatible(t, v, u, w);
    }
    if TextCompatible(t, u) {
      SamplesAgree(t, u);
      assert Fits(t, Sample(t)) && Fits(u, Sample(u)) && Show(Sample(t)) == Show(Sample(u));
    }
  }

  // --- functions that can show the same text ------------------------------------------------------

  /** What can be read off an ABI: one name, one list of argument names, compatible types. */
  predicate LookAlike(f: Function, g: Function) {
    && f.name == g.name && |f.inputs| == |g.inputs|
    && forall i :: 0 <= i < |f.inputs| ==>
      f.inputs[i].name == g.inputs[i].name && TextCompatible(f.inputs[i].ty, g.inputs[i].ty)
  }

  function Samples(inputs: seq<Input>): (values: seq<Value>)
    requires forall i :: 0 <= i < |inputs| ==> IsType(inputs[i].ty)
    ensures |values| == |inputs| && forall i :: 0 <= i < |inputs| ==> values[i] == Sample(inputs[i].ty)
  {
    seq(|inputs|, i requires 0 <= i < |inputs| => Sample(inputs[i].ty))
  }

  lemma LookAlikesShowAlike(f: Function, g: Function)
    requires FunctionOk(f) && FunctionOk(g) && PlainNames(f) && PlainNames(g) && LookAlike(f, g)
    ensures ArgumentsFit(f.inputs, Samples(f.inputs)) && ArgumentsFit(g.inputs, Samples(g.inputs))
    ensures ShowCall(f, Samples(f.inputs)) == ShowCall(g, Samples(g.inputs))
  {
    hide Show, Fits, PlainNames, TextCompatible, Sample;
    forall i | 0 <= i < |f.inputs| ensures Sample(f.inputs[i].ty) == Sample(g.inputs[i].ty) {
      SamplesAgree(f.inputs[i].ty, g.inputs[i].ty);
    }
    TextTellsParts(f, Samples(f.inputs), g, Samples(g.inputs));
  }

  lemma ShowAlikesLookAlike(f: Function, values: seq<Value>, g: Function, others: seq<Value>)
    requires PlainNames(f) && PlainNames(g) && ArgumentsFit(f.inputs, values) && ArgumentsFit(g.inputs, others)
    requires ShowCall(f, values) == ShowCall(g, others)
    ensures LookAlike(f, g)
  {
    hide Show, Fits, PlainNames, TextCompatible;
    TextTellsParts(f, values, g, others);
    forall i | 0 <= i < |f.inputs| ensures TextCompatible(f.inputs[i].ty, g.inputs[i].ty) {
      AlikeIsCompatible(f.inputs[i].ty, values[i], g.inputs[i].ty, others[i]);
    }
  }

  // --- ABIs that can show the same text -----------------------------------------------------------

  /** Two different calls that are decoded to one text. */
  ghost predicate OneTextTwoCalls(abi: ContractAbi, data: seq<Byte>, value: nat, otherData: seq<Byte>, otherValue: nat)
    requires AbiOk(abi)
  {
    var call, other := ReadCall(abi, data, value), ReadCall(abi, otherData, otherValue);
    && data != otherData && call.Some? && other.Some?
    && |call.value.1| == |call.value.0.inputs| && |other.value.1| == |other.value.0.inputs|
    && ShowCall(call.value.0, call.value.1) == ShowCall(other.value.0, other.value.1)
  }

  lemma FoundBySelector(abi: ContractAbi, k: nat)
    requires NamesOk(abi) && k < |abi.functions|
    ensures FindFunction(abi.functions, abi.functions[k].selector) == Some(abi.functions[k])
  {
    var found := FindFunction(abi.functions, abi.functions[k].selector);
    var l :| 0 <= l < |abi.functions| && abi.functions[l] == found.value;
    assert l == k;
  }

  ghost predicate TwoLookAlike(abi: ContractAbi, k: nat, l: nat) {
    k < l < |abi.functions| && LookAlike(abi.functions[k], abi.functions[l])
  }

  lemma LookAlikesAreTwoCalls(abi: ContractAbi, k: nat, l: nat)
    returns (data: seq<Byte>, otherData: seq<Byte>)
    requires AbiOk(abi) && NamesOk(abi) && TwoLookAlike(abi, k, l)
    ensures OneTextTwoCalls(abi, data, 0, otherData, 0)
  {
    hide ReadCall, LookAlike, ShowCall, PlainNames, ArgumentsFit;
    var f, g := abi.functions[k], abi.functions[l];
    LookAlikesShowAlike(f, g);
    data := f.selector + EncodeArguments(f.inputs, Samples(f.inputs));
    otherData := g.selector + EncodeArguments(g.inputs, Samples(g.inputs));
    assert data[..4] == f.selector && otherData[..4] == g.selector;
    FoundBySelector(abi, k);
    FoundBySelector(abi, l);
    DecodesExactlyEncodings(abi, data, 0, f, Samples(f.inputs));
    DecodesExactlyEncodings(abi, otherData, 0, g, Samples(g.inputs));
  }

  lemma TwoCallsLookAlike(abi: ContractAbi, data: seq<Byte>, value: nat, otherData: seq<Byte>, otherValue: nat)
    requires AbiOk(abi) && NamesOk(abi) && OneTextTwoCalls(abi, data, value, otherData, otherValue)
    ensures exists k: nat, l: nat :: TwoLookAlike(abi, k, l)
  {
    hide ReadCall, LookAlike, ShowCall, PlainNames, ArgumentsFit;
    var (f, values) := ReadCall(abi, data, value).value;
    var (g, others) := ReadCall(abi, otherData, otherValue).value;
    DecodesExactlyEncodings(abi, data, value, f, values);
    DecodesExactlyEncodings(abi, otherData, otherValue, g, others);
    ShowAlikesLookAlike(f, values, g, others);
    ShowAlikesLookAlike(g, others, f, values);
    if f == g {
      OneTextOneCall(f, values, others, data, otherData);
      assert false;
    }
    var k :| 0 <= k < |abi.functions| && abi.functions[k] == f;
    var l :| 0 <= l < |abi.functions| && abi.functions[l] == g;
    assert TwoLookAlike(abi, if k < l then k else l, if k < l then l else k);
  }

  /** An ABI has two calls with one text exactly when two of its functions look alike. */
  lemma TextIsAmbiguousWhen(abi: ContractAbi)
    requires AbiOk(abi) && NamesOk(abi)
    ensures (exists data, value: nat, otherData, otherValue: nat :: OneTextTwoCalls(abi, data, value, otherData, otherValue))
       <==> (exists k: nat, l: nat :: TwoLookAlike(abi, k, l))
  {
    hide OneTextTwoCalls, TwoLookAlike, NamesOk, AbiOk;
    if k: nat, l: nat :| TwoLookAlike(abi, k, l) {
      var data, otherData := LookAlikesAreTwoCalls(abi, k, l);
      assert OneTextTwoCalls(abi, data, 0, otherData, 0);
    }
    if data, value: nat, otherData, otherValue: nat :| OneTextTwoCalls(abi, data, value, otherData, otherValue) {
      TwoCallsLookAlike(abi, data, value, otherData, otherValue);
    }
  }
}
