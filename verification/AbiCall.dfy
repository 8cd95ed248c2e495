/** Calls to a registered contract, decoded from its own ABI. */
module AbiCall {
  import opened Common
  import opened Numerals
  import opened AbiWords

  const MAX_FUNCTIONS: nat := 512
  const MAX_NAME: nat := 64

  datatype Input = Input(name: string, ty: AbiType)

  datatype Function = Function(name: string, inputs: seq<Input>, payable: bool, selector: seq<Byte>)

  datatype ContractAbi = ContractAbi(name: string, functions: seq<Function>)

  ghost predicate FunctionOk(f: Function) {
    |f.selector| == 4 && forall i :: 0 <= i < |f.inputs| ==> IsType(f.inputs[i].ty)
  }

  ghost predicate AbiOk(abi: ContractAbi) {
    forall f :: f in abi.functions ==> FunctionOk(f)
  }

  // --- plain names ------------------------------------------------------------------------------

  predicate IsPlain(s: string) {
    s != "" && forall i :: 0 <= i < |s| ==>
      'a' <= s[i] <= 'z' || 'A' <= s[i] <= 'Z' || '0' <= s[i] <= '9' || s[i] == '_' || s[i] == '$'
  }

  predicate IsSafeName(s: string) {
    IsPlain(s) && |s| <= MAX_NAME
  }

  predicate PlainNames(f: Function) {
    IsPlain(f.name) && forall i :: 0 <= i < |f.inputs| ==> IsPlain(f.inputs[i].name)
  }

  /** Plain names throughout, and no two functions with one selector. */
  ghost predicate NamesOk(abi: ContractAbi) {
    && (forall f :: f in abi.functions ==> PlainNames(f))
    && (forall k, l :: 0 <= k < l < |abi.functions| ==> abi.functions[k].selector != abi.functions[l].selector)
  }

  // --- the encoding of a call -------------------------------------------------------------------

  ghost predicate ArgumentsFit(inputs: seq<Input>, values: seq<Value>) {
    |values| == |inputs| && forall i :: 0 <= i < |inputs| ==> IsType(inputs[i].ty) && Fits(inputs[i].ty, values[i])
  }

  /** The arguments, one word each. */
  ghost function EncodeArguments(inputs: seq<Input>, values: seq<Value>): (data: seq<Byte>)
    requires ArgumentsFit(inputs, values)
    ensures |data| == 32 * |inputs|
  {
    if inputs == [] then [] else Encode(inputs[0].ty, values[0]) + EncodeArguments(inputs[1..], values[1..])
  }

  /** The selector followed by the canonical encoding of every argument. */
  ghost predicate Encodes(f: Function, values: seq<Value>, data: seq<Byte>) {
    ArgumentsFit(f.inputs, values) && data == f.selector + EncodeArguments(f.inputs, values)
  }

  function ShowArguments(inputs: seq<Input>, values: seq<Value>): seq<string>
    requires |inputs| == |values|
  {
    if inputs == [] then []
    else [inputs[0].name + "=" + Show(values[0])] + ShowArguments(inputs[1..], values[1..])
  }

  function Joined(parts: seq<string>): string {
    if parts == [] then ""
    else if |parts| == 1 then parts[0]
    else parts[0] + ", " + Joined(parts[1..])
  }

  function ShowCall(f: Function, values: seq<Value>): string
    requires |f.inputs| == |values|
  {
    f.name + "(" + Joined(ShowArguments(f.inputs, values)) + ")"
  }

  // --- decoding -----------------------------------------------------------------------------------

  function FindFunction(functions: seq<Function>, selector: seq<Byte>): (r: Option<Function>)
    ensures r.Some? ==> r.value in functions && r.value.selector == selector
    ensures r.Some? ==>
      exists i :: 0 <= i < |functions| && functions[i] == r.value && r.value.selector == selector
        && forall j :: 0 <= j < i ==> functions[j].selector != selector
    ensures r.None? ==> forall i :: 0 <= i < |functions| ==> functions[i].selector != selector
  {
    First(functions, (f: Function) => f.selector == selector)
  }

  /** What the words of the arguments read as. */
  function ReadArguments(inputs: seq<Input>, data: seq<Byte>): (r: Option<seq<Value>>)
    requires |data| == 32 * |inputs| && forall i :: 0 <= i < |inputs| ==> IsType(inputs[i].ty)
    ensures r.Some? ==> |r.value| == |inputs|
  {
    if inputs == [] then Some([])
    else
      var first, rest := Read(inputs[0].ty, data[..32]), ReadArguments(inputs[1..], data[32..]);
      if first.Some? && rest.Some? then Some([first.value] + rest.value) else None
  }

  lemma {:induction false} ReadArgumentsIsEncode(inputs: seq<Input>, data: seq<Byte>, values: seq<Value>)
    requires |data| == 32 * |inputs| && forall i :: 0 <= i < |inputs| ==> IsType(inputs[i].ty)
    ensures ReadArguments(inputs, data) == Some(values) <==>
            ArgumentsFit(inputs, values) && EncodeArguments(inputs, values) == data
  {
    hide Read, Encode, Fits;
    if inputs == [] {
    } else if |values| == |inputs| {
      ReadIsEncode(inputs[0].ty, data[..32], values[0]);
      ReadArgumentsIsEncode(inputs[1..], data[32..], values[1..]);
      assert data == data[..32] + data[32..] && values == [values[0]] + values[1..];
      if ArgumentsFit(inputs, values) && EncodeArguments(inputs, values) == data {
        assert ArgumentsFit(inputs[1..], values[1..]);
        assert EncodeArguments(inputs, values)[..32] == Encode(inputs[0].ty, values[0]);
        assert EncodeArguments(inputs, values)[32..] == EncodeArguments(inputs[1..], values[1..]);
      }
    }
  }

  /** The function a call goes to, and its arguments. */
  function ReadCall(abi: ContractAbi, data: seq<Byte>, value: nat): Option<(Function, seq<Value>)>
    requires AbiOk(abi)
  {
    if |data| < 4 then None
    else
      var f := FindFunction(abi.functions, data[..4]);
      if f.None? || |data| != 4 + 32 * |f.value.inputs| || (value > 0 && !f.value.payable) then None
      else
        var values := ReadArguments(f.value.inputs, data[4..]);
        if values.Some? then Some((f.value, values.value)) else None
  }

  function Labelled(inputs: seq<Input>, texts: seq<string>): seq<string>
    requires |inputs| == |texts|
  {
    seq(|inputs|, i requires 0 <= i < |inputs| => inputs[i].name + "=" + texts[i])
  }

  function CallText(f: Function, texts: seq<string>): string
    requires |f.inputs| == |texts|
  {
    f.name + "(" + Joined(Labelled(f.inputs, texts)) + ")"
  }

  /** The call goes to this function, and each text says what the word of its argument holds. */
  ghost predicate SaysCall(f: Function, data: seq<Byte>, texts: seq<string>) {
    && |texts| == |f.inputs| && |data| == 4 + 32 * |f.inputs| && data[..4] == f.selector
    && forall i :: 0 <= i < |f.inputs| ==>
      IsType(f.inputs[i].ty) && Says(f.inputs[i].ty, data[4 + 32 * i..4 + 32 * (i + 1)], texts[i])
  }

  lemma TwoJoined(first: string, second: string)
    ensures Joined([first, second]) == first + ", " + second && Joined([]) == ""
  {
    assert [first, second][1..] == [second];
  }

  /** What such a text looks like: label and value of every argument, in order. */
  lemma TransferText(selector: seq<Byte>, account: string, amount: string)
    ensures CallText(Function("transfer", [Input("to", Address), Input("amount", Uint(256))], false, selector), [account, amount])
      == "transfer(to=" + account + ", amount=" + amount + ")"
    ensures CallText(Function("pause", [], false, selector), []) == "pause()"
  {
    hide Joined;
    TwoJoined("to" + "=" + account, "amount" + "=" + amount);
    var parts := Labelled([Input("to", Address), Input("amount", Uint(256))], [account, amount]);
    assert parts == ["to" + "=" + account, "amount" + "=" + amount] && Labelled([], []) == [];
  }

  function Texts(values: seq<Value>): seq<string> {
    seq(|values|, i requires 0 <= i < |values| => Show(values[i]))
  }

  lemma {:induction false} ShownIsLabelled(inputs: seq<Input>, values: seq<Value>)
    requires |inputs| == |values|
    ensures ShowArguments(inputs, values) == Labelled(inputs, Texts(values))
  {
    hide Show;
    if inputs != [] {
      ShownIsLabelled(inputs[1..], values[1..]);
      assert Labelled(inputs, Texts(values)) == [Labelled(inputs, Texts(values))[0]] + Labelled(inputs[1..], Texts(values[1..]));
    }
  }

  lemma Shifted(data: seq<Byte>, n: nat, lo: nat, hi: nat)
    requires lo <= hi && n + hi <= |data|
    ensures data[n..][lo..hi] == data[n + lo..n + hi]
  {
  }

  lemma {:induction false} ReadOneByOne(inputs: seq<Input>, data: seq<Byte>, i: nat)
    requires |data| == 32 * |inputs| && forall k :: 0 <= k < |inputs| ==> IsType(inputs[k].ty)
    requires i < |inputs| && ReadArguments(inputs, data).Some?
    ensures Read(inputs[i].ty, data[32 * i..32 * (i + 1)]) == Some(ReadArguments(inputs, data).value[i])
  {
    hide Read;
    if i > 0 {
      ReadOneByOne(inputs[1..], data[32..], i - 1);
      Shifted(data, 32, 32 * (i - 1), 32 * i);
    }
  }

  /** What a call reads as is what its text says. */
  lemma ReadIsSaid(abi: ContractAbi, data: seq<Byte>, value: nat)
    requires AbiOk(abi) && ReadCall(abi, data, value).Some?
    ensures var (f, values) := ReadCall(abi, data, value).value;
      && f in abi.functions && |f.inputs| == |values| && SaysCall(f, data, Texts(values))
      && ShowCall(f, values) == CallText(f, Texts(values))
  {
    hide Read, Show, Says, ReadArguments, Joined;
    var (f, values) := ReadCall(abi, data, value).value;
    ShownIsLabelled(f.inputs, values);
    forall i | 0 <= i < |f.inputs|
      ensures IsType(f.inputs[i].ty) && Says(f.inputs[i].ty, data[4 + 32 * i..4 + 32 * (i + 1)], Texts(values)[i])
    {
      ReadOneByOne(f.inputs, data[4..], i);
      Shifted(data, 4, 32 * i, 32 * (i + 1));
      ShownIsSaid(f.inputs[i].ty, data[4 + 32 * i..4 + 32 * (i + 1)]);
    }
  }

  /** The argument words, one by one, each with its label. */
  method DecodeArguments(inputs: seq<Input>, data: seq<Byte>) returns (args: Option<seq<string>>)
    requires |data| == 4 + 32 * |inputs| && forall i :: 0 <= i < |inputs| ==> IsType(inputs[i].ty)
    ensures args == match ReadArguments(inputs, data[4..])
                    case Some(values) => Some(ShowArguments(inputs, values))
                    case None => None
  {
    hide Read, Show, ReadArguments, Says;
    var shown: seq<string> := [];
    ghost var values: seq<Value> := [];
    NoneBefore(ReadArguments(inputs, data[4..]));
    assert inputs[0..] == inputs;
    for i := 0 to |inputs|
      invariant |shown| == |values| == i
      invariant ReadArguments(inputs, data[4..]) == Before(values, ReadArguments(inputs[i..], data[4 + 32 * i..]))
      invariant shown == ShowArguments(inputs[..i], values)
    {
      var w := data[4 + 32 * i..4 + 32 * (i + 1)];
      ReadOneMore(inputs, data, i, values);
      var text := Decode(inputs[i].ty, w);
      if text.None? {
        return None;
      }
      ghost var v := Read(inputs[i].ty, w).value;
      ShowOneMore(inputs[..i], values, inputs[i], v);
      assert inputs[..i + 1] == inputs[..i] + [inputs[i]];
      shown := shown + [inputs[i].name + "=" + text.value];
      values := values + [v];
    }
    assert inputs[..|inputs|] == inputs && inputs[|inputs|..] == [];
    ReadNoMore(data[4 + 32 * |inputs|..]);
    assert values + [] == values;
    return Some(shown);
  }

  /** The call as `name(arg=value, ...)`; `None` when it is not exactly one decodable call. */
  method DecodeCall(abi: ContractAbi, data: seq<Byte>, value: nat) returns (r: Option<string>)
    requires AbiOk(abi)
    ensures match ReadCall(abi, data, value)
            case Some((f, values)) => |values| == |f.inputs| && r == Some(ShowCall(f, values))
            case None => r == None
    ensures r.Some? ==> exists f, texts :: f in abi.functions && SaysCall(f, data, texts) && r.value == CallText(f, texts)
  {
    hide ReadArguments, ShowArguments, Joined, SaysCall, CallText;
    if ReadCall(abi, data, value).Some? {
      ReadIsSaid(abi, data, value);
    }
    if |data| < 4 {
      return None;
    }
    var found := FindFunction(abi.functions, data[..4]);
    if found.None? {
      return None;
    }
    var f := found.value;
    if |data| != 4 + 32 * |f.inputs| || (value > 0 && !f.payable) {
      return None;
    }
    var args := DecodeArguments(f.inputs, data);
    return if args.Some? then Some(f.name + "(" + Joined(args.value) + ")") else None;
  }

  lemma ReadNoMore(data: seq<Byte>)
    requires |data| == 0
    ensures ReadArguments([], data) == Some([])
  {
  }

  lemma NoneBefore(rest: Option<seq<Value>>)
    ensures Before([], rest) == rest
  {
    if rest.Some? {
      assert [] + rest.value == rest.value;
    }
  }

  /** Reading from the word of argument `i` on. */
  lemma ReadOneMore(inputs: seq<Input>, data: seq<Byte>, i: nat, front: seq<Value>)
    requires |data| == 4 + 32 * |inputs| && i < |inputs| && forall k :: 0 <= k < |inputs| ==> IsType(inputs[k].ty)
    ensures var first := Read(inputs[i].ty, data[4 + 32 * i..4 + 32 * (i + 1)]);
      Before(front, ReadArguments(inputs[i..], data[4 + 32 * i..])) ==
      if first.None? then None
      else Before(front + [first.value], ReadArguments(inputs[i + 1..], data[4 + 32 * (i + 1)..]))
  {
    hide Read;
    var tail := data[4 + 32 * i..];
    assert tail[..32] == data[4 + 32 * i..4 + 32 * (i + 1)] && tail[32..] == data[4 + 32 * (i + 1)..];
    assert inputs[i..][0] == inputs[i] && inputs[i..][1..] == inputs[i + 1..];
    var first, rest := Read(inputs[i].ty, tail[..32]), ReadArguments(inputs[i + 1..], tail[32..]);
    if first.Some? && rest.Some? {
      assert front + ([first.value] + rest.value) == (front + [first.value]) + rest.value;
    }
  }

  function Before(front: seq<Value>, rest: Option<seq<Value>>): Option<seq<Value>> {
    if rest.Some? then Some(front + rest.value) else None
  }

  lemma {:induction false} ShowOneMore(inputs: seq<Input>, values: seq<Value>, input: Input, v: Value)
    requires |inputs| == |values|
    ensures ShowArguments(inputs + [input], values + [v]) == ShowArguments(inputs, values) + [input.name + "=" + Show(v)]
  {
    hide Show;
    if inputs == [] {
      assert [input][1..] == [] && [v][1..] == [];
    } else {
      assert (inputs + [input])[1..] == inputs[1..] + [input] && (values + [v])[1..] == values[1..] + [v];
      ShowOneMore(inputs[1..], values[1..], input, v);
    }
  }

  /** Only the selector of a function followed by the canonical encoding of each argument is
      decoded, and all of these are. */
  lemma DecodesExactlyEncodings(abi: ContractAbi, data: seq<Byte>, value: nat, f: Function, values: seq<Value>)
    requires AbiOk(abi)
    ensures ReadCall(abi, data, value) == Some((f, values)) <==>
      && |data| >= 4 && FindFunction(abi.functions, data[..4]) == Some(f)
      && Encodes(f, values, data) && (value == 0 || f.payable)
  {
    if |data| >= 4 && FindFunction(abi.functions, data[..4]) == Some(f) {
      assert data == data[..4] + data[4..] && data[..4] == f.selector;
      if |data| == 4 + 32 * |f.inputs| {
        ReadArgumentsIsEncode(f.inputs, data[4..], values);
      }
      if Encodes(f, values, data) {
        assert data[4..] == EncodeArguments(f.inputs, values);
      }
    }
  }

  // --- one text, one call ---------------------------------------------------------------------------

  predicate Separated(s: string, rest: string, mark: char) {
    mark !in s && (rest == "" || rest[0] == mark)
  }

  /** Text up to the first separator is determined by the whole. */
  lemma {:induction false} FirstPart(a: string, x: string, b: string, y: string, mark: char)
    requires Separated(a, x, mark) && Separated(b, y, mark) && a + x == b + y
    ensures a == b && x == y
  {
    if a == "" || b == "" {
      assert a == "" ==> x == b + y;
      assert b == "" ==> y == a + x;
    } else {
      assert (a + x)[0] == a[0] && (b + y)[0] == b[0];
      assert (a + x)[1..] == a[1..] + x && (b + y)[1..] == b[1..] + y;
      FirstPart(a[1..], x, b[1..], y, mark);
      assert a == [a[0]] + a[1..] && b == [b[0]] + b[1..];
    }
  }

  function Tail(parts: seq<string>): string {
    if |parts| <= 1 then "" else ", " + Joined(parts[1..])
  }

  lemma {:induction false} ArgumentsTellApart(inputs: seq<Input>, values: seq<Value>, others: seq<Value>)
    requires ArgumentsFit(inputs, values) && ArgumentsFit(inputs, others)
    requires Joined(ShowArguments(inputs, values)) == Joined(ShowArguments(inputs, others))
    ensures values == others
  {
    hide Show, Fits;
    if inputs != [] {
      var x, y := ShowArguments(inputs[1..], values[1..]), ShowArguments(inputs[1..], others[1..]);
      var prefix := inputs[0].name + "=";
      var vs, os := Show(values[0]), Show(others[0]);
      assert ShowArguments(inputs, values) == [prefix + vs] + x && ShowArguments(inputs, others) == [prefix + os] + y;
      assert ([prefix + vs] + x)[1..] == x && ([prefix + os] + y)[1..] == y;
      JoinedSplits(prefix, vs, x);
      JoinedSplits(prefix, os, y);
      SameRest(prefix, vs + Tail([prefix + vs] + x), os + Tail([prefix + os] + y));
      ShowHasNoComma(values[0]);
      ShowHasNoComma(others[0]);
      ShownCount(inputs[1..], values[1..]);
      ShownCount(inputs[1..], others[1..]);
      FirstPart(vs, Tail([prefix + vs] + x), os, Tail([prefix + os] + y), ',');
      ShowTellsApart(inputs[0].ty, values[0], others[0]);
      if |inputs| > 1 {
        SameRest(", ", Joined(x), Joined(y));
        ArgumentsTellApart(inputs[1..], values[1..], others[1..]);
      }
      assert values == [values[0]] + values[1..] && others == [others[0]] + others[1..];
    }
  }

  lemma JoinedSplits(prefix: string, text: string, rest: seq<string>)
    ensures Joined([prefix + text] + rest) == prefix + (text + Tail([prefix + text] + rest))
  {
  }

  lemma SameRest(prefix: string, a: string, b: string)
    requires prefix + a == prefix + b
    ensures a == b
  {
    assert (prefix + a)[|prefix|..] == a && (prefix + b)[|prefix|..] == b;
  }

  lemma {:induction false} ShownCount(inputs: seq<Input>, values: seq<Value>)
    requires |inputs| == |values|
    ensures |ShowArguments(inputs, values)| == |inputs|
  {
    if inputs != [] {
      ShownCount(inputs[1..], values[1..]);
    }
  }

  /** For one function, two different calls never show the same text. */
  lemma OneTextOneCall(f: Function, values: seq<Value>, others: seq<Value>, data: seq<Byte>, otherData: seq<Byte>)
    requires Encodes(f, values, data) && Encodes(f, others, otherData)
    requires ShowCall(f, values) == ShowCall(f, others)
    ensures data == otherData
  {
    var x, y := Joined(ShowArguments(f.inputs, values)), Joined(ShowArguments(f.inputs, others));
    var front := f.name + "(";
    assert ShowCall(f, values)[|front|..] == x + ")" && ShowCall(f, others)[|front|..] == y + ")";
    assert (x + ")")[..|x|] == x && (y + ")")[..|y|] == y;
    ArgumentsTellApart(f.inputs, values, others);
  }

  /** Across functions it can happen: two overloads with the same argument names show the same text
      for calls with different selectors. */
  lemma OverloadsCanShowTheSame(selector: seq<Byte>, otherSelector: seq<Byte>)
    returns (f: Function, g: Function, data: seq<Byte>, otherData: seq<Byte>)
    requires |selector| == |otherSelector| == 4 && selector != otherSelector
    ensures FunctionOk(f) && FunctionOk(g) && f.name == g.name && f.selector == selector && g.selector == otherSelector
    ensures ReadCall(ContractAbi("C", [f, g]), data, 0) == Some((f, [Number(5)]))
    ensures ReadCall(ContractAbi("C", [f, g]), otherData, 0) == Some((g, [Number(5)]))
    ensures data != otherData && |f.inputs| == |g.inputs| == 1 && ShowCall(f, [Number(5)]) == ShowCall(g, [Number(5)])
  {
    hide Read, Show, Encode, ReadCall;
    f := Function("f", [Input("a", Uint(8))], false, selector);
    g := Function("f", [Input("a", Uint(16))], false, otherSelector);
    var abi := ContractAbi("C", [f, g]);
    assert f.inputs[1..] == [] && g.inputs[1..] == [] && [Number(5)][1..] == [] && abi.functions[1..] == [g];
    FiveFits();
    data, otherData := selector + EncodeArguments(f.inputs, [Number(5)]), otherSelector + EncodeArguments(g.inputs, [Number(5)]);
    assert data[..4] == selector && otherData[..4] == otherSelector;
    DecodesExactlyEncodings(abi, data, 0, f, [Number(5)]);
    assert FindFunction([g], otherSelector) == Some(g) && FindFunction(abi.functions, otherSelector) == Some(g);
    DecodesExactlyEncodings(abi, otherData, 0, g, [Number(5)]);
    assert ShowArguments(f.inputs, [Number(5)]) == ShowArguments(g.inputs, [Number(5)]);
  }

  lemma FiveFits()
    ensures Fits(Uint(8), Number(5)) && Fits(Uint(16), Number(5))
  {
  }
}
