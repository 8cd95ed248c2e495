/** The functions of a contract whose calls can be decoded, read from its ABI. */
module AbiJson {
  import opened Common
  import opened Numerals
  import opened AbiWords
  import opened AbiCall

  /** An entry of the ABI array; a field that is missing or no string is `None`. */
  datatype Entry = Entry(
    kind: Option<string>, mutability: Option<string>, name: Option<string>, inputs: Option<seq<RawInput>>)

  datatype RawInput = RawInput(name: Option<string>, ty: Option<string>)

  function First4(hash: seq<Byte>): (s: seq<Byte>)
    ensures |s| == 4 && (|hash| >= 4 ==> s <= hash)
  {
    if |hash| >= 4 then hash[..4] else Zeros(4)
  }

  function CanonicalTypes(inputs: seq<Input>): string {
    if inputs == [] then ""
    else if |inputs| == 1 then Canonical(inputs[0].ty)
    else Canonical(inputs[0].ty) + "," + CanonicalTypes(inputs[1..])
  }

  function Signature(name: string, inputs: seq<Input>): string {
    name + "(" + CanonicalTypes(inputs) + ")"
  }

  lemma Uint256Name()
    ensures Canonical(Uint(256)) == "uint256"
  {
    assert Numeral(2) == "2" && Numeral(25) == "25";
  }

  /** The text a selector is the hash of, as the ABI specification writes it. */
  lemma TransferSignature(to: string, amount: string)
    ensures Signature("transfer", [Input(to, Address), Input(amount, Uint(256))]) == "transfer(address,uint256)"
    ensures Signature("pause", []) == "pause()" && Signature("burn", [Input(amount, Uint(256))]) == "burn(uint256)"
  {
    hide Numeral;
    Uint256Name();
    var inputs := [Input(to, Address), Input(amount, Uint(256))];
    assert inputs[1..] == [Input(amount, Uint(256))];
    assert CanonicalTypes(inputs) == "address" + "," + "uint256";
  }

  /** An input by its type; a name that is missing or unsafe is replaced by its position. */
  function ReadInput(raw: RawInput, i: nat): (r: Option<Input>)
    ensures r.Some? ==> IsType(r.value.ty) && IsPlain(r.value.name)
  {
    NumeralReadsBack(i);
    var ty := if raw.ty.Some? then ParseType(raw.ty.value) else None;
    var name := if raw.name.Some? && IsSafeName(raw.name.value) then raw.name.value else "arg" + Numeral(i);
    if ty.Some? then Some(Input(name, ty.value)) else None
  }

  /** An argument keeps a safe name, and gets its position for any other. */
  lemma ArgumentNames(i: nat, name: string)
    ensures ReadInput(RawInput(None, Some("bool")), i) == Some(Input("arg" + Numeral(i), Bool))
    ensures IsSafeName(name) ==> ReadInput(RawInput(Some(name), Some("address")), i) == Some(Input(name, Address))
  {
  }

  ghost predicate InputsRead(raw: seq<RawInput>, inputs: seq<Input>) {
    |inputs| == |raw| && forall i :: 0 <= i < |raw| ==> ReadInput(raw[i], i) == Some(inputs[i])
  }

  /** An entry that names a decodable function: state-changing, plainly named, and every argument of
      a static elementary type. */
  ghost predicate Describes(e: Entry, f: Function, keccak: string -> seq<Byte>) {
    && e.kind == Some("function")
    && (e.mutability == Some("payable") || e.mutability == Some("nonpayable"))
    && f.payable == (e.mutability == Some("payable"))
    && e.name == Some(f.name) && IsSafeName(f.name)
    && e.inputs.Some? && InputsRead(e.inputs.value, f.inputs)
    && f.selector == First4(keccak(Signature(f.name, f.inputs)))
  }

  method ReadEntry(e: Entry, keccak: string -> seq<Byte>) returns (r: Option<Function>)
    ensures r.Some? ==> Describes(e, r.value, keccak) && FunctionOk(r.value) && PlainNames(r.value)
    ensures r.None? ==> forall f :: !Describes(e, f, keccak)
  {
    hide ReadInput, IsPlain, Signature;
    if e.kind != Some("function") || (e.mutability != Some("payable") && e.mutability != Some("nonpayable"))
       || e.name.None? || !IsSafeName(e.name.value) || e.inputs.None? {
      return None;
    }
    var raw := e.inputs.value;
    var inputs: seq<Input> := [];
    for i := 0 to |raw|
      invariant |inputs| == i
      invariant forall k :: 0 <= k < i ==> ReadInput(raw[k], k) == Some(inputs[k])
    {
      var input := ReadInput(raw[i], i);
      if input.None? {
        return None;
      }
      inputs := inputs + [input.value];
    }
    var name := e.name.value;
    return Some(Function(name, inputs, e.mutability == Some("payable"), First4(keccak(Signature(name, inputs)))));
  }

  function Count(functions: seq<Function>, selector: seq<Byte>): nat {
    if functions == [] then 0
    else Count(functions[..|functions| - 1], selector) + if functions[|functions| - 1].selector == selector then 1 else 0
  }

  lemma {:induction false} CountPositive(functions: seq<Function>, i: nat)
    requires i < |functions|
    ensures Count(functions, functions[i].selector) >= 1
  {
    if i < |functions| - 1 {
      CountPositive(functions[..|functions| - 1], i);
    }
  }

  lemma {:induction false} CountTwice(functions: seq<Function>, i: nat, j: nat)
    requires i < j < |functions| && functions[i].selector == functions[j].selector
    ensures Count(functions, functions[i].selector) >= 2
  {
    var front := functions[..|functions| - 1];
    if j < |front| {
      CountTwice(front, i, j);
    } else {
      CountPositive(front, i);
    }
  }

  lemma {:induction false} CountNone(functions: seq<Function>, selector: seq<Byte>)
    requires forall i :: 0 <= i < |functions| ==> functions[i].selector != selector
    ensures Count(functions, selector) == 0
  {
    if functions != [] {
      CountNone(functions[..|functions| - 1], selector);
    }
  }

  lemma {:induction false} CountOnce(functions: seq<Function>, i: nat)
    requires i < |functions| && forall j :: 0 <= j < |functions| && j != i ==> functions[j].selector != functions[i].selector
    ensures Count(functions, functions[i].selector) == 1
  {
    var front := functions[..|functions| - 1];
    if i < |front| {
      CountOnce(front, i);
    } else {
      CountNone(front, functions[i].selector);
    }
  }

  /** Of the first entries, the one that describes a function with a selector no other described
      function has. */
  ghost predicate Alone(entries: seq<Entry>, i: int, f: Function, keccak: string -> seq<Byte>) {
    && 0 <= i < |entries| && i < MAX_FUNCTIONS && Describes(entries[i], f, keccak)
    && forall j, g :: 0 <= j < |entries| && j < MAX_FUNCTIONS && j != i && Describes(entries[j], g, keccak) ==> g.selector != f.selector
  }

  /** Where the functions read so far come from. */
  ghost predicate ComeFrom(entries: seq<Entry>, n: nat, functions: seq<Function>,
      sources: seq<nat>, keccak: string -> seq<Byte>) {
    && |sources| == |functions|
    && (forall k :: 0 <= k < |functions| ==> sources[k] < n <= |entries| && Describes(entries[sources[k]], functions[k], keccak))
    && (forall k, l :: 0 <= k < l < |functions| ==> sources[k] != sources[l])
    && (forall j, g :: 0 <= j < n <= |entries| && Describes(entries[j], g, keccak) ==> exists k :: 0 <= k < |functions| && sources[k] == j && functions[k] == g)
  }

  lemma OneMoreSource(entries: seq<Entry>, n: nat, functions: seq<Function>, sources: seq<nat>,
      f: Function, keccak: string -> seq<Byte>)
    requires ComeFrom(entries, n, functions, sources, keccak) && n < |entries| && Describes(entries[n], f, keccak)
    ensures ComeFrom(entries, n + 1, functions + [f], sources + [n], keccak)
  {
    hide Describes;
    OneDescription(entries[n], f, keccak);
    var fs, ss := functions + [f], sources + [n];
    forall j, g | 0 <= j < n + 1 && Describes(entries[j], g, keccak)
      ensures exists k :: 0 <= k < |fs| && ss[k] == j && fs[k] == g
    {
      if j < n {
        var k :| 0 <= k < |functions| && sources[k] == j && functions[k] == g;
        assert ss[k] == j && fs[k] == g;
      } else {
        assert ss[|functions|] == j && fs[|functions|] == g;
      }
    }
  }

  lemma NoSource(entries: seq<Entry>, n: nat, functions: seq<Function>, sources: seq<nat>, keccak: string -> seq<Byte>)
    requires ComeFrom(entries, n, functions, sources, keccak) && n < |entries|
    requires forall f :: !Describes(entries[n], f, keccak)
    ensures ComeFrom(entries, n + 1, functions, sources, keccak)
  {
  }

  /** Every decodable function among the first entries, and how often each selector occurs. */
  method ReadEntries(entries: seq<Entry>, n: nat, keccak: string -> seq<Byte>)
    returns (functions: seq<Function>, seen: map<seq<Byte>, nat>, ghost sources: seq<nat>)
    requires n <= |entries|
    ensures ComeFrom(entries, n, functions, sources, keccak)
    ensures forall f :: f in functions ==> FunctionOk(f) && PlainNames(f)
    ensures forall s :: (if s in seen then seen[s] else 0) == Count(functions, s)
  {
    hide Describes, ComeFrom, FunctionOk, PlainNames;
    functions, seen, sources := [], map[], [];
    assert ComeFrom(entries, 0, functions, sources, keccak) by {
      NothingYet(entries, keccak);
    }
    for i := 0 to n
      invariant ComeFrom(entries, i, functions, sources, keccak)
      invariant forall f :: f in functions ==> FunctionOk(f) && PlainNames(f)
      invariant forall s :: (if s in seen then seen[s] else 0) == Count(functions, s)
    {
      var read := ReadEntry(entries[i], keccak);
      match read {
        case None => NoSource(entries, i, functions, sources, keccak);
        case Some(f) =>
          assert (functions + [f])[..|functions|] == functions;
          OneMoreSource(entries, i, functions, sources, f, keccak);
          seen := seen[f.selector := (if f.selector in seen then seen[f.selector] else 0) + 1];
          functions := functions + [f];
          sources := sources + [i];
      }
    }
  }

  lemma NothingYet(entries: seq<Entry>, keccak: string -> seq<Byte>)
    ensures ComeFrom(entries, 0, [], [], keccak)
  {
  }

  /** Drops every function that shares its selector. */
  method Retain(functions: seq<Function>, seen: map<seq<Byte>, nat>) returns (kept: seq<Function>)
    requires forall s :: (if s in seen then seen[s] else 0) == Count(functions, s)
    ensures forall f :: f in kept <==> f in functions && Count(functions, f.selector) == 1
    ensures forall k, l :: 0 <= k < l < |kept| ==> kept[k].selector != kept[l].selector
  {
    kept := [];
    for i := 0 to |functions|
      invariant forall f :: f in kept <==> f in functions[..i] && Count(functions, f.selector) == 1
      invariant forall k, l :: 0 <= k < l < |kept| ==> kept[k].selector != kept[l].selector
    {
      assert functions[..i + 1] == functions[..i] + [functions[i]];
      if functions[i].selector in seen && seen[functions[i].selector] == 1 {
        forall f | f in kept ensures f.selector != functions[i].selector {
          var k :| 0 <= k < i && functions[..i][k] == f;
          if f.selector == functions[i].selector {
            CountTwice(functions, k, i);
          }
        }
        kept := kept + [functions[i]];
      }
    }
    assert functions[..|functions|] == functions;
  }

  lemma OnceMeansAlone(entries: seq<Entry>, n: nat, functions: seq<Function>, sources: seq<nat>,
      f: Function, keccak: string -> seq<Byte>)
    requires ComeFrom(entries, n, functions, sources, keccak)
    requires n == if |entries| <= MAX_FUNCTIONS then |entries| else MAX_FUNCTIONS
    requires f in functions && Count(functions, f.selector) == 1
    ensures exists i :: Alone(entries, i, f, keccak)
  {
    hide Describes, Count;
    var k :| 0 <= k < |functions| && functions[k] == f;
    forall j, g | 0 <= j < n && j != sources[k] && Describes(entries[j], g, keccak) ensures g.selector != f.selector {
      var l :| 0 <= l < |functions| && sources[l] == j && functions[l] == g;
      if g.selector == f.selector {
        CountTwice(functions, if k < l then k else l, if k < l then l else k);
      }
    }
    assert Alone(entries, sources[k], f, keccak);
  }

  lemma AloneMeansOnce(entries: seq<Entry>, n: nat, functions: seq<Function>, sources: seq<nat>,
      i: int, f: Function, keccak: string -> seq<Byte>)
    requires ComeFrom(entries, n, functions, sources, keccak)
    requires n == if |entries| <= MAX_FUNCTIONS then |entries| else MAX_FUNCTIONS
    requires Alone(entries, i, f, keccak)
    ensures f in functions && Count(functions, f.selector) == 1
  {
    hide Describes, Count;
    var k :| 0 <= k < |functions| && sources[k] == i && functions[k] == f;
    forall j | 0 <= j < |functions| && j != k ensures functions[j].selector != f.selector {
      assert sources[j] != i && Describes(entries[sources[j]], functions[j], keccak);
    }
    CountOnce(functions, k);
  }

  /** A function occurs once among those read exactly when its entry is alone with its selector. */
  lemma OnceIsAlone(entries: seq<Entry>, n: nat, functions: seq<Function>, sources: seq<nat>,
      f: Function, keccak: string -> seq<Byte>)
    requires ComeFrom(entries, n, functions, sources, keccak)
    requires n == if |entries| <= MAX_FUNCTIONS then |entries| else MAX_FUNCTIONS
    ensures f in functions && Count(functions, f.selector) == 1 <==> exists i :: Alone(entries, i, f, keccak)
  {
    hide ComeFrom, Alone, Count;
    if f in functions && Count(functions, f.selector) == 1 {
      OnceMeansAlone(entries, n, functions, sources, f, keccak);
    }
    if i :| Alone(entries, i, f, keccak) {
      AloneMeansOnce(entries, n, functions, sources, i, f, keccak);
    }
  }

  /** Reads the decodable functions; two functions with one selector are both dropped. */
  method FromAbiJson(name: string, abi: Option<seq<Entry>>, keccak: string -> seq<Byte>)
    returns (r: Result<ContractAbi, ()>)
    ensures r.Ok? <==> IsSafeName(name) && abi.Some?
    ensures r.Ok? ==> r.value.name == name && AbiOk(r.value) && NamesOk(r.value)
    ensures r.Ok? ==> forall f :: f in r.value.functions <==> exists i :: Alone(abi.value, i, f, keccak)
  {
    hide Describes, IsSafeName, ComeFrom, FunctionOk, PlainNames, Alone, Count;
    if !IsSafeName(name) || abi.None? {
      return Err(());
    }
    var entries := abi.value;
    var n := if |entries| <= MAX_FUNCTIONS then |entries| else MAX_FUNCTIONS;
    var functions, seen, sources := ReadEntries(entries, n, keccak);
    var kept := Retain(functions, seen);
    forall f ensures f in kept <==> exists i :: Alone(entries, i, f, keccak) {
      OnceIsAlone(entries, n, functions, sources, f, keccak);
    }
    r := Ok(ContractAbi(name, kept));
  }

  /** An entry describes at most one function. */
  lemma OneDescription(e: Entry, f: Function, keccak: string -> seq<Byte>)
    requires Describes(e, f, keccak)
    ensures forall g :: Describes(e, g, keccak) ==> g == f
  {
    forall g | Describes(e, g, keccak) ensures g == f {
      assert g.inputs == f.inputs by {
        forall i | 0 <= i < |f.inputs| ensures g.inputs[i] == f.inputs[i] {
          assert ReadInput(e.inputs.value[i], i) == Some(f.inputs[i]) == Some(g.inputs[i]);
        }
      }
    }
  }
}
