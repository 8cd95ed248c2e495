/** The book of registered contracts: stamped entries with the oldest stamp evicted, against the
    plain reading "the most recently registered addresses". */
module AbiBook {
  import opened Common
  import opened Numerals
  import opened AbiCall

  const MAX_CONTRACTS: nat := 256

  type AccountAddress = seq<Byte>

  datatype Registration = Registration(address: AccountAddress, abi: ContractAbi)

  function Addresses(history: seq<Registration>): set<AccountAddress> {
    set i | 0 <= i < |history| :: history[i].address
  }

  /** The position of the last registration of an address. */
  function Last(history: seq<Registration>, a: AccountAddress): (i: nat)
    requires a in Addresses(history)
    ensures i < |history| && history[i].address == a
    ensures forall j :: i < j < |history| ==> history[j].address != a
  {
    if history[|history| - 1].address == a then |history| - 1 else Last(history[..|history| - 1], a)
  }

  /** The addresses registered after the last registration of `a`. */
  function Newer(history: seq<Registration>, a: AccountAddress): set<AccountAddress>
    requires a in Addresses(history)
  {
    set b | b in Addresses(history) && Last(history, b) > Last(history, a)
  }

  /** `a` is one of the most recently registered distinct addresses. */
  ghost predicate Recent(history: seq<Registration>, a: AccountAddress) {
    a in Addresses(history) && |Newer(history, a)| < 256
  }

  datatype Stamped = Stamped(seqNo: nat, abi: ContractAbi)

  type Entries = map<AccountAddress, Stamped>

  /** Each entry carries the stamp and the ABI of its last registration. */
  ghost predicate StampsOk(history: seq<Registration>, entries: Entries) {
    forall a :: a in entries ==>
      a in Addresses(history) && entries[a] == Stamped(Last(history, a) + 1, history[Last(history, a)].abi)
  }

  /** The book is what "keep the most recent ones" says. */
  ghost predicate Holds(history: seq<Registration>, entries: Entries) {
    StampsOk(history, entries) && forall a :: a in entries <==> Recent(history, a)
  }

  lemma LastAfter(history: seq<Registration>, r: Registration)
    ensures Addresses(history + [r]) == Addresses(history) + {r.address}
    ensures Last(history + [r], r.address) == |history|
    ensures forall a :: a in Addresses(history) && a != r.address ==> Last(history + [r], a) == Last(history, a)
  {
    var all := history + [r];
    assert all[|history|] == r;
    forall a | a in Addresses(history) ensures a in Addresses(all) {
      var i :| 0 <= i < |history| && history[i].address == a;
      assert all[i].address == a;
    }
    assert all[..|all| - 1] == history;
  }

  /** A registration is newer than every other address, and nothing is newer than it. */
  lemma NewerAfter(history: seq<Registration>, r: Registration, a: AccountAddress)
    requires a in Addresses(history + [r])
    ensures a in Addresses(history) || a == r.address
    ensures Newer(history + [r], a) == if a == r.address then {} else Newer(history, a) + {r.address}
  {
    hide Last, Addresses;
    LastAfter(history, r);
  }

  /** Before eviction the entries hold everything recent, and what is newer than an entry is an
      entry. */
  ghost predicate Covers(history: seq<Registration>, entries: Entries) {
    && StampsOk(history, entries)
    && (forall a :: Recent(history, a) ==> a in entries)
    && (forall a :: a in entries ==> Newer(history, a) <= entries.Keys)
  }

  lemma InsertedStamps(history: seq<Registration>, entries: Entries, r: Registration)
    requires StampsOk(history, entries)
    ensures StampsOk(history + [r], entries[r.address := Stamped(|history| + 1, r.abi)])
  {
    hide Last, Addresses;
    LastAfter(history, r);
  }

  /** What is newer than something recent is recent. */
  lemma NewerIsRecent(history: seq<Registration>, a: AccountAddress, b: AccountAddress)
    requires Recent(history, a) && b in Newer(history, a)
    ensures Recent(history, b)
  {
    hide Last, Addresses;
    SubsetSize(Newer(history, b), Newer(history, a));
  }

  lemma Inserted(history: seq<Registration>, entries: Entries, r: Registration)
    requires Holds(history, entries)
    ensures Covers(history + [r], entries[r.address := Stamped(|history| + 1, r.abi)])
  {
    hide Last, Addresses, Newer, StampsOk;
    var all, after := history + [r], entries[r.address := Stamped(|history| + 1, r.abi)];
    InsertedStamps(history, entries, r);
    LastAfter(history, r);
    forall a | Recent(all, a) ensures a in after {
      NewerAfter(history, r, a);
      if a != r.address {
        SubsetSize(Newer(history, a), Newer(all, a));
      }
    }
    forall a | a in after ensures Newer(all, a) <= after.Keys {
      NewerAfter(history, r, a);
      if a != r.address {
        forall b | b in Newer(history, a) ensures b in after {
          NewerIsRecent(history, a, b);
        }
      }
    }
  }

  /** The entry with the smallest stamp has all others newer. */
  lemma OldestGoes(history: seq<Registration>, entries: Entries, oldest: AccountAddress)
    requires Covers(history, entries) && |entries| > MAX_CONTRACTS
    requires oldest in entries && forall a :: a in entries ==> entries[oldest].seqNo <= entries[a].seqNo
    ensures Covers(history, entries - {oldest}) && |entries - {oldest}| == |entries| - 1
  {
    hide Last, Addresses;
    var after := entries - {oldest};
    assert Newer(history, oldest) == after.Keys by {
      forall a | a in after ensures a in Newer(history, oldest) {
        assert Last(history, a) != Last(history, oldest);
      }
    }
    assert after.Keys == entries.Keys - {oldest};
    assert !Recent(history, oldest);
    forall a | a in after ensures oldest !in Newer(history, a) {
    }
  }

  lemma FewEnough(history: seq<Registration>, entries: Entries)
    requires Covers(history, entries) && |entries| <= MAX_CONTRACTS
    ensures Holds(history, entries)
  {
    forall a | a in entries ensures Recent(history, a) {
      SubsetSize(Newer(history, a), entries.Keys - {a});
    }
  }

  predicate IsOldest(entries: Entries, among: set<AccountAddress>, a: AccountAddress) {
    a in among && a in entries && forall b :: b in among && b in entries ==> entries[a].seqNo <= entries[b].seqNo
  }

  lemma {:induction false} HasOldest(entries: Entries, among: set<AccountAddress>) returns (a: AccountAddress)
    requires among != {} && among <= entries.Keys
    ensures IsOldest(entries, among, a)
    decreases |among|
  {
    a :| a in among;
    if among != {a} {
      var rest := among - {a};
      var b := HasOldest(entries, rest);
      if entries[b].seqNo < entries[a].seqNo {
        a := b;
      }
      forall c | c in among ensures entries[a].seqNo <= entries[c].seqNo {
        assert c in rest || c in among - rest;
      }
    }
  }

  method Oldest(entries: Entries) returns (a: AccountAddress)
    requires entries != map[]
    ensures a in entries && forall b :: b in entries ==> entries[a].seqNo <= entries[b].seqNo
  {
    ghost var oldest := HasOldest(entries, entries.Keys);
    assert IsOldest(entries, entries.Keys, oldest);
    a :| a in entries.Keys && IsOldest(entries, entries.Keys, a);
    assert forall b :: b in entries ==> b in entries.Keys;
    assert IsOldest(entries, entries.Keys, a);
  }

  class Book {
    var seqNo: nat
    var byAddress: Entries
    ghost var history: seq<Registration>

    /** The book is exactly the most recent distinct addresses, each with its latest ABI. */
    ghost predicate Inv()
      reads this
    {
      seqNo == |history| && Holds(history, byAddress)
    }

    constructor ()
      ensures Inv() && history == []
    {
      seqNo, byAddress, history := 0, map[], [];
    }

    /** Registers or replaces an address, and evicts the oldest registrations past the limit. */
    method Register(address: AccountAddress, abi: ContractAbi)
      requires Inv()
      modifies this
      ensures Inv() && history == old(history) + [Registration(address, abi)]
    {
      hide Covers, StampsOk, Recent;
      Inserted(history, byAddress, Registration(address, abi));
      seqNo := seqNo + 1;
      byAddress := byAddress[address := Stamped(seqNo, abi)];
      history := history + [Registration(address, abi)];
      while |byAddress| > MAX_CONTRACTS
        invariant Covers(history, byAddress) && history == old(history) + [Registration(address, abi)] && seqNo == |history|
        decreases |byAddress|
      {
        var oldest := Oldest(byAddress);
        OldestGoes(history, byAddress, oldest);
        byAddress := byAddress - {oldest};
      }
      FewEnough(history, byAddress);
    }

    method Get(address: AccountAddress) returns (abi: Option<ContractAbi>)
      requires Inv()
      ensures abi.Some? <==> Recent(history, address)
      ensures abi.Some? ==> abi.value == history[Last(history, address)].abi
    {
      abi := if address in byAddress then Some(byAddress[address].abi) else None;
    }
  }

  /** A book after any sequence of registrations. */
  method RegisterAll(registrations: seq<Registration>) returns (book: Book)
    ensures fresh(book) && book.Inv() && book.history == registrations
  {
    book := new Book();
    for i := 0 to |registrations|
      invariant fresh(book) && book.Inv() && book.history == registrations[..i]
    {
      book.Register(registrations[i].address, registrations[i].abi);
      assert registrations[..i + 1] == registrations[..i] + [registrations[i]];
    }
    assert registrations[..|registrations|] == registrations;
  }
}
