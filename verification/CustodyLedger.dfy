/** The ledger: what one vault has sealed so far. It exists only in proofs.

    `generations[g]` is the one slot map whose header carries generation `g`; `known` is every
    sealed piece an outsider may hold, at least all that ever reached the disk. The lemmas here carry the argument that
    pieces of older envelopes cannot be put together into one that reads back. */
module CustodyLedger {
  import opened Common
  import opened Sealing

  datatype Ledger = Ledger(
    mek: Key,
    dek: Key,
    passphrase: string,
    salt: nat,
    known: set<Sealed>,
    generations: seq<map<string, Sealed>>,
    failures: nat,
    lockedUntilMs: Option<nat>)

  /** A piece sealed by the vault: which key seals what. */
  ghost predicate ItemOk(l: Ledger, item: Sealed) {
    && item.nonce.Nonce?
    && item.body.Genuine?
    && item.body.aad.version == ENVELOPE_VERSION
    && var context, plain := item.body.aad.context, item.body.plain;
       if item.body.key == l.mek then
         context == LOCKOUT && plain.LockoutJson? && plain.lockout.anchorInitialized != Some(false)
       else if item.body.key == l.dek then
         if context == HEADER then
           && plain.HeaderJson?
           && plain.header.generation < |l.generations|
           && plain.header.slots == Fingerprint(l.generations[plain.header.generation])
         else
           !IsReservedDomainTag(context)
       else
         && item.body.key == Combined(l.mek, l.passphrase, l.salt)
         && context == WRAPPED_DK
         && plain == KeyBytes(l.dek)
  }

  ghost predicate SlotItemOk(l: Ledger, name: string, item: Sealed) {
    && item in l.known
    && item.body.Genuine?
    && item.body.key == l.dek
    && item.body.aad == Aad(ENVELOPE_VERSION, name)
    && !IsReservedDomainTag(name)
    && (name == CHECK_SLOT ==> item.body.plain == CheckText)
  }

  ghost predicate SlotsOk(l: Ledger, slots: map<string, Sealed>) {
    && CHECK_SLOT in slots
    && forall name :: name in slots ==> SlotItemOk(l, name, slots[name])
  }

  /** Nonces below `entropy` have been drawn; no two pieces share one. */
  ghost predicate NoncesOk(known: set<Sealed>, entropy: nat) {
    && (forall item :: item in known ==> item.nonce.id < entropy)
    && (forall a, b :: a in known && b in known && a.nonce == b.nonce ==> a == b)
  }

  ghost predicate LedgerOk(l: Ledger, entropy: nat) {
    && l.mek.Minted? && l.dek.Minted? && l.mek != l.dek
    && (l.generations == [] ==> l.known == {})
    && (forall item :: item in l.known ==> ItemOk(l, item))
    && (forall g :: 0 <= g < |l.generations| ==> SlotsOk(l, l.generations[g]))
    && NoncesOk(l.known, entropy)
  }

  /** Lockout blocks never run ahead of their counter, and at the counter there is one throttle. */
  ghost predicate ThrottleOk(l: Ledger, counter: nat) {
    forall item :: item in l.known && item.body.Genuine? && item.body.key == l.mek && item.body.plain.LockoutJson? ==>
      var lockout := item.body.plain.lockout;
      && lockout.generation <= counter
      && (lockout.generation == counter ==>
            lockout.failures == l.failures && lockout.lockedUntilMs == l.lockedUntilMs)
  }

  /** Every genuine piece of the envelope is one the vault let reach the disk. */
  ghost predicate PiecesKnown(env: Envelope, known: set<Sealed>) {
    && (env.wrappedDk.body.Genuine? ==> env.wrappedDk in known)
    && (env.header.body.Genuine? ==> env.header in known)
    && (env.lockout.body.Genuine? ==> env.lockout in known)
    && (forall name :: name in env.slots && env.slots[name].body.Genuine? ==> env.slots[name] in known)
  }

  ghost predicate DiskKnown(disk: Disk, known: set<Sealed>) {
    disk.Holds? ==> PiecesKnown(disk.envelope, known)
  }

  function PlainOf(item: Sealed): Plain {
    if item.body.Genuine? then item.body.plain else Raw([])
  }

  /** The secrets a slot map holds, by caller-visible name. */
  function Secrets(slots: map<string, Sealed>): map<string, Plain> {
    map name | name in slots && !StartsWithNul(name) :: PlainOf(slots[name])
  }

  function Newest(l: Ledger): map<string, Plain> {
    if l.generations == [] then map[] else Secrets(l.generations[|l.generations| - 1])
  }

  /** A verified header names the slot map of its own generation, nonce for nonce. */
  lemma HeaderNamesItsGeneration(l: Ledger, entropy: nat, env: Envelope)
    requires LedgerOk(l, entropy) && PiecesKnown(env, l.known)
    requires env.version == ENVELOPE_VERSION
    requires OpenAndVerifyHeader(l.dek, env).Ok?
    ensures var g := OpenAndVerifyHeader(l.dek, env).value;
            g < |l.generations| && Fingerprint(env.slots) == Fingerprint(l.generations[g])
  {
  }

  /** One header per generation and one piece per nonce: a slot that unseals in an envelope whose
      header verifies is the very piece the ledger holds for that generation. */
  lemma SlotIsTheLedgers(l: Ledger, entropy: nat, env: Envelope, name: string)
    requires LedgerOk(l, entropy) && PiecesKnown(env, l.known)
    requires env.version == ENVELOPE_VERSION
    requires OpenAndVerifyHeader(l.dek, env).Ok?
    ensures OpenAndVerifyHeader(l.dek, env).value < |l.generations|
    ensures var slots := l.generations[OpenAndVerifyHeader(l.dek, env).value];
            && (name in env.slots <==> name in slots)
            && (name in slots && env.slots[name].body.Genuine? ==> env.slots[name] == slots[name])
  {
    HeaderNamesItsGeneration(l, entropy, env);
    var g := OpenAndVerifyHeader(l.dek, env).value;
    var slots := l.generations[g];
    assert env.slots.Keys == Fingerprint(env.slots).Keys == Fingerprint(slots).Keys == slots.Keys;
    if name in slots && env.slots[name].body.Genuine? {
      assert SlotItemOk(l, name, slots[name]);
      assert Fingerprint(env.slots)[name] == Fingerprint(slots)[name];
    }
  }

  /** Whatever known pieces an envelope is made of: if its header verifies at the newest
      generation, a slot in it either fails to unseal or yields the newest secret of that name. */
  lemma VerifiedReadIsNewest(l: Ledger, entropy: nat, env: Envelope, name: string)
    requires LedgerOk(l, entropy) && PiecesKnown(env, l.known)
    requires env.version == ENVELOPE_VERSION && !StartsWithNul(name)
    requires OpenAndVerifyHeader(l.dek, env) == Ok(|l.generations| - 1)
    ensures name in env.slots <==> name in Newest(l)
    ensures name in env.slots ==>
              var read := Unseal(l.dek, env.slots[name], Aad(env.version, name));
              && (read.Ok? ==> read.value == Newest(l)[name])
              && (env.slots == l.generations[|l.generations| - 1] ==> read.Ok?)
  {
    hide NoncesOk, OpenAndVerifyHeader, ThrottleOk;
    SlotIsTheLedgers(l, entropy, env, name);
    var slots := l.generations[|l.generations| - 1];
    if name in slots {
      assert SlotItemOk(l, name, slots[name]);
      assert ItemOk(l, slots[name]);
    }
  }

  /** A data key that unwraps is the vault's own, and only the right passphrase unwraps it. */
  lemma UnwrappedKeyIsTheLedgers(l: Ledger, entropy: nat, env: Envelope, passphrase: string)
    requires LedgerOk(l, entropy) && PiecesKnown(env, l.known)
    requires Unseal(Combined(l.mek, passphrase, env.salt), env.wrappedDk, Aad(env.version, WRAPPED_DK)).Ok?
    ensures Unseal(Combined(l.mek, passphrase, env.salt), env.wrappedDk, Aad(env.version, WRAPPED_DK)).value == KeyBytes(l.dek)
    ensures passphrase == l.passphrase && l.generations != []
  {
  }

  lemma CheckSlotOpens(l: Ledger, entropy: nat)
    requires LedgerOk(l, entropy) && l.generations != []
    ensures var slots := l.generations[|l.generations| - 1];
            CHECK_SLOT in slots &&
            Unseal(l.dek, slots[CHECK_SLOT], Aad(ENVELOPE_VERSION, CHECK_SLOT)) == Ok(CheckText)
  {
  }

  /** A lockout block that opens is one the vault sealed under its own master key. */
  lemma LockoutIsKnown(l: Ledger, entropy: nat, counter: nat, mek: Key, env: Envelope)
    requires LedgerOk(l, entropy) && PiecesKnown(env, l.known)
    requires OpenLockout(mek, env).Ok?
    ensures l.generations != [] && mek == l.mek
    ensures OpenLockout(mek, env).value.anchorInitialized != Some(false)
    ensures ThrottleOk(l, counter) ==>
              var lockout := OpenLockout(mek, env).value;
              && lockout.generation <= counter
              && (lockout.generation == counter ==>
                    lockout.failures == l.failures && lockout.lockedUntilMs == l.lockedUntilMs)
  {
  }

  function AddPieces(l: Ledger, added: set<Sealed>): Ledger {
    l.(known := l.known + added)
  }

  function AddGeneration(l: Ledger, slots: map<string, Sealed>, added: set<Sealed>): Ledger {
    l.(known := l.known + added, generations := l.generations + [slots])
  }

  lemma MorePieces(l: Ledger, slots: map<string, Sealed>, added: set<Sealed>)
    requires SlotsOk(l, slots)
    ensures SlotsOk(AddPieces(l, added), slots)
  {
  }

  lemma AddPiecesOk(l: Ledger, entropy: nat, entropy': nat, added: set<Sealed>)
    requires LedgerOk(l, entropy) && l.generations != []
    requires NoncesOk(l.known + added, entropy')
    requires forall item :: item in added ==> ItemOk(l, item)
    ensures LedgerOk(AddPieces(l, added), entropy')
  {
    var l' := AddPieces(l, added);
    forall g | 0 <= g < |l'.generations| ensures SlotsOk(l', l'.generations[g]) {
      MorePieces(l, l.generations[g], added);
    }
    forall item | item in l'.known ensures ItemOk(l', item) {
      assert ItemOk(l, item);
    }
  }

  /** A new lockout block may join the pieces. */
  lemma AddLockoutOk(l: Ledger, entropy: nat, item: Sealed, counter: nat)
    requires LedgerOk(l, entropy) && l.generations != []
    requires item.nonce == Nonce(entropy) && item.body.Genuine? && item.body.plain.LockoutJson?
    requires item.body.key == l.mek && item.body.aad == Aad(ENVELOPE_VERSION, LOCKOUT)
    requires item.body.plain.lockout.anchorInitialized == Some(true)
    ensures LedgerOk(AddPieces(l, {item}), entropy + 1)
    ensures ThrottleOk(l, counter)
         && item.body.plain.lockout.generation <= counter
         && (item.body.plain.lockout.generation == counter ==>
               item.body.plain.lockout.failures == l.failures && item.body.plain.lockout.lockedUntilMs == l.lockedUntilMs)
         ==> ThrottleOk(AddPieces(l, {item}), counter)
  {
    AddPiecesOk(l, entropy, entropy + 1, {item});
  }

  /** The first generation of a new vault: four pieces under four new nonces. */
  lemma FirstGenerationOk(l: Ledger, wrappedDk: Sealed, check: Sealed, header: Sealed, lockout: Sealed,
                          entropy: nat, counter: nat)
    requires l.mek.Minted? && l.dek.Minted? && l.mek != l.dek
    requires l.failures == 0 && l.lockedUntilMs == None
    requires l.known == {wrappedDk, check, header, lockout} && l.generations == [map[CHECK_SLOT := check]]
    requires wrappedDk.nonce == Nonce(entropy) && check.nonce == Nonce(entropy + 1)
    requires header.nonce == Nonce(entropy + 2) && lockout.nonce == Nonce(entropy + 3)
    requires wrappedDk.body == Genuine(Combined(l.mek, l.passphrase, l.salt), Aad(ENVELOPE_VERSION, WRAPPED_DK), KeyBytes(l.dek))
    requires check.body == Genuine(l.dek, Aad(ENVELOPE_VERSION, CHECK_SLOT), CheckText)
    requires header.body == Genuine(l.dek, Aad(ENVELOPE_VERSION, HEADER), HeaderJson(Header(0, Fingerprint(l.generations[0]))))
    requires lockout.body.Genuine? && lockout.body.plain.LockoutJson?
    requires lockout.body == Genuine(l.mek, Aad(ENVELOPE_VERSION, LOCKOUT),
                                     LockoutJson(NO_FAILURES.(anchorInitialized := lockout.body.plain.lockout.anchorInitialized)))
    requires lockout.body.plain.lockout.anchorInitialized != Some(false)
    ensures LedgerOk(l, entropy + 4) && ThrottleOk(l, counter) && Newest(l) == map[]
  {
    assert ItemOk(l, wrappedDk);
    assert ItemOk(l, check);
    assert ItemOk(l, header);
    assert ItemOk(l, lockout);
    assert forall item :: item in l.known ==> item in {wrappedDk, check, header, lockout};
    assert NoncesOk(l.known, entropy + 4);
  }

  lemma LaterEntropyOk(l: Ledger, entropy: nat, entropy': nat)
    requires LedgerOk(l, entropy) && entropy <= entropy'
    ensures LedgerOk(l, entropy')
  {
  }

  /** A newly sealed slot may join the pieces; until a header names its nonce it reads nowhere. */
  lemma AddSlotPieceOk(l: Ledger, entropy: nat, item: Sealed, counter: nat)
    requires LedgerOk(l, entropy) && l.generations != []
    requires item.nonce == Nonce(entropy) && item.body.Genuine?
    requires item.body.key == l.dek && item.body.aad.version == ENVELOPE_VERSION
    requires !IsReservedDomainTag(item.body.aad.context)
    ensures LedgerOk(AddPieces(l, {item}), entropy + 1)
    ensures ThrottleOk(l, counter) ==> ThrottleOk(AddPieces(l, {item}), counter)
  {
    AddPiecesOk(l, entropy, entropy + 1, {item});
  }

  /** The next generation: one header, sealed for exactly these slots. */
  lemma NextGenerationOk(l: Ledger, entropy: nat, counter: nat, slots: map<string, Sealed>, header: Sealed)
    requires LedgerOk(l, entropy)
    requires SlotsOk(l, slots)
    requires header.nonce == Nonce(entropy)
    requires header.body == Genuine(l.dek, Aad(ENVELOPE_VERSION, HEADER),
                                    HeaderJson(Header(|l.generations|, Fingerprint(slots))))
    ensures LedgerOk(AddGeneration(l, slots, {header}), entropy + 1)
    ensures ThrottleOk(l, counter) ==> ThrottleOk(AddGeneration(l, slots, {header}), counter)
  {
  }

  lemma PiecesStayKnown(env: Envelope, known: set<Sealed>, more: set<Sealed>)
    requires PiecesKnown(env, known)
    ensures PiecesKnown(env, known + more)
  {
  }

  /** Replacing or removing one slot of the newest generation. */
  lemma SlotChanged(l: Ledger, entropy: nat, name: string, item: Sealed)
    requires LedgerOk(l, entropy) && l.generations != []
    requires SlotItemOk(l, name, item) && !StartsWithNul(name)
    ensures var slots := l.generations[|l.generations| - 1];
            && SlotsOk(l, slots[name := item])
            && Secrets(slots[name := item]) == Secrets(slots)[name := item.body.plain]
  {
  }

  lemma SlotRemoved(l: Ledger, entropy: nat, name: string)
    requires LedgerOk(l, entropy) && l.generations != [] && !StartsWithNul(name)
    ensures var slots := l.generations[|l.generations| - 1];
            && SlotsOk(l, slots - {name})
            && Secrets(slots - {name}) == Secrets(slots) - {name}
  {
  }

  lemma AbsentFromNewest(l: Ledger, name: string)
    ensures l.generations != [] && name !in l.generations[|l.generations| - 1] ==> name !in Newest(l)
  {
  }

  lemma SlotInserted(env: Envelope, slots: map<string, Sealed>, known: set<Sealed>, name: string, item: Sealed)
    requires PiecesKnown(env, known) && item in known
    requires Fingerprint(env.slots) == Fingerprint(slots)
    ensures PiecesKnown(env.(slots := env.slots[name := item]), known)
    ensures Fingerprint(env.slots[name := item]) == Fingerprint(slots[name := item])
  {
    assert Fingerprint(env.slots[name := item]) == Fingerprint(env.slots)[name := item.nonce];
    assert Fingerprint(slots[name := item]) == Fingerprint(slots)[name := item.nonce];
  }

  lemma SlotDropped(env: Envelope, slots: map<string, Sealed>, known: set<Sealed>, name: string)
    requires PiecesKnown(env, known)
    requires Fingerprint(env.slots) == Fingerprint(slots)
    ensures PiecesKnown(env.(slots := env.slots - {name}), known)
    ensures Fingerprint(env.slots - {name}) == Fingerprint(slots - {name})
  {
    assert Fingerprint(env.slots - {name}) == Fingerprint(env.slots) - {name};
    assert Fingerprint(slots - {name}) == Fingerprint(slots) - {name};
  }

  function SetThrottle(l: Ledger, failures: nat, lockedUntilMs: Option<nat>): Ledger {
    l.(failures := failures, lockedUntilMs := lockedUntilMs)
  }

  /** Advancing the counter outdates every older block, so the throttle may change with it. */
  lemma SetThrottleOk(l: Ledger, entropy: nat, counter: nat, failures: nat, lockedUntilMs: Option<nat>)
    requires LedgerOk(l, entropy)
    ensures LedgerOk(SetThrottle(l, failures, lockedUntilMs), entropy)
    ensures ThrottleOk(l, counter) ==> ThrottleOk(SetThrottle(l, failures, lockedUntilMs), counter + 1)
  {
  }
}
