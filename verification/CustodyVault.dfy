/** The custody vault: an envelope on disk, counters and the master key in the keyring, and a
    session in memory. Every call to the keyring or the disk may fail or be where the process
    stops; between operations the disk may be replaced by anything made of known pieces. */
module CustodyVault {
  import opened Common
  import opened Sealing
  import opened CustodyLedger

  const MAX_ATTEMPTS: nat := 5
  const LOCKOUT_COOLOFF_MS: nat := 5 * 60 * 1000
  const MAX_GENERATION: nat := 0xFFFF_FFFF_FFFF_FFFF

  /** The two monotone counters kept in the keyring. */
  datatype Account = Generation | LockoutGeneration

  datatype Session = Session(dataKey: Key, unlockedAt: nat)

  /** What an unlock has opened before it tries a passphrase. */
  datatype Opened = Opened(mek: Key, env: Envelope, lockout: LockoutState)

  datatype Throttle = Throttle(failures: nat, lockedUntilMs: Option<nat>)

  /** Whether a passphrase trial may start at `now`. */
  predicate Admits(t: Throttle, now: nat) {
    t.lockedUntilMs.None? || t.lockedUntilMs.value <= now
  }

  /** The throttle after a failed trial that started at `started` and ended at `ended`. */
  function AfterFailure(t: Throttle, ended: nat): Throttle {
    var failures := (if t.lockedUntilMs.Some? then 0 else t.failures) + 1;
    Throttle(failures, if failures >= MAX_ATTEMPTS then Some(ended + LOCKOUT_COOLOFF_MS) else None)
  }

  /** What the next input/output call does, and what comes after it. */
  function Head(faults: seq<Outcome>): Outcome {
    if faults == [] then Done else faults[0]
  }

  function Rest(faults: seq<Outcome>): seq<Outcome> {
    if faults == [] then [] else faults[1..]
  }

  /** The process stops at the fifth call: in an unlock, right after the trial of a wrong passphrase. */
  const STOP_AFTER_TRIAL: seq<Outcome> := [Done, Done, Done, Done, Stop]

  function Anchor(anchors: map<Account, nat>, account: Account): Option<nat> {
    if account in anchors then Some(anchors[account]) else None
  }

  function Raised(anchors: map<Account, nat>, account: Account, to: nat): map<Account, nat> {
    if to > Anchor(anchors, account).GetOr(0) then anchors[account := to] else anchors
  }

  /** Apart from its lockout block, the envelope is the newest one and the counter agrees. */
  ghost predicate InStep(l: Ledger, anchors: map<Account, nat>, env: Envelope) {
    && l.generations != []
    && Anchor(anchors, Generation) == Some(|l.generations| - 1)
    && env.version == ENVELOPE_VERSION
    && env.salt == l.salt
    && Unseal(Combined(l.mek, l.passphrase, l.salt), env.wrappedDk, Aad(ENVELOPE_VERSION, WRAPPED_DK)) == Ok(KeyBytes(l.dek))
    && env.slots == l.generations[|l.generations| - 1]
    && OpenAndVerifyHeader(l.dek, env) == Ok(|l.generations| - 1)
  }

  ghost predicate LockoutInStep(l: Ledger, anchors: map<Account, nat>, env: Envelope) {
    OpenLockout(l.mek, env)
    == Ok(LockoutState(l.failures, l.lockedUntilMs, Anchor(anchors, LockoutGeneration).GetOr(0), Some(true)))
  }

  /** No counter above zero was left behind by a wiped vault. */
  predicate NoLeftovers(anchors: map<Account, nat>) {
    Anchor(anchors, Generation).GetOr(0) == 0 && Anchor(anchors, LockoutGeneration).GetOr(0) == 0
  }

  /** The disk holds this envelope, perhaps with another lockout block. */
  predicate HoldsUpToLockout(disk: Disk, env: Envelope) {
    disk.Holds? && disk.envelope == env.(lockout := disk.envelope.lockout)
  }

  /** The header verifies and is not behind the generation counter. */
  ghost predicate UpToDate(l: Ledger, anchors: map<Account, nat>, env: Envelope) {
    && Generation in anchors && OpenAndVerifyHeader(l.dek, env).Ok?
    && anchors[Generation] <= OpenAndVerifyHeader(l.dek, env).value
  }

  ghost predicate SlotOpens(l: Ledger, env: Envelope, slot: string) {
    slot in env.slots && Unseal(l.dek, env.slots[slot], Aad(env.version, slot)).Ok?
  }

  /** The passphrase unwraps the data key, and that opens the check slot. */
  ghost predicate OpensWith(l: Ledger, env: Envelope, passphrase: string) {
    && Unseal(Combined(l.mek, passphrase, env.salt), env.wrappedDk, Aad(env.version, WRAPPED_DK)).Ok?
    && CHECK_SLOT in env.slots
    && Unseal(l.dek, env.slots[CHECK_SLOT], Aad(env.version, CHECK_SLOT)) == Ok(CheckText)
  }

  class Vault {
    // the keyring
    var master: Option<Key>
    var anchors: map<Account, nat>
    // the disk: the file and the temporary file beside it
    var disk: Disk
    var spare: Disk
    // the process
    var session: Option<Session>
    var autolockMs: nat
    var kdfInvocations: nat
    // the surroundings: the next unused random value, and what the next input/output calls do
    var entropy: nat
    var faults: seq<Outcome>

    ghost var ledger: Ledger
    ghost var trials: nat // passphrase trials against an envelope

    ghost function Counter(): nat
      reads `anchors
    {
      Anchor(anchors, LockoutGeneration).GetOr(0)
    }

    ghost function CurrentThrottle(): Throttle
      reads `ledger
    {
      Throttle(ledger.failures, ledger.lockedUntilMs)
    }

    /** The secrets of the newest generation. */
    ghost function Contents(): map<string, Plain>
      reads `ledger
    {
      Newest(ledger)
    }

    ghost predicate Inv()
      reads this
    {
      && LedgerOk(ledger, entropy)
      && DiskKnown(disk, ledger.known)
      && (ledger.generations != [] ==> master == Some(ledger.mek))
      && (Generation in anchors ==> |ledger.generations| <= anchors[Generation] + 1)
      && (session.Some? ==> ledger.generations != [] && session.value.dataKey == ledger.dek)
    }

    /** The lockout counter never fell behind: no block the vault sealed runs ahead of it. */
    ghost predicate Intact()
      reads `ledger, `anchors
    {
      ThrottleOk(ledger, Counter())
    }

    /** The lockout block of the file. */
    ghost function Block(): Result<LockoutState, Error>
      reads `disk, `ledger
    {
      if disk.Holds? && disk.envelope.version == ENVELOPE_VERSION then OpenLockout(ledger.mek, disk.envelope)
      else Err(Corrupt)
    }

    /** The file would get as far as the cooloff check of an unlock. */
    ghost predicate Accepted()
      reads `disk, `ledger, `anchors
    {
      Block().Ok? && Counter() <= Block().value.generation && Generation in anchors
    }

    /** The throttle the file shows. */
    ghost function Presented(): Throttle
      requires Block().Ok?
      reads `disk, `ledger
    {
      Throttle(Block().value.failures, Block().value.lockedUntilMs)
    }

    /** A lockout block that opens belongs to a vault with a master key; with the counter intact,
        an accepted one shows the throttle of the last write. */
    lemma BlockNamesItsKey()
      requires Inv()
      ensures Block().Ok? ==> ledger.generations != [] && master == Some(ledger.mek)
      ensures Accepted() && Intact() ==> Presented() == CurrentThrottle() && Block().value.generation == Counter()
      ensures Accepted() && Intact() && Sound() && Marked() ==> Healthy()
      ensures Healthy() ==> Accepted() && Marked() && Presented() == CurrentThrottle()
    {
      hide LedgerOk, ThrottleOk, ItemOk, SlotsOk, NoncesOk, PiecesKnown;
      if Block().Ok? {
        LockoutIsKnown(ledger, entropy, Counter(), ledger.mek, disk.envelope);
      }
    }

    /** The file's lockout block says that the generation counter was once written. */
    ghost predicate Marked()
      reads `disk, `ledger
    {
      Block().Ok? && Block().value.anchorInitialized == Some(true)
    }

    /** The disk holds the newest envelope, whatever its lockout block. */
    ghost predicate Sound()
      reads `disk, `ledger, `anchors
    {
      disk.Holds? && InStep(ledger, anchors, disk.envelope)
    }

    /** No tampering, no interrupted write: the disk holds the newest envelope. */
    ghost predicate Healthy()
      reads `disk, `ledger, `anchors
    {
      Sound() && LockoutInStep(ledger, anchors, disk.envelope)
    }

    /** Nothing can be read from this disk, and no passphrase unlocks it. */
    ghost predicate Unreadable()
      reads `disk, `ledger, `anchors
    {
      disk.Holds? && OpenAndVerifyHeader(ledger.dek, disk.envelope).Ok? ==>
        Generation !in anchors || OpenAndVerifyHeader(ledger.dek, disk.envelope).value < anchors[Generation]
    }

    /** No passphrase unlocks this disk: its lockout block is behind the lockout counter. */
    ghost predicate Barred()
      reads `disk, `ledger, `anchors
    {
      Block().Ok? ==> Block().value.generation < Counter()
    }

    /** Every later unlock and read fails as long as the disk is left alone. */
    ghost predicate Dead()
      reads this
    {
      Unreadable() || (session.None? && Barred())
    }

    /** Only faults were consumed, and the session lost if the process stopped. */
    twostate predicate Quiet()
      reads this
    {
      && (session == old(session) || session.None?)
      && (old(faults) == [] ==> faults == [] && session == old(session))
      && Mishaps(faults) <= Mishaps(old(faults))
    }

    /** A generation was added, and the file holds it or a newer one. */
    twostate predicate Committed()
      reads this
    {
      |ledger.generations| == |old(ledger).generations| + 1 && !Unreadable()
    }

    twostate predicate OnlyMorePieces()
      reads this
    {
      ledger == old(ledger).(known := ledger.known) && old(ledger).known <= ledger.known
    }

    /** The lockout block is the one from before, or that block marked; its counter stays. */
    twostate predicate BlockKept()
      reads this
    {
      && Counter() == old(Counter())
      && (Block() == old(Block())
          || (old(Block()).Ok? && Block() == Ok(old(Block()).value.(anchorInitialized := Some(true)))))
    }

    /** The same keys, passphrase and throttle; pieces and generations may have been added. */
    twostate predicate SameVault()
      reads this
    {
      && ledger == old(ledger).(known := ledger.known, generations := ledger.generations)
      && old(ledger).known <= ledger.known
      && |ledger.generations| <= |old(ledger).generations| + 1
    }

    /** A first start: nothing in the keyring, nothing on disk. `anchors` may hold counters left
        behind by a vault that was wiped earlier. */
    constructor (anchors: map<Account, nat>, autolockMs: nat, faults: seq<Outcome>)
      ensures Inv() && Contents() == map[] && session.None? && master.None? && disk.Absent?
      ensures this.anchors == anchors && this.faults == faults && Intact()
    {
      this.master := None;
      this.anchors := anchors;
      this.disk := Absent;
      this.spare := Absent;
      this.session := None;
      this.autolockMs := autolockMs;
      this.kdfInvocations := 0;
      this.entropy := 0;
      this.faults := faults;
      this.ledger := Ledger(Minted(0), Minted(1), "", 0, {}, [], 0, None);
      this.trials := 0;
    }

    /** A vault as an earlier release left it: its lockout block does not say whether the generation
        counter was ever written. */
    constructor EarlierRelease(passphrase: string, autolockMs: nat)
      ensures Inv() && Intact() && session.None? && faults == [] && anchors == map[Generation := 0]
      ensures Sound() && Block() == Ok(NO_FAILURES)
      ensures ledger.passphrase == passphrase && this.autolockMs == autolockMs
    {
      var mek, dek, salt := Minted(0), Minted(1), 2;
      var wrappedDk := Sealed(Nonce(3), Genuine(Combined(mek, passphrase, salt), Aad(ENVELOPE_VERSION, WRAPPED_DK), KeyBytes(dek)));
      var check := Sealed(Nonce(4), Genuine(dek, Aad(ENVELOPE_VERSION, CHECK_SLOT), CheckText));
      var slots := map[CHECK_SLOT := check];
      var header := Sealed(Nonce(5), Genuine(dek, Aad(ENVELOPE_VERSION, HEADER), HeaderJson(Header(0, Fingerprint(slots)))));
      var lockout := Sealed(Nonce(6), Genuine(mek, Aad(ENVELOPE_VERSION, LOCKOUT), LockoutJson(NO_FAILURES)));
      this.master := Some(mek);
      this.anchors := map[Generation := 0];
      this.disk := Holds(Envelope(ENVELOPE_VERSION, salt, wrappedDk, header, lockout, slots));
      this.spare := Absent;
      this.session := None;
      this.autolockMs := autolockMs;
      this.kdfInvocations := 0;
      this.entropy := 7;
      this.faults := [];
      this.ledger := Ledger(mek, dek, passphrase, salt, {wrappedDk, check, header, lockout}, [slots], 0, None);
      this.trials := 0;
      new;
      FirstGenerationOk(ledger, wrappedDk, check, header, lockout, 3, Counter());
    }

    // --- the outside world ------------------------------------------------

    method Step() returns (o: Outcome)
      modifies `faults, `session
      ensures Quiet()
      ensures o == Head(old(faults)) && faults == Rest(old(faults))
      ensures Mishaps(old(faults)) == Mishaps(faults) + if o.Done? then 0 else 1
      ensures if o == Stop then session.None? else session == old(session)
    {
      if faults == [] {
        return Done;
      }
      o := faults[0];
      faults := faults[1..];
      if o.Stop? {
        session := None;
      }
    }

    method ReadAnchor(account: Account) returns (r: Result<Option<nat>, Error>)
      modifies `faults, `session
      ensures Quiet()
      ensures r.Err? ==> Mishaps(faults) < Mishaps(old(faults))
      ensures r.Ok? ==> r.value == Anchor(anchors, account) && session == old(session)
      ensures faults == Rest(old(faults)) && (r.Ok? <==> Head(old(faults)) == Done)
      ensures r.Err? ==> r.error in {KeyringUnavailable, Stopped} && old(faults) != []
      ensures r == Err(Stopped) ==> session.None?
    {
      var o := Step();
      match o
      case Done => return Ok(Anchor(anchors, account));
      case Failed => return Err(KeyringUnavailable);
      case Stop => return Err(Stopped);
    }

    method SetAnchor(account: Account, value: nat) returns (r: Result<(), Error>)
      modifies `faults, `session, `anchors
      ensures Quiet()
      ensures r.Err? ==> Mishaps(faults) < Mishaps(old(faults))
      ensures r.Ok? ==> anchors == old(anchors)[account := value] && session == old(session)
      ensures r.Err? ==> anchors == old(anchors) && r.error in {KeyringUnavailable, Stopped} && old(faults) != []
      ensures r == Err(Stopped) ==> session.None?
    {
      var o := Step();
      match o
      case Done =>
        anchors := anchors[account := value];
        return Ok(());
      case Failed => return Err(KeyringUnavailable);
      case Stop => return Err(Stopped);
    }

    /** Advances a counter; it is never lowered. */
    method BumpAnchor(account: Account, to: nat) returns (r: Result<(), Error>)
      modifies `faults, `session, `anchors
      ensures Quiet()
      ensures r.Err? ==> Mishaps(faults) < Mishaps(old(faults))
      ensures r.Ok? ==> anchors == Raised(old(anchors), account, to) && session == old(session)
      ensures r.Err? ==> anchors == old(anchors) && r.error in {KeyringUnavailable, Stopped} && old(faults) != []
      ensures r == Err(Stopped) ==> session.None?
    {
      var current :- ReadAnchor(account);
      if to > current.GetOr(0) {
        r := SetAnchor(account, to);
        return;
      }
      return Ok(());
    }

    method SeedAnchor(account: Account, to: nat) returns (r: Result<(), Error>)
      modifies `faults, `session, `anchors
      ensures Quiet()
      ensures r.Err? ==> Mishaps(faults) < Mishaps(old(faults))
      ensures r.Ok? ==>
        anchors == (if account in old(anchors) then Raised(old(anchors), account, to) else old(anchors)[account := to])
      ensures r.Ok? ==> session == old(session)
      ensures r.Err? ==> anchors == old(anchors) && old(faults) != []
      ensures r == Err(Stopped) ==> session.None?
    {
      var current :- ReadAnchor(account);
      if current.None? {
        r := SetAnchor(account, to);
      } else {
        r := BumpAnchor(account, to);
      }
    }

    method MasterKey() returns (r: Result<Key, Error>)
      modifies `faults, `session
      ensures Quiet()
      ensures r.Ok? ==> master == Some(r.value) && session == old(session)
      ensures faults == Rest(old(faults)) && (r.Ok? <==> Head(old(faults)) == Done && master.Some?)
      ensures r.Err? ==> r.error in {KeyringUnavailable, Stopped} && (old(faults) != [] || master.None?)
      ensures r == Err(Stopped) ==> session.None?
    {
      var o := Step();
      match o
      case Done =>
        match master {
          case Some(key) => return Ok(key);
          case None => return Err(KeyringUnavailable);
        }
      case Failed => return Err(KeyringUnavailable);
      case Stop => return Err(Stopped);
    }

    method LoadEnvelope() returns (r: Result<Envelope, Error>)
      modifies `faults, `session
      ensures Quiet()
      ensures r.Ok? ==> disk == Holds(r.value) && r.value.version == ENVELOPE_VERSION && session == old(session)
      ensures r.Err? ==> old(faults) != [] || !disk.Holds? || disk.envelope.version != ENVELOPE_VERSION
      ensures faults == Rest(old(faults))
      ensures Head(old(faults)) == Done && disk.Holds? && disk.envelope.version == ENVELOPE_VERSION ==> r.Ok?
      ensures old(faults) == [] && r.Err? ==>
        r.error == if disk.Absent? then Denied else if disk.Garbage? then Corrupt else VersionUnsupported
      ensures r == Err(Stopped) ==> session.None?
    {
      var o := Step();
      match o
      case Failed => return Err(Denied);
      case Stop => return Err(Stopped);
      case Done =>
        match disk {
          case Absent => return Err(Denied);
          case Garbage => return Err(Corrupt);
          case Holds(env) =>
            if env.version != ENVELOPE_VERSION {
              return Err(VersionUnsupported);
            }
            return Ok(env);
        }
    }

    /** Writes a temporary file and renames it over the envelope. Whatever an interruption leaves
        in the temporary file, the envelope is the old or the new one. */
    method SaveEnvelope(env: Envelope) returns (r: Result<(), Error>)
      modifies `faults, `session, `disk, `spare
      ensures Quiet()
      ensures r.Err? ==> Mishaps(faults) < Mishaps(old(faults))
      ensures r.Ok? ==> disk == Holds(env) && session == old(session)
      ensures r.Err? ==> disk == old(disk) && r.error in {Io, Stopped} && old(faults) != []
      ensures r == Err(Stopped) ==> session.None?
    {
      var written := Step();
      if !written.Done? {
        spare := Garbage;
        return Err(if written.Failed? then Io else Stopped);
      }
      spare := Holds(env);
      var renamed := Step();
      match renamed
      case Done =>
        disk, spare := spare, Absent;
        return Ok(());
      case Failed => return Err(Io);
      case Stop => return Err(Stopped);
    }

    /** Seals under a nonce drawn from the random source. */
    method Seal(key: Key, plain: Plain, aad: Aad) returns (item: Sealed)
      modifies `entropy
      ensures item == Sealed(Nonce(old(entropy)), Genuine(key, aad, plain))
      ensures entropy == old(entropy) + 1
    {
      item := Sealed(Nonce(entropy), Genuine(key, aad, plain));
      entropy := entropy + 1;
    }

    // --- the guards on every load path -------------------------------------

    /** Rejects a generation below the counter; otherwise the counter follows it. */
    method EnforceHighWater(generation: nat) returns (r: Result<(), Error>)
      modifies `faults, `session, `anchors
      ensures Quiet()
      ensures r.Err? && r.error in {KeyringUnavailable, Stopped} ==> Mishaps(faults) < Mishaps(old(faults))
      ensures r.Ok? ==>
        && Anchor(old(anchors), Generation).GetOr(0) <= generation
        && anchors == Raised(old(anchors), Generation, generation)
        && session == old(session)
      ensures r.Err? ==> anchors == old(anchors)
      ensures r.Err? ==> old(faults) != [] || generation < Anchor(old(anchors), Generation).GetOr(0)
      ensures r.Err? && r.error !in {KeyringUnavailable, Stopped} ==>
        r.error == Corrupt && generation < Anchor(old(anchors), Generation).GetOr(0)
      ensures r.Err? && old(faults) == [] ==> r.error == Corrupt
      ensures r == Err(Stopped) ==> session.None?
    {
      var hw :- ReadAnchor(Generation);
      if hw.Some? && generation < hw.value {
        return Err(Corrupt);
      }
      r := BumpAnchor(Generation, generation);
    }

    /** Re-seals an old lockout block that never recorded whether the vault was anchored. */
    method HealLegacyAnchor(lockout: LockoutState, env: Envelope, mek: Key) returns (r: Result<(), Error>)
      requires Inv() && PiecesKnown(env, ledger.known) && env.version == ENVELOPE_VERSION
      requires OpenLockout(mek, env) == Ok(lockout)
      modifies `faults, `session, `disk, `spare, `entropy, `ledger
      ensures Inv() && Quiet() && OnlyMorePieces()
      ensures old(Intact()) ==> Intact()
      ensures r.Ok? ==>
        && session == old(session)
        && HoldsUpToLockout(disk, env)
        && OpenLockout(mek, disk.envelope) == Ok(lockout.(anchorInitialized := Some(true)))
      ensures r.Err? ==> disk == old(disk) && r.error in {Io, Stopped} && old(faults) != []
      ensures r == Err(Stopped) ==> session.None?
    {
      hide LedgerOk, ThrottleOk, ItemOk, SlotsOk, NoncesOk;
      LockoutIsKnown(ledger, entropy, Counter(), mek, env);
      var healed := lockout.(anchorInitialized := Some(true));
      var item := Seal(mek, LockoutJson(healed), Aad(env.version, LOCKOUT));
      AddLockoutOk(ledger, old(entropy), item, Counter());
      ledger := AddPieces(ledger, {item});
      r := SaveEnvelope(env.(lockout := item));
    }

    /** The decision on a missing generation counter: an anchored vault whose counter is gone is
        refused, a block from before the marker is healed while the counter is there. */
    method EnforceAnchorInitialized(lockout: LockoutState, env: Envelope, mek: Key) returns (r: Result<(), Error>)
      requires Inv() && PiecesKnown(env, ledger.known) && env.version == ENVELOPE_VERSION
      requires OpenLockout(mek, env) == Ok(lockout)
      modifies `faults, `session, `disk, `spare, `entropy, `ledger
      ensures Inv() && Quiet() && OnlyMorePieces()
      ensures PiecesKnown(env, ledger.known)
      ensures old(Intact()) ==> Intact()
      ensures r.Ok? ==> Generation in anchors && session == old(session)
      ensures r.Ok? ==>
        if lockout.anchorInitialized == Some(true) then disk == old(disk)
        else HoldsUpToLockout(disk, env)
             && OpenLockout(mek, disk.envelope) == Ok(lockout.(anchorInitialized := Some(true)))
      ensures r.Err? ==> disk == old(disk) && (old(faults) != [] || (Generation !in anchors && r.error == Corrupt))
      ensures r == Err(Stopped) ==> session.None?
      ensures lockout.anchorInitialized == Some(true) ==>
        && faults == Rest(old(faults)) && ledger == old(ledger)
        && (r.Ok? <==> Head(old(faults)) == Done && Generation in anchors)
    {
      hide LedgerOk, ThrottleOk, ItemOk, SlotsOk, NoncesOk;
      LockoutIsKnown(ledger, entropy, Counter(), mek, env);
      var present :- ReadAnchor(Generation);
      match lockout.anchorInitialized
      case Some(anchored) =>
        if anchored && present.None? {
          return Err(Corrupt);
        }
        return Ok(());
      case None =>
        if present.Some? {
          r := HealLegacyAnchor(lockout, env, mek);
          return;
        }
        return Err(Corrupt);
    }

    // --- unlock -------------------------------------------------------------

    /** Advances the lockout counter and seals a block for it. */
    method SealNextLockout(state: LockoutState, mek: Key) returns (r: Result<Sealed, Error>)
      requires Inv() && ledger.generations != [] && mek == ledger.mek
      modifies `faults, `session, `entropy, `ledger, `anchors
      ensures Inv() && Quiet()
      ensures r.Err? ==> Mishaps(faults) < Mishaps(old(faults))
      ensures ledger == SetThrottle(old(ledger), ledger.failures, ledger.lockedUntilMs).(known := ledger.known)
      ensures old(ledger).known <= ledger.known
      ensures Anchor(anchors, Generation) == Anchor(old(anchors), Generation)
      ensures old(Intact()) ==> Intact()
      ensures r.Ok? ==>
        && session == old(session)
        && Counter() == old(Counter()) + 1
        && CurrentThrottle() == Throttle(state.failures, state.lockedUntilMs)
        && r.value in ledger.known
        && r.value.nonce.Nonce?
        && r.value.body == Genuine(mek, Aad(ENVELOPE_VERSION, LOCKOUT),
                                   LockoutJson(LockoutState(state.failures, state.lockedUntilMs, Counter(), Some(true))))
      ensures r.Err? ==> old(faults) != [] && ledger == old(ledger) && anchors == old(anchors)
      ensures r == Err(Stopped) ==> session.None?
      ensures Head(old(faults)) != Done ==> r.Err? && faults == Rest(old(faults))
    {
      hide LedgerOk, ThrottleOk, ItemOk, SlotsOk, NoncesOk;
      var current :- ReadAnchor(LockoutGeneration);
      var next := current.GetOr(0) + 1;
      var _ :- BumpAnchor(LockoutGeneration, next);
      var stamped := state.(generation := next, anchorInitialized := Some(true));
      var item := Seal(mek, LockoutJson(stamped), Aad(ENVELOPE_VERSION, LOCKOUT));
      SetThrottleOk(ledger, old(entropy), current.GetOr(0), state.failures, state.lockedUntilMs);
      ledger := SetThrottle(ledger, state.failures, state.lockedUntilMs);
      AddLockoutOk(ledger, old(entropy), item, next);
      ledger := AddPieces(ledger, {item});
      return Ok(item);
    }

    /** Writes a lockout block, advancing its counter first. */
    method WriteLockout(state: LockoutState, env: Envelope, mek: Key) returns (r: Result<(), Error>)
      requires Inv() && PiecesKnown(env, ledger.known) && ledger.generations != [] && mek == ledger.mek
      requires env.version == ENVELOPE_VERSION
      modifies `faults, `session, `disk, `spare, `entropy, `ledger, `anchors
      ensures Inv() && Quiet()
      ensures r.Err? ==> Mishaps(faults) < Mishaps(old(faults))
      ensures ledger == SetThrottle(old(ledger), ledger.failures, ledger.lockedUntilMs).(known := ledger.known)
      ensures old(ledger).known <= ledger.known
      ensures Anchor(anchors, Generation) == Anchor(old(anchors), Generation)
      ensures r.Ok? ==>
        && session == old(session)
        && CurrentThrottle() == Throttle(state.failures, state.lockedUntilMs)
        && HoldsUpToLockout(disk, env)
        && Block() == Ok(LockoutState(state.failures, state.lockedUntilMs, Counter(), Some(true)))
      ensures old(Intact()) ==> Intact()
      ensures r.Err? ==> old(faults) != [] && disk == old(disk)
      ensures r.Err? ==>
        || (ledger == old(ledger) && anchors == old(anchors))
        || (Counter() == old(Counter()) + 1 && CurrentThrottle() == Throttle(state.failures, state.lockedUntilMs))
      ensures r == Err(Stopped) ==> session.None?
      ensures Head(old(faults)) != Done ==>
        r.Err? && ledger == old(ledger) && anchors == old(anchors) && faults == Rest(old(faults))
      ensures old(HoldsUpToLockout(disk, env) && Unreadable()) ==> Unreadable()
      ensures old(HoldsUpToLockout(disk, env) && Healthy()) ==> Healthy() || (r.Err? && Barred())
    {
      hide LedgerOk, ThrottleOk, ItemOk, SlotsOk, NoncesOk;
      var item :- SealNextLockout(state, mek);
      r := SaveEnvelope(env.(lockout := item));
    }

    /** One passphrase trial: unwrap the data key, verify the header, open the check slot. */
    method TryDeriveSession(passphrase: string, mek: Key, env: Envelope, mono: nat) returns (r: Result<Session, Error>)
      requires Inv() && PiecesKnown(env, ledger.known) && env.version == ENVELOPE_VERSION
      requires Generation in anchors && ledger.generations != [] && mek == ledger.mek
      modifies `faults, `session, `anchors, `kdfInvocations, `trials
      ensures Inv() && Quiet() && anchors == old(anchors)
      ensures r.Err? && r.error !in {Denied, Corrupt} ==> Mishaps(faults) < Mishaps(old(faults))
      ensures r.Ok? ==> UpToDate(ledger, anchors, env) && OpensWith(ledger, env, passphrase)
      ensures old(faults) == [] && UpToDate(ledger, anchors, env) && OpensWith(ledger, env, passphrase) ==> r.Ok?
      ensures trials == old(trials) + 1
      ensures r.Ok? ==>
        && passphrase == ledger.passphrase && session == old(session)
        && r.value == Session(ledger.dek, mono)
        && OpenAndVerifyHeader(ledger.dek, env).Ok?
        && anchors[Generation] <= OpenAndVerifyHeader(ledger.dek, env).value
      ensures r.Err? && old(faults) == [] ==> r.error in {Denied, Corrupt}
      ensures passphrase != ledger.passphrase ==> r.Err? && r.error in {Denied, Corrupt} && faults == old(faults)
      ensures old(faults) == [] && InStep(ledger, anchors, env) ==>
        if passphrase == ledger.passphrase then r.Ok? else r == Err(Denied)
      ensures r == Err(Stopped) ==> session.None?
    {
      hide LedgerOk, ThrottleOk, ItemOk, SlotsOk, NoncesOk, PiecesKnown;
      kdfInvocations := kdfInvocations + 1;
      trials := trials + 1;
      var wrapKey := Combined(mek, passphrase, env.salt);
      var dk :- Unseal(wrapKey, env.wrappedDk, Aad(env.version, WRAPPED_DK));
      UnwrappedKeyIsTheLedgers(ledger, entropy, env, passphrase);
      if !dk.KeyBytes? {
        return Err(Corrupt);
      }
      var generation :- OpenAndVerifyHeader(dk.key, env);
      HeaderNamesItsGeneration(ledger, entropy, env);
      var _ :- EnforceHighWater(generation);
      CheckSlotOpens(ledger, entropy);
      if CHECK_SLOT !in env.slots {
        return Err(Corrupt);
      }
      var check :- Unseal(dk.key, env.slots[CHECK_SLOT], Aad(env.version, CHECK_SLOT));
      if check != CheckText {
        return Err(Denied);
      }
      return Ok(Session(dk.key, mono));
    }

    /** Master key, envelope and lockout block. */
    method OpenBlock() returns (r: Result<Opened, Error>)
      requires Inv()
      modifies `faults, `session
      ensures Inv() && Quiet()
      ensures r.Ok? ==>
        && session == old(session) && disk == Holds(r.value.env) && r.value.env.version == ENVELOPE_VERSION
        && PiecesKnown(r.value.env, ledger.known) && r.value.mek == ledger.mek && ledger.generations != []
        && Block() == Ok(r.value.lockout) == OpenLockout(ledger.mek, r.value.env)
      ensures old(faults) == [] && Block().Ok? ==> r.Ok?
      ensures old(|faults| > 1 && faults[0].Done? && faults[1].Done?) && Block().Ok? ==>
        r.Ok? && faults == old(faults)[2..]
      ensures r == Err(Stopped) ==> session.None?
    {
      hide LedgerOk, ThrottleOk, ItemOk, SlotsOk, NoncesOk, PiecesKnown;
      BlockNamesItsKey();
      var mek :- MasterKey();
      var env :- LoadEnvelope();
      var lockout :- OpenLockout(mek, env);
      LockoutIsKnown(ledger, entropy, Counter(), mek, env);
      return Ok(Opened(mek, env, lockout));
    }

    /** The checks before a passphrase trial; they also turn away an outdated lockout block. */
    method OpenForUnlock() returns (r: Result<Opened, Error>)
      requires Inv()
      modifies `faults, `session, `disk, `spare, `entropy, `ledger
      ensures Inv() && Quiet() && OnlyMorePieces()
      ensures r.Ok? ==>
        && session == old(session)
        && old(disk) == Holds(r.value.env) && HoldsUpToLockout(disk, r.value.env)
        && PiecesKnown(r.value.env, ledger.known) && r.value.env.version == ENVELOPE_VERSION
        && r.value.mek == ledger.mek && ledger.generations != [] && Generation in anchors
        && Accepted() && Marked()
        && Presented() == Throttle(r.value.lockout.failures, r.value.lockout.lockedUntilMs)
      ensures old(Intact()) ==> Intact()
      ensures BlockKept()
      ensures r.Ok? ==> old(Accepted())
      ensures old(faults) == [] && old(Accepted()) ==> r.Ok?
      ensures old(faults == STOP_AFTER_TRIAL && Accepted() && Marked()) ==>
        r.Ok? && faults == [Stop] && disk == old(disk) && ledger == old(ledger)
      ensures old(faults) == [] && old(Block()).Ok? && Generation !in anchors ==> r == Err(Corrupt)
      ensures r == Err(Stopped) ==> session.None?
      ensures old(Unreadable()) ==> Unreadable()
      ensures old(Healthy()) ==> Healthy() && disk == old(disk)
      ensures r.Ok? && old(Sound()) ==> Sound()
      ensures Contents() == old(Contents())
    {
      hide LedgerOk, ThrottleOk, ItemOk, SlotsOk, NoncesOk, PiecesKnown;
      var loaded :- OpenBlock();
      var Opened(mek, env, lockout) := loaded;
      var _ :- EnforceAnchorInitialized(lockout, env, mek);
      var counter :- ReadAnchor(LockoutGeneration);
      if counter.Some? && lockout.generation < counter.value {
        return Err(Corrupt);
      }
      return Ok(Opened(mek, env, lockout));
    }

    /** Counts a failed trial; the fifth one starts the cooloff. A write that fails does not hide
        the denial. */
    method RecordFailure(e: Error, nowFailMs: nat, ready: Opened) returns (r: Error)
      requires Inv() && PiecesKnown(ready.env, ledger.known) && ledger.generations != [] && ready.mek == ledger.mek
      requires ready.env.version == ENVELOPE_VERSION && HoldsUpToLockout(disk, ready.env)
      requires ready.lockout.lockedUntilMs.None?
      requires e in {Denied, Corrupt} && Marked()
      modifies `faults, `session, `disk, `spare, `entropy, `ledger, `anchors
      ensures Inv() && Quiet() && Contents() == old(Contents())
      ensures ledger == SetThrottle(old(ledger), ledger.failures, ledger.lockedUntilMs).(known := ledger.known)
      ensures old(ledger).known <= ledger.known
      ensures Marked() && Anchor(anchors, Generation) == Anchor(old(anchors), Generation)
      ensures old(Intact()) ==> Intact()
      ensures r == Stopped ==> session.None?
      ensures old(Unreadable()) ==> Unreadable()
      ensures old(Healthy()) ==> Healthy() || Barred()
      ensures old(Healthy()) && old(faults) == [] ==> Healthy()
      ensures CurrentThrottle() == AfterFailure(Throttle(ready.lockout.failures, None), nowFailMs)
           || (Mishaps(faults) < Mishaps(old(faults)) && CurrentThrottle() == old(CurrentThrottle()))
      ensures old(faults) == [Stop] ==>
        faults == [] && disk == old(disk) && ledger == old(ledger) && anchors == old(anchors)
      ensures old(faults) == [] ==> r == e
    {
      hide LedgerOk, ThrottleOk, ItemOk, SlotsOk, NoncesOk, PiecesKnown;
      var lockout := ready.lockout.(failures := ready.lockout.failures + 1);
      if lockout.failures >= MAX_ATTEMPTS {
        lockout := lockout.(lockedUntilMs := Some(nowFailMs + LOCKOUT_COOLOFF_MS));
      }
      var written := WriteLockout(lockout, ready.env, ready.mek);
      r := if written == Err(Stopped) then Stopped else e;
    }

    /** Success: the throttle is reset on disk unless it is clear already, then the session opens. */
    method OpenSession(opening: Session, ready: Opened, cooloffElapsed: bool) returns (r: Result<(), Error>)
      requires Inv() && PiecesKnown(ready.env, ledger.known) && ledger.generations != [] && ready.mek == ledger.mek
      requires ready.env.version == ENVELOPE_VERSION && HoldsUpToLockout(disk, ready.env)
      requires Accepted() && Marked() && opening.dataKey == ledger.dek
      requires cooloffElapsed || Presented() == Throttle(ready.lockout.failures, None)
      modifies `faults, `session, `disk, `spare, `entropy, `ledger, `anchors
      ensures Inv()
      ensures ledger == SetThrottle(old(ledger), ledger.failures, ledger.lockedUntilMs).(known := ledger.known)
      ensures old(ledger).known <= ledger.known
      ensures Marked() && Anchor(anchors, Generation) == Anchor(old(anchors), Generation)
      ensures old(Intact()) ==> Intact()
      ensures r.Ok? ==> session == Some(opening) && Accepted() && Presented() == Throttle(0, None)
      ensures r.Ok? && old(CurrentThrottle() == Presented()) ==> CurrentThrottle() == Throttle(0, None)
      ensures r.Err? ==> old(faults) != [] && (session == old(session) || session.None?)
      ensures Mishaps(faults) <= Mishaps(old(faults)) && (r.Err? ==> Mishaps(faults) < Mishaps(old(faults)))
      ensures r == Err(Stopped) ==> session.None?
      ensures old(Healthy()) ==> Healthy() || (r.Err? && Barred())
      ensures old(Sound()) && r.Ok? ==> Sound()
      ensures old(faults) == [] ==> faults == []
    {
      hide LedgerOk, ThrottleOk, ItemOk, PiecesKnown, SlotsOk, NoncesOk;
      if ready.lockout.failures != 0 || cooloffElapsed {
        var _ :- WriteLockout(NO_FAILURES, ready.env, ready.mek);
      }
      session := Some(opening);
      return Ok(());
    }

    /** The trial itself and what is written about it. */
    method TryPassphrase(passphrase: string, mono: nat, nowFailMs: nat, ready: Opened, cooloffElapsed: bool)
      returns (r: Result<(), Error>)
      requires Inv() && PiecesKnown(ready.env, ledger.known) && ledger.generations != [] && ready.mek == ledger.mek
      requires ready.env.version == ENVELOPE_VERSION && HoldsUpToLockout(disk, ready.env)
      requires Generation in anchors && Accepted() && Marked()
      requires ready.lockout.lockedUntilMs.None?
      requires cooloffElapsed || Presented() == Throttle(ready.lockout.failures, None)
      modifies `faults, `session, `disk, `spare, `entropy, `ledger, `anchors, `kdfInvocations, `trials
      ensures Inv() && Contents() == old(Contents())
      ensures ledger == SetThrottle(old(ledger), ledger.failures, ledger.lockedUntilMs).(known := ledger.known)
      ensures old(ledger).known <= ledger.known
      ensures trials == old(trials) + 1
      ensures Marked() && Anchor(anchors, Generation) == Anchor(old(anchors), Generation)
      ensures old(Intact()) ==> Intact()
      ensures r.Ok? ==> passphrase == ledger.passphrase && session == Some(Session(ledger.dek, mono))
      ensures r.Ok? ==> Accepted() && Presented() == Throttle(0, None)
      ensures r.Ok? && old(CurrentThrottle() == Presented()) ==> CurrentThrottle() == Throttle(0, None)
      ensures r.Err? ==> session == old(session) || (session.None? && old(faults) != [])
      ensures r == Err(Stopped) ==> session.None?
      ensures old(Unreadable()) ==> r.Err? && Unreadable()
      ensures old(Healthy()) ==> Healthy() || (r.Err? && Barred())
      ensures old(faults) == [] ==> faults == []
      ensures old(Healthy()) && old(faults) == [] ==> Healthy()
      ensures old(Sound()) ==> (r.Ok? ==> Sound())
      ensures old(Sound() && faults == []) ==> if passphrase == ledger.passphrase then r.Ok? else r == Err(Denied)
      ensures old(faults) == [Stop] && passphrase != ledger.passphrase ==>
        faults == [] && disk == old(disk) && ledger == old(ledger) && anchors == old(anchors)
      ensures Mishaps(faults) <= Mishaps(old(faults))
      ensures r.Err? ==>
        || CurrentThrottle() == AfterFailure(Throttle(ready.lockout.failures, None), nowFailMs)
        || (&& Mishaps(faults) < Mishaps(old(faults))
            && (passphrase != ledger.passphrase ==> CurrentThrottle() == old(CurrentThrottle())))
      ensures r.Ok? ==> old(UpToDate(ledger, anchors, ready.env) && OpensWith(ledger, ready.env, passphrase))
      ensures old(faults == [] && UpToDate(ledger, anchors, ready.env) && OpensWith(ledger, ready.env, passphrase)) ==>
        r.Ok?
    {
      hide LedgerOk, ThrottleOk, ItemOk, PiecesKnown, SlotsOk, NoncesOk;
      var outcome := TryDeriveSession(passphrase, ready.mek, ready.env, mono);
      match outcome
      case Ok(opening) => r := OpenSession(opening, ready, cooloffElapsed);
      case Err(e) =>
        if e == Denied || e == Corrupt {
          var reported := RecordFailure(e, nowFailMs, ready);
          return Err(reported);
        }
        return Err(e);
    }

    /** The cooloff check; a cooloff that is over counts as no failures. */
    method TryOutsideCooloff(passphrase: string, mono: nat, nowCheckMs: nat, nowFailMs: nat, ready: Opened)
      returns (r: Result<(), Error>)
      requires Inv() && PiecesKnown(ready.env, ledger.known) && ledger.generations != [] && ready.mek == ledger.mek
      requires ready.env.version == ENVELOPE_VERSION && HoldsUpToLockout(disk, ready.env)
      requires Generation in anchors && Accepted() && Marked()
      requires Presented() == Throttle(ready.lockout.failures, ready.lockout.lockedUntilMs)
      modifies `faults, `session, `disk, `spare, `entropy, `ledger, `anchors, `kdfInvocations, `trials
      ensures Inv() && Contents() == old(Contents())
      ensures ledger == SetThrottle(old(ledger), ledger.failures, ledger.lockedUntilMs).(known := ledger.known)
      ensures old(ledger).known <= ledger.known
      ensures trials == old(trials) + if Admits(old(Presented()), nowCheckMs) then 1 else 0
      ensures !Admits(old(Presented()), nowCheckMs) ==>
        r == Err(LockedOut) && disk == old(disk) && ledger == old(ledger) && anchors == old(anchors) && session == old(session)
      ensures Marked() && Anchor(anchors, Generation) == Anchor(old(anchors), Generation)
      ensures old(Intact()) ==> Intact()
      ensures r.Ok? ==> passphrase == ledger.passphrase && session == Some(Session(ledger.dek, mono))
      ensures r.Ok? ==> Accepted() && Presented() == Throttle(0, None)
      ensures r.Ok? && old(CurrentThrottle() == Presented()) ==> CurrentThrottle() == Throttle(0, None)
      ensures r.Err? ==> session == old(session) || (session.None? && old(faults) != [])
      ensures r == Err(Stopped) ==> session.None?
      ensures old(Unreadable()) ==> r.Err? && Unreadable()
      ensures old(Healthy()) ==> Healthy() || (r.Err? && Barred())
      ensures old(faults) == [] ==> faults == [] && (old(Healthy()) ==> Healthy())
      ensures old(Sound()) && r.Ok? ==> Sound()
      ensures old(Sound() && faults == []) && Admits(old(Presented()), nowCheckMs) ==>
        if passphrase == ledger.passphrase then r.Ok? else r == Err(Denied)
      ensures old(faults) == [Stop] && passphrase != ledger.passphrase && Admits(old(Presented()), nowCheckMs) ==>
        faults == [] && disk == old(disk) && ledger == old(ledger) && anchors == old(anchors)
      ensures Mishaps(faults) <= Mishaps(old(faults))
      ensures r.Err? && trials != old(trials) ==>
        || CurrentThrottle() == AfterFailure(old(Presented()), nowFailMs)
        || (&& Mishaps(faults) < Mishaps(old(faults))
            && (passphrase != ledger.passphrase ==> CurrentThrottle() == old(CurrentThrottle())))
      ensures r.Ok? ==> old(UpToDate(ledger, anchors, ready.env) && OpensWith(ledger, ready.env, passphrase))
      ensures Admits(old(Presented()), nowCheckMs)
              && old(faults == [] && UpToDate(ledger, anchors, ready.env) && OpensWith(ledger, ready.env, passphrase)) ==>
        r.Ok?
    {
      hide LedgerOk, ThrottleOk, ItemOk, PiecesKnown, SlotsOk, NoncesOk;
      hide InStep, LockoutInStep, OpenAndVerifyHeader, OpenLockout, Unseal, Newest, UpToDate, OpensWith;
      var Opened(mek, env, lockout) := ready;
      var cooloffElapsed := false;
      if lockout.lockedUntilMs.Some? {
        if nowCheckMs < lockout.lockedUntilMs.value {
          return Err(LockedOut);
        }
        lockout := lockout.(failures := 0, lockedUntilMs := None);
        cooloffElapsed := true;
      }
      r := TryPassphrase(passphrase, mono, nowFailMs, Opened(mek, env, lockout), cooloffElapsed);
    }

    /** What an unlock needs of the keyring and the file. */
    ghost predicate Opens(passphrase: string, now: nat)
      reads `disk, `ledger, `anchors
    {
      && Accepted() && Admits(Presented(), now)
      && UpToDate(ledger, anchors, disk.envelope) && OpensWith(ledger, disk.envelope, passphrase)
    }

    /** Unlocks the session. `nowCheckMs` and `nowFailMs` are the two readings of the wall clock,
        `mono` the reading of the monotonic one. A passphrase is tried exactly when the file is
        accepted and the throttle it presents admits a trial. */
    method Unlock(passphrase: string, mono: nat, nowCheckMs: nat, nowFailMs: nat) returns (r: Result<(), Error>)
      requires Inv()
      modifies `faults, `session, `disk, `spare, `entropy, `ledger, `anchors, `kdfInvocations, `trials
      ensures Inv() && Contents() == old(Contents())
      ensures old(ledger).known <= ledger.known
      ensures ledger == SetThrottle(old(ledger), ledger.failures, ledger.lockedUntilMs).(known := ledger.known)
      ensures Anchor(anchors, Generation) == Anchor(old(anchors), Generation)
      ensures old(Intact()) ==> Intact()
      ensures trials == old(trials)
           || (trials == old(trials) + 1 && old(Accepted()) && Admits(old(Presented()), nowCheckMs))
      ensures old(faults == [] && Accepted()) && Admits(old(Presented()), nowCheckMs) ==> trials == old(trials) + 1
      ensures r.Ok? ==> trials == old(trials) + 1
      ensures r.Ok? ==> passphrase == ledger.passphrase && session == Some(Session(ledger.dek, mono))
      ensures r.Ok? ==> Accepted() && Marked() && Presented() == Throttle(0, None)
      ensures r.Ok? && old(CurrentThrottle() == Presented()) ==> CurrentThrottle() == Throttle(0, None)
      ensures r.Err? ==> session == old(session) || (session.None? && old(faults) != [])
      ensures r == Err(Stopped) ==> session.None?
      ensures old(Marked()) ==> Marked()
      ensures old(faults == [] && Block().Ok? && Generation !in anchors) ==> r == Err(Corrupt)
      ensures old(Unreadable()) ==> r.Err? && Unreadable()
      ensures old(Barred()) ==> r.Err? && Barred() && trials == old(trials)
      ensures old(Sound()) && r.Ok? ==> Sound()
      ensures old(faults == [] && Sound() && Accepted()) ==>
        (r.Ok? <==> passphrase == ledger.passphrase && Admits(old(Presented()), nowCheckMs))
      ensures old(Healthy()) && old(faults) == [] ==>
        && Healthy() && (r.Ok? <==> passphrase == ledger.passphrase && Admits(old(CurrentThrottle()), nowCheckMs))
        && (r.Ok? ==> CurrentThrottle() == Throttle(0, None))
        && (r.Err? && Admits(old(CurrentThrottle()), nowCheckMs) ==> CurrentThrottle() == AfterFailure(old(CurrentThrottle()), nowFailMs))
        && (trials == old(trials) + 1 <==> Admits(old(CurrentThrottle()), nowCheckMs))
        && (r.Err? ==> r.error == if Admits(old(CurrentThrottle()), nowCheckMs) then Denied else LockedOut)
      ensures old(Healthy()) ==> Healthy() || (r.Err? && Barred())
      ensures old(faults) == [] ==> faults == []
      ensures old(faults == STOP_AFTER_TRIAL && Accepted() && Marked()) && passphrase != ledger.passphrase
              && Admits(old(Presented()), nowCheckMs) ==>
        trials == old(trials) + 1 && faults == [] && disk == old(disk) && ledger == old(ledger) && anchors == old(anchors)
      ensures trials == old(trials) ==> CurrentThrottle() == old(CurrentThrottle())
      ensures Mishaps(faults) <= Mishaps(old(faults))
      ensures r.Err? && trials != old(trials) ==>
        || CurrentThrottle() == AfterFailure(old(Presented()), nowFailMs)
        || (&& Mishaps(faults) < Mishaps(old(faults))
            && (passphrase != ledger.passphrase ==> CurrentThrottle() == old(CurrentThrottle())))
      ensures r.Ok? ==> old(Opens(passphrase, nowCheckMs))
      ensures old(faults == [] && Opens(passphrase, nowCheckMs)) ==> r.Ok?
    {
      hide LedgerOk, ThrottleOk, ItemOk, PiecesKnown, SlotsOk, NoncesOk;
      hide InStep, LockoutInStep, OpenAndVerifyHeader, OpenLockout, Unseal, Newest;
      BlockNamesItsKey();
      if disk.Absent? {
        kdfInvocations := kdfInvocations + 1;
        return Err(Denied);
      }
      var ready :- OpenForUnlock();
      r := TryOutsideCooloff(passphrase, mono, nowCheckMs, nowFailMs, ready);
    }

    // --- the session --------------------------------------------------------

    /** A session that the auto-lock window has not ended. */
    ghost predicate Live(mono: nat)
      reads this
    {
      session.Some? && (autolockMs == 0 || mono < session.value.unlockedAt + autolockMs)
    }

    ghost function SessionAt(mono: nat): Option<Session>
      reads this
    {
      if Live(mono) then session else None
    }

    method SessionKey(mono: nat) returns (r: Result<Key, Error>)
      modifies `session
      ensures if old(Live(mono)) then r == Ok(old(session).value.dataKey) && session == old(session)
              else r == Err(Denied) && session.None?
    {
      if autolockMs != 0 && session.Some? && mono >= session.value.unlockedAt + autolockMs {
        session := None;
      }
      match session
      case Some(live) => return Ok(live.dataKey);
      case None => return Err(Denied);
    }

    method Lock()
      requires Inv()
      modifies `session
      ensures Inv() && session.None?
    {
      session := None;
    }

    // --- reads ----------------------------------------------------------------

    /** Opens the lockout block and enforces the decision on a missing counter. */
    method GuardAnchor(env: Envelope) returns (r: Result<Opened, Error>)
      requires Inv() && PiecesKnown(env, ledger.known) && disk == Holds(env) && env.version == ENVELOPE_VERSION
      modifies `faults, `session, `disk, `spare, `entropy, `ledger
      ensures Inv() && Quiet() && OnlyMorePieces()
      ensures PiecesKnown(env, ledger.known) && HoldsUpToLockout(disk, env)
      ensures Contents() == old(Contents()) && BlockKept()
      ensures old(Intact()) ==> Intact()
      ensures old(Unreadable()) ==> Unreadable()
      ensures r.Ok? ==>
        && Generation in anchors && session == old(session) && ledger.generations != []
        && r.value.mek == ledger.mek && r.value.env == env
        && OpenLockout(ledger.mek, env) == Ok(r.value.lockout)
        && old(Block()) == Ok(r.value.lockout) && Marked()
        && (old(Healthy()) ==> r.value.lockout.anchorInitialized == Some(true))
      ensures old(faults) == [] && old(Block()).Ok? && Generation !in anchors ==> r == Err(Corrupt)
      ensures r == Err(Stopped) ==> session.None?
      ensures old(Healthy()) ==> Healthy() && disk == old(disk)
      ensures old(faults == [] && Block().Ok?) && Generation in anchors ==> r.Ok?
      ensures UpToDate(ledger, anchors, env) <==> old(UpToDate(ledger, anchors, env))
    {
      hide LedgerOk, ThrottleOk, ItemOk, SlotsOk, NoncesOk;
      BlockNamesItsKey();
      var mek :- MasterKey();
      var lockout :- OpenLockout(mek, env);
      LockoutIsKnown(ledger, entropy, Counter(), mek, env);
      var _ :- EnforceAnchorInitialized(lockout, env, mek);
      return Ok(Opened(mek, env, lockout));
    }

    /** The header verifies and carries the newest generation. */
    method VerifyNewest(dataKey: Key, env: Envelope) returns (r: Result<nat, Error>)
      requires Inv() && PiecesKnown(env, ledger.known) && env.version == ENVELOPE_VERSION
      requires Generation in anchors && ledger.generations != [] && dataKey == ledger.dek
      modifies `faults, `session, `anchors
      ensures Inv() && Quiet() && anchors == old(anchors)
      ensures r.Ok? ==>
        && session == old(session)
        && OpenAndVerifyHeader(ledger.dek, env) == Ok(r.value)
        && r.value == anchors[Generation] == |ledger.generations| - 1
      ensures r == Err(Stopped) ==> session.None?
      ensures r.Ok? ==> UpToDate(ledger, anchors, env)
      ensures old(faults) == [] && UpToDate(ledger, anchors, env) ==> r.Ok?
      ensures old(faults) == [] && InStep(ledger, anchors, env) ==> r.Ok?
    {
      hide LedgerOk, ThrottleOk, ItemOk, SlotsOk, NoncesOk, PiecesKnown;
      var generation :- OpenAndVerifyHeader(dataKey, env);
      HeaderNamesItsGeneration(ledger, entropy, env);
      var _ :- EnforceHighWater(generation);
      return Ok(generation);
    }

    /** Opens a slot of an envelope whose header is the newest. */
    method ReadVerified(dataKey: Key, env: Envelope, slot: string) returns (r: Result<Plain, Error>)
      requires Inv() && PiecesKnown(env, ledger.known) && env.version == ENVELOPE_VERSION
      requires Generation in anchors && ledger.generations != [] && dataKey == ledger.dek && !StartsWithNul(slot)
      modifies `faults, `session, `anchors
      ensures Inv() && Quiet() && anchors == old(anchors)
      ensures r.Ok? ==>
        && session == old(session) && slot in Contents() && r.value == Contents()[slot]
        && OpenAndVerifyHeader(ledger.dek, env) == Ok(anchors[Generation])
      ensures r.Ok? ==> UpToDate(ledger, anchors, env) && SlotOpens(ledger, env, slot)
      ensures old(faults) == [] && UpToDate(ledger, anchors, env) && SlotOpens(ledger, env, slot) ==> r.Ok?
      ensures r == Err(Stopped) ==> session.None?
      ensures old(faults) == [] && InStep(ledger, anchors, env) ==>
        if slot in Contents() then r == Ok(Contents()[slot]) else r == Err(Denied)
    {
      hide LedgerOk, ThrottleOk, ItemOk, SlotsOk, NoncesOk, PiecesKnown, Newest;
      var _ :- VerifyNewest(dataKey, env);
      VerifiedReadIsNewest(ledger, entropy, env, slot);
      if slot !in env.slots {
        return Err(Denied);
      }
      return Unseal(dataKey, env.slots[slot], Aad(env.version, slot));
    }

    /** What a read needs: a live session, and a file that passes the guards and opens at this name. */
    ghost predicate Readable(slot: string, mono: nat)
      reads this
    {
      && !StartsWithNul(slot) && Live(mono) && Block().Ok?
      && UpToDate(ledger, anchors, disk.envelope) && SlotOpens(ledger, disk.envelope, slot)
    }

    /** Reads a secret. Whatever the disk was replaced with, an answer is the newest value. */
    method ReadSlot(slot: string, mono: nat) returns (r: Result<Plain, Error>)
      requires Inv()
      modifies `faults, `session, `disk, `spare, `entropy, `ledger, `anchors
      ensures Inv() && Contents() == old(Contents())
      ensures SameVault()
      ensures BlockKept() && Anchor(anchors, Generation) == Anchor(old(anchors), Generation)
      ensures old(Intact()) ==> Intact()
      ensures r.Ok? ==> !StartsWithNul(slot) && slot in Contents() && r.value == Contents()[slot]
      ensures r.Ok? ==> old(Live(mono)) && session == old(session) && Marked()
      ensures r.Ok? ==> old(Readable(slot, mono))
      ensures old(faults == [] && Readable(slot, mono)) ==> r.Ok?
      ensures r == Err(Stopped) ==> session.None?
      ensures old(faults == [] && Live(mono) && Block().Ok? && Generation !in anchors) && !StartsWithNul(slot) ==>
        r == Err(Corrupt)
      ensures session == old(session) || session.None?
      ensures old(faults) == [] ==> session == if StartsWithNul(slot) then old(session) else old(SessionAt(mono))
      ensures old(session.None?) ==>
        r == Err(Denied) && disk == old(disk) && anchors == old(anchors) && ledger == old(ledger)
      ensures old(Unreadable()) ==> r.Err? && Unreadable()
      ensures old(Healthy()) ==> Healthy()
      ensures old(faults) == [] ==> faults == []
      ensures old(Healthy() && faults == [] && Live(mono)) ==>
        if slot in Contents() then r == Ok(Contents()[slot]) else r == Err(Denied)
    {
      hide LedgerOk, ThrottleOk, ItemOk, SlotsOk, NoncesOk, PiecesKnown;
      if StartsWithNul(slot) {
        return Err(Denied);
      }
      var dataKey :- SessionKey(mono);
      var env :- LoadEnvelope();
      var _ :- GuardAnchor(env);
      r := ReadVerified(dataKey, env, slot);
    }

    // --- mutations --------------------------------------------------------------

    /** Carries a healed lockout block into the envelope that a mutation is about to save. */
    method CarryHeal(ready: Opened) returns (env: Envelope)
      requires Inv() && PiecesKnown(ready.env, ledger.known) && ready.env.version == ENVELOPE_VERSION
      requires ready.mek == ledger.mek && OpenLockout(ledger.mek, ready.env) == Ok(ready.lockout)
      modifies `entropy, `ledger
      ensures Inv() && OnlyMorePieces() && PiecesKnown(env, ledger.known)
      ensures env == ready.env.(lockout := env.lockout)
      ensures OpenLockout(ledger.mek, env) == Ok(ready.lockout.(anchorInitialized := Some(true)))
      ensures Contents() == old(Contents())
      ensures old(Intact()) ==> Intact()
      ensures old(Unreadable()) ==> Unreadable()
      ensures UpToDate(ledger, anchors, env) <==> old(UpToDate(ledger, anchors, ready.env))
      ensures ledger.generations == old(ledger).generations
      ensures ready.lockout.anchorInitialized == Some(true) ==> env == ready.env && ledger == old(ledger)
    {
      hide LedgerOk, ThrottleOk, ItemOk, SlotsOk, NoncesOk;
      env := ready.env;
      if ready.lockout.anchorInitialized != Some(true) {
        LockoutIsKnown(ledger, entropy, Counter(), ready.mek, env);
        var healed := ready.lockout.(anchorInitialized := Some(true));
        var item := Seal(ready.mek, LockoutJson(healed), Aad(env.version, LOCKOUT));
        AddLockoutOk(ledger, old(entropy), item, Counter());
        ledger := AddPieces(ledger, {item});
        env := env.(lockout := item);
      }
    }

    /** Seals the header of the next generation and advances the counter. */
    method SealNextHeader(dataKey: Key, env: Envelope, generation: nat, ghost kept: map<string, Sealed>)
      returns (r: Result<Sealed, Error>)
      requires Inv() && env.version == ENVELOPE_VERSION
      requires ledger.generations != [] && dataKey == ledger.dek
      requires generation == |ledger.generations| - 1 && Anchor(anchors, Generation) == Some(generation)
      requires SlotsOk(ledger, kept) && Fingerprint(kept) == Fingerprint(env.slots)
      modifies `faults, `session, `entropy, `ledger, `anchors
      ensures Inv() && Quiet()
      ensures Anchor(anchors, LockoutGeneration) == Anchor(old(anchors), LockoutGeneration)
      ensures old(Intact()) ==> Intact()
      ensures r == Err(Stopped) ==> session.None?
      ensures r.Ok? ==>
        && session == old(session)
        && ledger == AddGeneration(old(ledger), kept, {r.value})
        && anchors == old(anchors)[Generation := generation + 1]
        && r.value.nonce.Nonce?
        && r.value.body == Genuine(dataKey, Aad(ENVELOPE_VERSION, HEADER), HeaderJson(Header(generation + 1, Fingerprint(kept))))
      ensures r.Err? ==> ledger == old(ledger) && anchors == old(anchors) && old(faults) != []
    {
      hide LedgerOk, ThrottleOk, ItemOk, SlotsOk, NoncesOk;
      var header := Header(generation + 1, Fingerprint(env.slots));
      var item := Seal(dataKey, HeaderJson(header), Aad(env.version, HEADER));
      NextGenerationOk(ledger, old(entropy), Counter(), kept, item);
      LaterEntropyOk(ledger, old(entropy), entropy);
      var _ :- BumpAnchor(Generation, generation + 1);
      ledger := AddGeneration(ledger, kept, {item});
      return Ok(item);
    }

    /** Advances the counter to the next generation, then saves: stopping in
        between leaves the counter ahead of the disk. `kept` is what the new generation holds. */
    method CommitSlots(dataKey: Key, env: Envelope, generation: nat, ghost kept: map<string, Sealed>)
      returns (r: Result<(), Error>)
      requires Inv() && PiecesKnown(env, ledger.known) && env.version == ENVELOPE_VERSION
      requires ledger.generations != [] && dataKey == ledger.dek
      requires generation == |ledger.generations| - 1 && Anchor(anchors, Generation) == Some(generation)
      requires SlotsOk(ledger, kept) && Fingerprint(kept) == Fingerprint(env.slots)
      requires disk.Holds? && OpenAndVerifyHeader(ledger.dek, disk.envelope) == Ok(generation)
      modifies `faults, `session, `disk, `spare, `entropy, `ledger, `anchors
      ensures Inv() && Quiet()
      ensures SameVault()
      ensures Anchor(anchors, LockoutGeneration) == Anchor(old(anchors), LockoutGeneration)
      ensures old(Intact()) ==> Intact()
      ensures r == Err(Stopped) ==> session.None?
      ensures r.Ok? <==> Committed()
      ensures r.Ok? ==> generation < MAX_GENERATION
      ensures r.Ok? ==>
        && session == old(session)
        && Block() == OpenLockout(ledger.mek, env)
        && ledger.generations == old(ledger).generations + [kept]
        && Contents() == Secrets(kept)
        && Anchor(anchors, Generation) == Some(generation + 1)
        && disk.Holds? && disk.envelope == env.(header := disk.envelope.header)
        && OpenAndVerifyHeader(ledger.dek, disk.envelope) == Ok(generation + 1)
      ensures r.Err? ==> disk == old(disk)
      ensures r.Err? ==>
        || (ledger == old(ledger) && anchors == old(anchors))
        || (Contents() == Secrets(kept) && Unreadable())
      ensures old(faults) == [] && generation < MAX_GENERATION ==> r.Ok?
    {
      hide LedgerOk, ThrottleOk, ItemOk, SlotsOk, NoncesOk;
      if generation >= MAX_GENERATION {
        return Err(Corrupt);
      }
      var item :- SealNextHeader(dataKey, env, generation, kept);
      r := SaveEnvelope(env.(header := item));
    }

    /** The counter can still be advanced. */
    ghost predicate RoomLeft()
      reads this
    {
      |ledger.generations| <= MAX_GENERATION
    }

    method SealSlot(dataKey: Key, secret: Plain, slot: string) returns (item: Sealed)
      requires Inv() && ledger.generations != [] && dataKey == ledger.dek && !IsReservedDomainTag(slot)
      requires !StartsWithNul(slot)
      modifies `entropy, `ledger
      ensures Inv() && OnlyMorePieces()
      ensures old(Intact()) ==> Intact()
      ensures SlotItemOk(ledger, slot, item) && item.body.plain == secret
    {
      hide LedgerOk, ThrottleOk, ItemOk, SlotsOk, NoncesOk;
      item := Seal(dataKey, secret, Aad(ENVELOPE_VERSION, slot));
      AddSlotPieceOk(ledger, old(entropy), item, Counter());
      ledger := AddPieces(ledger, {item});
    }

    /** The newest generation with one slot stored, on top of an envelope that verifies. */
    method StoreSlot(dataKey: Key, env: Envelope, slot: string, secret: Plain) returns (r: Result<(), Error>)
      requires Inv() && PiecesKnown(env, ledger.known) && env.version == ENVELOPE_VERSION
      requires HoldsUpToLockout(disk, env) && Generation in anchors
      requires ledger.generations != [] && dataKey == ledger.dek
      requires !StartsWithNul(slot) && !IsReservedDomainTag(slot)
      modifies `faults, `session, `disk, `spare, `entropy, `ledger, `anchors
      ensures Inv() && Quiet()
      ensures SameVault()
      ensures Counter() == old(Counter())
      ensures old(Intact()) ==> Intact()
      ensures r == Err(Stopped) ==> session.None?
      ensures r.Ok? <==> Committed()
      ensures r.Ok? ==> old(UpToDate(ledger, anchors, env) && RoomLeft())
      ensures old(faults == [] && UpToDate(ledger, anchors, env) && RoomLeft()) ==> r.Ok?
      ensures r.Ok? ==> session == old(session) && Contents() == old(Contents())[slot := secret]
      ensures if r.Ok? then Block() == OpenLockout(ledger.mek, env) else disk == old(disk)
      ensures r.Err? ==> Contents() == old(Contents()) || (Contents() == old(Contents())[slot := secret] && Unreadable())
      ensures old(Unreadable()) ==> r.Err? && Unreadable()
      ensures old(Healthy() && disk == Holds(env)) ==> Healthy() || (r.Err? && Unreadable())
      ensures old(faults == [] && Healthy() && disk == Holds(env) && RoomLeft()) ==> r.Ok?
    {
      hide LedgerOk, ThrottleOk, ItemOk, SlotsOk, NoncesOk, PiecesKnown;
      hide Secrets, Fingerprint;
      var item := SealSlot(dataKey, secret, slot);
      PiecesStayKnown(env, old(ledger).known, ledger.known);
      assert old(ledger).known + ledger.known == ledger.known;
      var generation :- VerifyNewest(dataKey, env);
      SlotChanged(ledger, entropy, slot, item);
      ghost var slots := ledger.generations[generation];
      HeaderNamesItsGeneration(ledger, entropy, env);
      SlotInserted(env, slots, ledger.known, slot, item);
      r := CommitSlots(dataKey, env.(slots := env.slots[slot := item]), generation, slots[slot := item]);
    }

    /** What a write needs: a name for callers, a live session, and a file that passes the guards. */
    ghost predicate Writable(slot: string, mono: nat)
      reads this
    {
      && !StartsWithNul(slot) && !IsReservedDomainTag(slot) && Live(mono)
      && Block().Ok? && UpToDate(ledger, anchors, disk.envelope) && RoomLeft()
    }

    /** Stores a secret. When it is interrupted after the counter moved, the old envelope can no
        longer be read and the new one was not written: nothing is served. */
    method Put(slot: string, secret: Plain, mono: nat) returns (r: Result<(), Error>)
      requires Inv()
      modifies `faults, `session, `disk, `spare, `entropy, `ledger, `anchors
      ensures Inv()
      ensures SameVault()
      ensures BlockKept()
      ensures Generation !in old(anchors) ==> Generation !in anchors
      ensures old(Intact()) ==> Intact()
      ensures r == Err(Stopped) ==> session.None?
      ensures r.Ok? <==> Committed()
      ensures r.Ok? ==> old(Writable(slot, mono))
      ensures old(faults == [] && Writable(slot, mono)) ==> r.Ok?
      ensures r.Ok? ==> old(Live(mono)) && Contents() == old(Contents())[slot := secret] && Marked()
      ensures r.Err? ==> Contents() == old(Contents()) || (Contents() == old(Contents())[slot := secret] && Unreadable())
      ensures session == old(session) || session.None?
      ensures old(faults) == [] ==>
        session == if StartsWithNul(slot) || IsReservedDomainTag(slot) then old(session) else old(SessionAt(mono))
      ensures old(session.None?) ==> r.Err? && disk == old(disk) && anchors == old(anchors) && ledger == old(ledger)
      ensures old(Unreadable()) ==> r.Err? && Unreadable()
      ensures old(Healthy()) ==> Healthy() || (r.Err? && Unreadable())
      ensures old(faults) == [] ==> faults == []
      ensures old(Healthy() && faults == [] && RoomLeft()) ==>
        && Healthy() && (r.Ok? <==> old(Live(mono)) && !StartsWithNul(slot) && !IsReservedDomainTag(slot))
        && (r.Err? ==> Contents() == old(Contents()))
    {
      hide LedgerOk, ThrottleOk, ItemOk, SlotsOk, NoncesOk, PiecesKnown;
      hide OpenAndVerifyHeader, OpenLockout, Newest, Fingerprint;
      if StartsWithNul(slot) || IsReservedDomainTag(slot) {
        return Err(Io);
      }
      var dataKey :- SessionKey(mono);
      var loaded :- LoadEnvelope();
      var ready :- GuardAnchor(loaded);
      var env := CarryHeal(ready);
      r := StoreSlot(dataKey, env, slot, secret);
    }

    /** The newest generation with one slot removed, on top of an envelope that verifies. */
    method DropSlot(dataKey: Key, env: Envelope, slot: string) returns (r: Result<(), Error>)
      requires Inv() && PiecesKnown(env, ledger.known) && env.version == ENVELOPE_VERSION
      requires HoldsUpToLockout(disk, env) && Generation in anchors
      requires ledger.generations != [] && dataKey == ledger.dek
      requires !StartsWithNul(slot)
      modifies `faults, `session, `disk, `spare, `entropy, `ledger, `anchors
      ensures Inv() && Quiet()
      ensures SameVault()
      ensures Counter() == old(Counter())
      ensures old(Intact()) ==> Intact()
      ensures r == Err(Stopped) ==> session.None?
      ensures r.Ok? <==> Committed()
      ensures r.Ok? ==> old(UpToDate(ledger, anchors, env) && RoomLeft())
      ensures old(faults == [] && UpToDate(ledger, anchors, env) && RoomLeft()) ==> r.Ok?
      ensures r.Ok? ==> session == old(session) && Contents() == old(Contents()) - {slot}
      ensures if r.Ok? then Block() == OpenLockout(ledger.mek, env) else disk == old(disk)
      ensures r.Err? ==> Contents() == old(Contents()) || (Contents() == old(Contents()) - {slot} && Unreadable())
      ensures old(Unreadable()) ==> r.Err? && Unreadable()
      ensures old(Healthy() && disk == Holds(env)) ==> Healthy() || (r.Err? && Unreadable())
      ensures old(faults == [] && Healthy() && disk == Holds(env) && RoomLeft()) ==> r.Ok?
    {
      hide LedgerOk, ThrottleOk, ItemOk, SlotsOk, NoncesOk, PiecesKnown;
      hide Secrets;
      var generation :- VerifyNewest(dataKey, env);
      SlotRemoved(ledger, entropy, slot);
      ghost var slots := ledger.generations[generation];
      HeaderNamesItsGeneration(ledger, entropy, env);
      SlotDropped(env, slots, ledger.known, slot);
      r := CommitSlots(dataKey, env.(slots := env.slots - {slot}), generation, slots - {slot});
    }

    /** The file is an envelope without this name. */
    predicate Unlisted(slot: string)
      reads this
    {
      disk.Holds? && disk.envelope.version == ENVELOPE_VERSION && slot !in disk.envelope.slots
    }

    /** What a removal needs: only for a name that the file lists are the guards asked. */
    ghost predicate Clearable(slot: string, mono: nat)
      reads this
    {
      && !StartsWithNul(slot) && Live(mono)
      && (Unlisted(slot) || (Block().Ok? && UpToDate(ledger, anchors, disk.envelope) && RoomLeft()))
    }

    /** Removes a secret. A name the presented envelope does not hold is answered `Ok` before
        anything is verified, so an `Ok` removed the newest secret exactly when the envelope had it. */
    method ClearSlot(slot: string, mono: nat) returns (r: Result<(), Error>)
      requires Inv()
      modifies `faults, `session, `disk, `spare, `entropy, `ledger, `anchors
      ensures Inv()
      ensures SameVault()
      ensures BlockKept()
      ensures Generation !in old(anchors) ==> Generation !in anchors
      ensures old(Intact()) ==> Intact()
      ensures r == Err(Stopped) ==> session.None?
      ensures r.Ok? && !old(Unlisted(slot)) <==> Committed()
      ensures r.Ok? ==> old(Clearable(slot, mono))
      ensures old(faults == [] && Clearable(slot, mono)) ==> r.Ok?
      ensures r.Ok? ==> old(Live(mono)) && old(disk.Holds?)
      ensures r.Ok? ==>
        Contents() == if slot in old(disk).envelope.slots then old(Contents()) - {slot} else old(Contents())
      ensures old(faults == [] && Live(mono) && Unlisted(slot)) && !StartsWithNul(slot) ==> r.Ok?
      ensures r.Ok? ==> (slot !in Contents() <==> slot in old(disk).envelope.slots || slot !in old(Contents()))
      ensures r.Err? ==> Contents() == old(Contents()) || (Contents() == old(Contents()) - {slot} && Unreadable())
      ensures session == old(session) || session.None?
      ensures old(faults) == [] ==> session == if StartsWithNul(slot) then old(session) else old(SessionAt(mono))
      ensures old(session.None?) ==> r.Err? && disk == old(disk) && anchors == old(anchors) && ledger == old(ledger)
      ensures old(Unreadable()) ==> Unreadable()
      ensures old(Healthy()) ==> Healthy() || (r.Err? && Unreadable())
      ensures old(faults) == [] ==> faults == []
      ensures old(Healthy() && faults == [] && RoomLeft()) ==>
        && Healthy() && (r.Ok? <==> old(Live(mono)) && !StartsWithNul(slot))
        && Contents() == if r.Ok? then old(Contents()) - {slot} else old(Contents())
    {
      hide LedgerOk, ThrottleOk, ItemOk, SlotsOk, NoncesOk, PiecesKnown;
      hide OpenAndVerifyHeader, OpenLockout, Newest, Fingerprint;
      if StartsWithNul(slot) {
        return Err(Denied);
      }
      var dataKey :- SessionKey(mono);
      var loaded :- LoadEnvelope();
      AbsentFromNewest(ledger, slot);
      if slot !in loaded.slots {
        return Ok(());
      }
      var ready :- GuardAnchor(loaded);
      var env := CarryHeal(ready);
      r := DropSlot(dataKey, env, slot);
    }

    /** The names the disk shows; nothing is verified. */
    method List() returns (r: Result<set<string>, Error>)
      requires Inv()
      modifies `faults, `session
      ensures Inv() && Quiet()
      ensures r.Ok? ==>
        r.value == if disk.Holds? then set name | name in disk.envelope.slots && !StartsWithNul(name) else {}
      ensures old(Healthy()) ==> Healthy() && (old(faults) == [] ==> r == Ok(Contents().Keys))
      ensures r == Err(Stopped) ==> session.None?
    {
      hide LedgerOk, ThrottleOk, ItemOk, SlotsOk, NoncesOk, PiecesKnown;
      if disk.Absent? {
        return Ok({});
      }
      var env :- LoadEnvelope();
      return Ok(set name | name in env.slots && !StartsWithNul(name));
    }

    // --- init --------------------------------------------------------------------

    /** Mints the master key; an existing one is never replaced. */
    method MintMasterKey() returns (r: Result<Key, Error>)
      modifies `faults, `session, `master, `entropy
      ensures Quiet()
      ensures r.Ok? ==>
        old(master).None? && master == Some(r.value) && r.value == Minted(old(entropy)) && session == old(session)
      ensures r.Err? ==> master == old(master) && (old(faults) != [] || old(master).Some?)
      ensures entropy >= old(entropy)
      ensures r.Ok? ==> entropy == old(entropy) + 1
      ensures r == Err(Stopped) ==> session.None?
    {
      var looked := Step();
      if looked.Failed? {
        return Err(KeyringUnavailable);
      } else if looked.Stop? {
        return Err(Stopped);
      }
      if master.Some? {
        return Err(Corrupt);
      }
      var key := Minted(entropy);
      entropy := entropy + 1;
      var stored := Step();
      match stored
      case Done =>
        master := Some(key);
        return Ok(key);
      case Failed => return Err(KeyringUnavailable);
      case Stop => return Err(Stopped);
    }

    /** Draws the salt and the data key and seals the envelope of generation 0. */
    method SealFirstEnvelope(mek: Key, passphrase: string) returns (env: Envelope)
      requires ledger.generations == [] && mek.Minted? && mek.id < entropy && session.None?
      requires disk.Absent? && master == Some(mek)
      modifies `entropy, `kdfInvocations, `ledger
      ensures Inv() && PiecesKnown(env, ledger.known)
      ensures |ledger.generations| == 1 && Contents() == map[] && ledger.passphrase == passphrase
      ensures env.salt == ledger.salt && env.slots == ledger.generations[0]
      ensures Unseal(Combined(mek, passphrase, env.salt), env.wrappedDk, Aad(ENVELOPE_VERSION, WRAPPED_DK)) == Ok(KeyBytes(ledger.dek))
      ensures ledger.mek == mek && Intact()
      ensures env.version == ENVELOPE_VERSION && OpenAndVerifyHeader(ledger.dek, env) == Ok(0)
      ensures OpenLockout(ledger.mek, env) == Ok(LockoutState(0, None, 0, Some(true))) && CurrentThrottle() == Throttle(0, None)
    {
      hide LedgerOk, ThrottleOk, ItemOk, SlotsOk, NoncesOk, Newest;
      var salt := entropy;
      var dek := Minted(entropy + 1);
      entropy := entropy + 2;
      kdfInvocations := kdfInvocations + 1;
      var wrapKey := Combined(mek, passphrase, salt);
      var wrappedDk := Seal(wrapKey, KeyBytes(dek), Aad(ENVELOPE_VERSION, WRAPPED_DK));
      var check := Seal(dek, CheckText, Aad(ENVELOPE_VERSION, CHECK_SLOT));
      var slots := map[CHECK_SLOT := check];
      var header := Seal(dek, HeaderJson(Header(0, Fingerprint(slots))), Aad(ENVELOPE_VERSION, HEADER));
      var lockout := Seal(mek, LockoutJson(NO_FAILURES.(anchorInitialized := Some(true))), Aad(ENVELOPE_VERSION, LOCKOUT));
      env := Envelope(ENVELOPE_VERSION, salt, wrappedDk, header, lockout, slots);
      ledger := Ledger(mek, dek, passphrase, salt, {wrappedDk, check, header, lockout}, [slots], 0, None);
      FirstGenerationOk(ledger, wrappedDk, check, header, lockout, entropy - 4, Counter());
    }

    /** Writes the first envelope, then makes sure that the generation counter is there. */
    method EstablishVault(mek: Key, passphrase: string) returns (r: Result<(), Error>)
      requires ledger.generations == [] && mek.Minted? && mek.id < entropy && session.None?
      requires disk.Absent? && master == Some(mek)
      modifies `faults, `session, `entropy, `kdfInvocations, `disk, `spare, `ledger, `anchors
      ensures Inv() && Quiet() && session.None?
      ensures Intact() && Contents() == map[] && ledger.passphrase == passphrase
      ensures |ledger.generations| == 1 && CurrentThrottle() == Throttle(0, None)
      ensures r.Ok? ==> disk.Holds? && if NoLeftovers(old(anchors)) then Healthy() && !Dead() else Dead() && !Healthy()
      ensures r.Err? ==> old(faults) != [] && (disk == old(disk) || Healthy() || Dead())
    {
      hide LedgerOk, ThrottleOk, ItemOk, SlotsOk, NoncesOk, PiecesKnown;
      var env := SealFirstEnvelope(mek, passphrase);
      var _ :- SaveEnvelope(env);
      r := SeedAnchor(Generation, 0);
    }

    /** Creates a vault. It is usable at once exactly when no counter of an earlier vault is left
        above zero; otherwise it is dead from the start. */
    method Init(passphrase: string) returns (r: Result<(), Error>)
      requires Inv()
      modifies `faults, `session, `master, `entropy, `kdfInvocations, `disk, `spare, `ledger, `anchors
      ensures Inv() && Quiet()
      ensures old(ledger).known <= ledger.known
      ensures Contents() == old(Contents())
      ensures r.Ok? ==>
        old(disk.Absent? && master.None?) && disk.Holds? && Contents() == map[] && ledger.passphrase == passphrase
      ensures r.Ok? ==> |ledger.generations| == 1 && CurrentThrottle() == Throttle(0, None)
      ensures old(Intact()) ==> Intact()
      ensures r.Ok? ==> Intact() && session.None? && master.Some?
      ensures r.Ok? ==> if NoLeftovers(old(anchors)) then Healthy() && !Dead() else Dead() && !Healthy()
      ensures r == Err(Stopped) ==> session.None?
      ensures r.Err? ==> disk == old(disk) || Healthy() || Dead()
      ensures old(master.Some?) ==>
        r.Err? && master == old(master) && disk == old(disk) && ledger == old(ledger) && anchors == old(anchors)
      ensures old(disk.Absent? && master.None? && faults == []) ==> r.Ok?
    {
      hide LedgerOk, ThrottleOk, ItemOk, SlotsOk, NoncesOk, PiecesKnown;
      hide Vault.Block, Vault.Dead, Vault.Healthy, OpenAndVerifyHeader;
      if !disk.Absent? {
        return Err(Io);
      }
      var minted := MintMasterKey();
      LaterEntropyOk(ledger, old(entropy), entropy);
      var mek :- minted;
      r := EstablishVault(mek, passphrase);
    }

    // --- what happens between operations -------------------------------------------

    /** The process ends; a new one meets new conditions. */
    method Restart(faults: seq<Outcome>)
      requires Inv()
      modifies `session, `faults
      ensures Inv() && session.None? && this.faults == faults
    {
      session := None;
      this.faults := faults;
    }

    /** The file is replaced by anything made of known pieces and of bytes nobody sealed. */
    method ReplaceDisk(replacement: Disk)
      requires Inv() && DiskKnown(replacement, ledger.known)
      modifies `disk
      ensures Inv() && disk == replacement
    {
      disk := replacement;
    }

    /** The generation counter disappears from the keyring. */
    method LoseGenerationAnchor()
      requires Inv()
      modifies `anchors
      ensures Inv() && Generation !in anchors && Counter() == old(Counter())
      ensures Unreadable()
    {
      anchors := anchors - {Generation};
    }

    /** The lockout counter disappears from the keyring. */
    method LoseLockoutAnchor()
      requires Inv()
      modifies `anchors
      ensures Inv() && Counter() == 0 && Anchor(anchors, Generation) == Anchor(old(anchors), Generation)
    {
      anchors := anchors - {LockoutGeneration};
    }
  }
}
