/** Whole runs of the vault: any sequence of operations, with the disk exchanged, counters lost,
    input/output failing and the process stopping in between. */
module CustodyRuns {
  import opened Common
  import opened Sealing
  import opened CustodyLedger
  import opened CustodyVault

  // --- mixing pieces of earlier envelopes -----------------------------------------

  datatype Part = WrappedDkPart | HeaderPart | LockoutPart | SlotPart(name: string)

  /** A piece of an archived envelope, or bytes nobody sealed under any nonce. */
  datatype Piece = Taken(from: nat, part: Part) | Junk(nonce: Nonce, id: nat)

  datatype Mix = Mix(
    version: nat, salt: nat, wrappedDk: Piece, header: Piece, lockout: Piece, slots: map<string, Piece>)

  function PartOf(env: Envelope, part: Part): Sealed {
    match part
    case WrappedDkPart => env.wrappedDk
    case HeaderPart => env.header
    case LockoutPart => env.lockout
    case SlotPart(name) => if name in env.slots then env.slots[name] else Sealed(WrongLength(0), Forged(0))
  }

  function Resolve(archive: seq<Envelope>, piece: Piece): Sealed {
    match piece
    case Taken(from, part) => if from < |archive| then PartOf(archive[from], part) else Sealed(WrongLength(0), Forged(0))
    case Junk(nonce, id) => Sealed(nonce, Forged(id))
  }

  function Assemble(archive: seq<Envelope>, mix: Mix): Envelope {
    Envelope(
      mix.version, mix.salt,
      Resolve(archive, mix.wrappedDk), Resolve(archive, mix.header), Resolve(archive, mix.lockout),
      map name | name in mix.slots :: Resolve(archive, mix.slots[name]))
  }

  ghost predicate ArchiveKnown(archive: seq<Envelope>, known: set<Sealed>) {
    forall i :: 0 <= i < |archive| ==> PiecesKnown(archive[i], known)
  }

  lemma MixIsKnown(archive: seq<Envelope>, known: set<Sealed>, mix: Mix)
    requires ArchiveKnown(archive, known)
    ensures PiecesKnown(Assemble(archive, mix), known)
  {
  }

  lemma ArchiveStaysKnown(archive: seq<Envelope>, known: set<Sealed>, known': set<Sealed>)
    requires ArchiveKnown(archive, known) && known <= known'
    ensures ArchiveKnown(archive, known')
  {
  }

  // --- runs ---------------------------------------------------------------------------

  datatype Command =
    | DoInit(passphrase: string)
    | DoUnlock(passphrase: string, mono: nat, nowCheckMs: nat, nowFailMs: nat)
    | DoLock
    | DoPut(slot: string, secret: Plain, mono: nat)
    | DoGet(slot: string, mono: nat)
    | DoClear(slot: string, mono: nat)
    | DoRestart(faults: seq<Outcome>)
    | DoReplace(mix: Mix)
    | DoDeleteFile
    | DoDamageFile
    | DoLoseCounter
    | DoLoseLockoutCounter

  /** What a caller sees. `held` tells whether the file listed the name when it was cleared. */
  datatype Event =
    | PutSeen(slot: string, secret: Plain, ok: bool)
    | GetSeen(slot: string, answer: Option<Plain>)
    | ClearSeen(slot: string, ok: bool, held: bool)
    | UnlockSeen(ok: bool)
    | InitSeen(ok: bool)
    | NothingSeen

  /** How a plain map accounts for an event: a failed write may have taken effect or not. */
  ghost predicate Accounts(before: map<string, Plain>, e: Event, after: map<string, Plain>) {
    match e
    case PutSeen(slot, secret, ok) => after == before[slot := secret] || (!ok && after == before)
    case GetSeen(slot, answer) => after == before && (answer.Some? ==> slot in before && before[slot] == answer.value)
    case ClearSeen(slot, ok, held) =>
      if ok then after == (if held then before - {slot} else before)
      else after == before || after == before - {slot}
    case UnlockSeen(_) => after == before
    case InitSeen(_) => after == before
    case NothingSeen => after == before
  }

  ghost predicate Explained(log: seq<Event>, maps: seq<map<string, Plain>>) {
    && |maps| == |log| + 1
    && forall i :: 0 <= i < |log| ==> Accounts(maps[i], log[i], maps[i + 1])
  }

  /** A command of the vault itself, or an ordinary restart. */
  predicate LeavesDiskAlone(command: Command) {
    && !command.DoReplace? && !command.DoDeleteFile? && !command.DoDamageFile?
    && !command.DoLoseCounter? && !command.DoLoseLockoutCounter?
  }

  ghost predicate Untampered(script: seq<Command>) {
    forall i :: 0 <= i < |script| ==> LeavesDiskAlone(script[i])
  }

  /** Nothing was read, stored or unlocked. */
  predicate GivesNothing(e: Event) {
    && (e.GetSeen? ==> e.answer.None?)
    && (e.PutSeen? ==> !e.ok)
    && (e.UnlockSeen? ==> !e.ok)
  }

  // --- what the vault answered ------------------------------------------------------------

  /** The vault between two commands. */
  datatype Snapshot = Snapshot(
    master: Option<Key>, anchors: map<Account, nat>, disk: Disk, session: Option<Session>, autolockMs: nat,
    faults: seq<Outcome>, ledger: Ledger)

  ghost function Snap(v: Vault): Snapshot
    reads v
  {
    Snapshot(v.master, v.anchors, v.disk, v.session, v.autolockMs, v.faults, v.ledger)
  }

  ghost predicate LiveIn(s: Snapshot, mono: nat) {
    s.session.Some? && (s.autolockMs == 0 || mono < s.session.value.unlockedAt + s.autolockMs)
  }

  ghost function BlockIn(s: Snapshot): Result<LockoutState, Error> {
    if s.disk.Holds? && s.disk.envelope.version == ENVELOPE_VERSION then OpenLockout(s.ledger.mek, s.disk.envelope)
    else Err(Corrupt)
  }

  /** The file passes the guards of every read and write. */
  ghost predicate GuardsPass(s: Snapshot) {
    BlockIn(s).Ok? && UpToDate(s.ledger, s.anchors, s.disk.envelope)
  }

  ghost predicate Unlocks(s: Snapshot, passphrase: string, now: nat) {
    && GuardsPass(s) && OpensWith(s.ledger, s.disk.envelope, passphrase)
    && Anchor(s.anchors, LockoutGeneration).GetOr(0) <= BlockIn(s).value.generation
    && Admits(Throttle(BlockIn(s).value.failures, BlockIn(s).value.lockedUntilMs), now)
  }

  ghost predicate Reads(s: Snapshot, slot: string, mono: nat) {
    !StartsWithNul(slot) && LiveIn(s, mono) && GuardsPass(s) && SlotOpens(s.ledger, s.disk.envelope, slot)
  }

  ghost predicate Writes(s: Snapshot, slot: string, mono: nat) {
    && !StartsWithNul(slot) && !IsReservedDomainTag(slot) && LiveIn(s, mono) && GuardsPass(s)
    && |s.ledger.generations| <= MAX_GENERATION
  }

  predicate Lists(s: Snapshot, slot: string) {
    s.disk.Holds? && slot in s.disk.envelope.slots
  }

  ghost predicate Clears(s: Snapshot, slot: string, mono: nat) {
    && !StartsWithNul(slot) && LiveIn(s, mono)
    && ((s.disk.Holds? && s.disk.envelope.version == ENVELOPE_VERSION && !Lists(s, slot))
        || (GuardsPass(s) && |s.ledger.generations| <= MAX_GENERATION))
  }

  /** A generation was added, and the file is not behind the generation counter. */
  ghost predicate Advanced(s: Snapshot, s': Snapshot) {
    && |s'.ledger.generations| == |s.ledger.generations| + 1
    && s'.disk.Holds? && UpToDate(s'.ledger, s'.anchors, s'.disk.envelope)
  }

  /** `Ok` only when the condition holds, and always then if no call fails. */
  ghost predicate Granted(s: Snapshot, ok: bool, condition: bool) {
    (ok ==> condition) && (s.faults == [] && condition ==> ok)
  }

  /** The event tells what the vault answered to the command. Whatever fails, a write was answered
      `Ok` exactly when it reached the file, and an unlock of a closed vault exactly when the session
      is open. */
  ghost predicate Says(s: Snapshot, c: Command, e: Event, s': Snapshot) {
    match c
    case DoUnlock(passphrase, _, now, _) =>
      && e.UnlockSeen? && Granted(s, e.ok, Unlocks(s, passphrase, now))
      && (s.session.None? ==> (e.ok <==> s'.session.Some?))
    case DoGet(slot, mono) => e.GetSeen? && e.slot == slot && Granted(s, e.answer.Some?, Reads(s, slot, mono))
    case DoPut(slot, secret, mono) =>
      && e.PutSeen? && e.slot == slot && e.secret == secret
      && Granted(s, e.ok, Writes(s, slot, mono)) && (e.ok <==> Advanced(s, s'))
    case DoClear(slot, mono) =>
      && e.ClearSeen? && e.slot == slot && (e.held <==> Lists(s, slot))
      && Granted(s, e.ok, Clears(s, slot, mono)) && (e.held ==> (e.ok <==> Advanced(s, s')))
    case DoInit(_) => e.InitSeen? && Granted(s, e.ok, s.disk.Absent? && s.master.None?)
    case DoLock => e == NothingSeen && s'.session.None?
    case DoRestart(faults) => e == NothingSeen && s'.session.None? && s'.faults == faults
    case _ => e == NothingSeen
  }

  /** Every answer of a run, between the states the vault went through. */
  ghost predicate Told(states: seq<Snapshot>, script: seq<Command>, log: seq<Event>) {
    && |log| == |script| && |states| == |script| + 1
    && forall i :: 0 <= i < |script| ==> Says(states[i], script[i], log[i], states[i + 1])
  }

  ghost predicate AllGiveNothing(log: seq<Event>) {
    forall i :: 0 <= i < |log| ==> GivesNothing(log[i])
  }

  /** The file holds the newest envelope, or an interrupted write left it behind a counter. */
  ghost predicate Orderly(v: Vault)
    reads v
  {
    v.Healthy() || v.Unreadable() || v.Barred()
  }

  /** The generation counter of a vault with a master key is gone. */
  ghost predicate CounterLost(v: Vault)
    reads v
  {
    v.master.Some? && Generation !in v.anchors
  }

  /** Every run of the vault is explained by a plain map from names to secrets, and the log holds
      what the vault answered in each of the states it went through. A dead vault whose
      files are left alone stays dead; a vault without its generation counter gives nothing more,
      whatever file it is shown; and a healthy vault whose files are left alone is, whenever no
      session is open, healthy or dead. */
  method Run(v: Vault, script: seq<Command>)
    returns (log: seq<Event>, ghost maps: seq<map<string, Plain>>, ghost states: seq<Snapshot>)
    requires v.Inv()
    modifies v
    ensures v.Inv() && |log| == |script|
    ensures Told(states, script, log) && states[0] == old(Snap(v)) && states[|script|] == Snap(v)
    ensures Explained(log, maps) && maps[0] == old(v.Contents()) && maps[|log|] == v.Contents()
    ensures forall i :: 0 <= i <= |script| ==> maps[i] == Newest(states[i].ledger)
    ensures old(v.Dead() && v.master.Some?) && Untampered(script) ==> v.Dead() && AllGiveNothing(log)
    ensures old(CounterLost(v)) ==> CounterLost(v) && AllGiveNothing(log)
    ensures old(Orderly(v) && v.master.Some?) && Untampered(script) ==> Orderly(v) && (v.session.None? ==> v.Healthy() || v.Dead())
  {
    hide LedgerOk, ThrottleOk, PiecesKnown, Newest, InStep, LockoutInStep;
    hide UpToDate, OpensWith, SlotOpens;
    log := [];
    maps, states := [v.Contents()], [Snap(v)];
    var archive: seq<Envelope> := [];
    for i := 0 to |script|
      invariant v.Inv() && |log| == i && ArchiveKnown(archive, v.ledger.known)
      invariant Explained(log, maps) && maps[0] == old(v.Contents()) && maps[i] == v.Contents()
      invariant |states| == i + 1 && states[0] == old(Snap(v)) && states[i] == Snap(v)
      invariant forall j :: 0 <= j < i ==> Says(states[j], script[j], log[j], states[j + 1])
      invariant forall j :: 0 <= j <= i ==> maps[j] == Newest(states[j].ledger)
      invariant old(v.master.Some?) ==> v.master.Some?
      invariant old(v.Dead() && v.master.Some?) && Untampered(script) ==> v.Dead() && AllGiveNothing(log)
      invariant old(CounterLost(v)) ==> CounterLost(v) && AllGiveNothing(log)
      invariant old(Orderly(v) && v.master.Some?) && Untampered(script) ==> Orderly(v)
    {
      ghost var knownBefore := v.ledger.known;
      var event := Perform(v, archive, script[i]);
      ArchiveStaysKnown(archive, knownBefore, v.ledger.known);
      log := log + [event];
      maps, states := maps + [v.Contents()], states + [Snap(v)];
      if v.disk.Holds? {
        archive := archive + [v.disk.envelope];
      }
    }
  }

  /** What every command of a run keeps. */
  twostate predicate StepOk(v: Vault, command: Command, event: Event)
    reads v
  {
    && old(v.ledger).known <= v.ledger.known
    && (old(v.master.Some?) ==> v.master.Some?)
    && Says(old(Snap(v)), command, event, Snap(v))
    && Accounts(old(v.Contents()), event, v.Contents())
    && (!GivesNothing(event) ==> v.Marked())
    && (old(v.Dead() && v.master.Some?) && LeavesDiskAlone(command) ==> v.Dead() && GivesNothing(event))
    && (old(CounterLost(v)) ==> CounterLost(v) && GivesNothing(event))
    && (old(Orderly(v) && v.master.Some?) && LeavesDiskAlone(command) ==> Orderly(v))
  }

  /** The words of the vault and of its snapshots agree. */
  lemma SnapshotWords(v: Vault)
    requires v.Inv()
    ensures forall slot, mono: nat :: Reads(Snap(v), slot, mono) <==> v.Readable(slot, mono)
    ensures forall slot, mono: nat :: Writes(Snap(v), slot, mono) <==> v.Writable(slot, mono)
    ensures forall slot, mono: nat :: Clears(Snap(v), slot, mono) <==> v.Clearable(slot, mono)
    ensures forall slot :: Lists(Snap(v), slot) ==> !v.Unlisted(slot)
    ensures forall passphrase, now: nat :: Unlocks(Snap(v), passphrase, now) <==> v.Opens(passphrase, now)
    ensures v.disk.Holds? && UpToDate(v.ledger, v.anchors, v.disk.envelope) <==> !v.Unreadable()
  {
    hide LedgerOk, ThrottleOk, PiecesKnown, OpenLockout, OpenAndVerifyHeader, SlotOpens, OpensWith;
  }

  /** One command of a run. */
  method Perform(v: Vault, archive: seq<Envelope>, command: Command) returns (event: Event)
    requires v.Inv() && ArchiveKnown(archive, v.ledger.known)
    modifies v
    ensures v.Inv() && StepOk(v, command, event)
  {
    hide StepOk, Vault.Inv, ArchiveKnown;
    match command {
      case DoInit(_) => event := PerformInit(v, command);
      case DoUnlock(_, _, _, _) => event := PerformUnlock(v, command);
      case DoPut(_, _, _) => event := PerformPut(v, command);
      case DoGet(_, _) => event := PerformGet(v, command);
      case DoClear(_, _) => event := PerformClear(v, command);
      case _ => event := PerformAside(v, archive, command);
    }
  }

  method PerformInit(v: Vault, command: Command) returns (event: Event)
    requires v.Inv() && command.DoInit?
    modifies v
    ensures v.Inv() && StepOk(v, command, event)
  {
    hide LedgerOk, ThrottleOk, PiecesKnown, Newest, InStep, LockoutInStep, UpToDate, OpensWith, SlotOpens;
    hide Reads, Writes, Clears, Unlocks, Vault.Readable, Vault.Writable, Vault.Clearable, Vault.Opens;
    SnapshotWords(v);
    var r := v.Init(command.passphrase);
    event := InitSeen(r.Ok?);
    SnapshotWords(v);
  }

  method PerformUnlock(v: Vault, command: Command) returns (event: Event)
    requires v.Inv() && command.DoUnlock?
    modifies v
    ensures v.Inv() && StepOk(v, command, event)
  {
    hide LedgerOk, ThrottleOk, PiecesKnown, Newest, InStep, LockoutInStep, UpToDate, OpensWith, SlotOpens;
    hide Reads, Writes, Clears, Unlocks, Vault.Readable, Vault.Writable, Vault.Clearable, Vault.Opens;
    SnapshotWords(v);
    var r := v.Unlock(command.passphrase, command.mono, command.nowCheckMs, command.nowFailMs);
    event := UnlockSeen(r.Ok?);
    SnapshotWords(v);
  }

  method PerformPut(v: Vault, command: Command) returns (event: Event)
    requires v.Inv() && command.DoPut?
    modifies v
    ensures v.Inv() && StepOk(v, command, event)
  {
    hide LedgerOk, ThrottleOk, PiecesKnown, Newest, InStep, LockoutInStep, UpToDate, OpensWith, SlotOpens;
    hide Reads, Writes, Clears, Unlocks, Vault.Readable, Vault.Writable, Vault.Clearable, Vault.Opens;
    SnapshotWords(v);
    var r := v.Put(command.slot, command.secret, command.mono);
    event := PutSeen(command.slot, command.secret, r.Ok?);
    SnapshotWords(v);
  }

  method PerformGet(v: Vault, command: Command) returns (event: Event)
    requires v.Inv() && command.DoGet?
    modifies v
    ensures v.Inv() && StepOk(v, command, event)
  {
    hide LedgerOk, ThrottleOk, PiecesKnown, Newest, InStep, LockoutInStep, UpToDate, OpensWith, SlotOpens;
    hide Reads, Writes, Clears, Unlocks, Vault.Readable, Vault.Writable, Vault.Clearable, Vault.Opens;
    SnapshotWords(v);
    var r := v.ReadSlot(command.slot, command.mono);
    event := GetSeen(command.slot, if r.Ok? then Some(r.value) else None);
    SnapshotWords(v);
  }

  method PerformClear(v: Vault, command: Command) returns (event: Event)
    requires v.Inv() && command.DoClear?
    modifies v
    ensures v.Inv() && StepOk(v, command, event)
  {
    hide LedgerOk, ThrottleOk, PiecesKnown, Newest, InStep, LockoutInStep, UpToDate, OpensWith, SlotOpens;
    hide Reads, Writes, Clears, Unlocks, Vault.Readable, Vault.Writable, Vault.Clearable, Vault.Opens;
    SnapshotWords(v);
    var held := v.disk.Holds? && command.slot in v.disk.envelope.slots;
    var r := v.ClearSlot(command.slot, command.mono);
    event := ClearSeen(command.slot, r.Ok?, held);
    SnapshotWords(v);
  }

  /** What gives no answer: locking, restarting, and what the surroundings do. */
  method PerformAside(v: Vault, archive: seq<Envelope>, command: Command) returns (event: Event)
    requires v.Inv() && ArchiveKnown(archive, v.ledger.known)
    requires command.DoLock? || command.DoRestart? || !LeavesDiskAlone(command)
    modifies v
    ensures v.Inv() && StepOk(v, command, event)
  {
    hide LedgerOk, ThrottleOk, PiecesKnown, Newest, InStep, LockoutInStep, UpToDate, OpensWith, SlotOpens;
    event := NothingSeen;
    match command {
      case DoLock => v.Lock();
      case DoRestart(faults) => v.Restart(faults);
      case _ => Interfere(v, archive, command);
    }
  }

  /** What the surroundings do to the file and the counters. */
  method Interfere(v: Vault, archive: seq<Envelope>, command: Command)
    requires v.Inv() && ArchiveKnown(archive, v.ledger.known) && !LeavesDiskAlone(command)
    modifies v
    ensures v.Inv() && v.ledger == old(v.ledger) && v.session == old(v.session) && v.faults == old(v.faults)
    ensures v.master == old(v.master) && v.trials == old(v.trials)
    ensures old(Generation !in v.anchors) ==> Generation !in v.anchors
    ensures !command.DoLoseCounter? ==> Anchor(v.anchors, Generation) == Anchor(old(v.anchors), Generation)
    ensures v.Counter() == if command.DoLoseLockoutCounter? then 0 else old(v.Counter())
    ensures v.disk == match command
            case DoReplace(mix) => Holds(Assemble(archive, mix))
            case DoDeleteFile => Absent
            case DoDamageFile => Garbage
            case _ => old(v.disk)
  {
    hide LedgerOk, ThrottleOk, PiecesKnown, Newest, InStep, LockoutInStep;
    match command {
      case DoReplace(mix) =>
        MixIsKnown(archive, v.ledger.known, mix);
        v.ReplaceDisk(Holds(Assemble(archive, mix)));
      case DoDeleteFile => v.ReplaceDisk(Absent);
      case DoDamageFile => v.ReplaceDisk(Garbage);
      case DoLoseCounter => v.LoseGenerationAnchor();
      case DoLoseLockoutCounter => v.LoseLockoutAnchor();
    }
  }

  /** The last write that decides what `slot` holds at step `i`. */
  ghost predicate DecidedBy(log: seq<Event>, i: nat, slot: string, secret: Plain, j: int) {
    && 0 <= j < i <= |log|
    && log[j].PutSeen? && log[j].slot == slot && log[j].secret == secret
    && forall k :: j < k < i ==> !Overwrites(log[k], slot)
  }

  /** A write to `slot`, or a removal of it, that was answered `Ok` and took effect. */
  predicate Overwrites(e: Event, slot: string) {
    || (e.PutSeen? && e.slot == slot && e.ok)
    || (e.ClearSeen? && e.slot == slot && e.ok && e.held)
  }

  lemma {:induction false} HeldMeansWritten(log: seq<Event>, maps: seq<map<string, Plain>>, i: nat, slot: string)
    requires Explained(log, maps) && maps[0] == map[] && i <= |log|
    requires slot in maps[i]
    ensures exists j :: DecidedBy(log, i, slot, maps[i][slot], j)
  {
    if i > 0 {
      var before, e := maps[i - 1], log[i - 1];
      assert Accounts(before, e, maps[i]);
      if e.PutSeen? && e.slot == slot && maps[i] == before[slot := e.secret] {
        assert DecidedBy(log, i, slot, maps[i][slot], i - 1);
      } else {
        HeldMeansWritten(log, maps, i - 1, slot);
        var j :| DecidedBy(log, i - 1, slot, before[slot], j);
        assert DecidedBy(log, i, slot, maps[i][slot], j);
      }
    }
  }

  /** In every explained run that starts empty, a value read is the one of the newest put to its
      name: no later put to it was answered `Ok` and no later removal took effect. */
  lemma {:induction false} ReadsAreTheNewestWrite(log: seq<Event>, maps: seq<map<string, Plain>>, i: nat)
    requires Explained(log, maps) && maps[0] == map[]
    requires i < |log| && log[i].GetSeen? && log[i].answer.Some?
    ensures exists j :: DecidedBy(log, i, log[i].slot, log[i].answer.value, j)
  {
    assert Accounts(maps[i], log[i], maps[i + 1]);
    HeldMeansWritten(log, maps, i, log[i].slot);
  }

  /** A new vault, unlocked. */
  method OpenNewVault() returns (v: Vault)
    ensures fresh(v) && v.Inv() && v.Healthy() && v.faults == [] && v.Contents() == map[]
    ensures v.Live(0) && |v.ledger.generations| == 1
  {
    hide LedgerOk, ThrottleOk, PiecesKnown;
    v := new Vault(map[], 0, []);
    var made := v.Init("passphrase");
    var unlocked := v.Unlock("passphrase", 0, 0, 0);
  }

  /** The one answer a replaced file can falsify: show the vault an envelope from before a put, and
      clearing that name is answered `Ok` although the newest secrets keep it. */
  method ClearOnAnOlderFile(secret: Plain) returns (v: Vault, cleared: Result<(), Error>)
    ensures fresh(v) && v.Inv() && cleared.Ok? && v.Contents() == map["wallet" := secret]
  {
    hide LedgerOk, ThrottleOk, PiecesKnown;
    v := OpenNewVault();
    var older := v.disk;
    assert "wallet" !in v.Contents() && !StartsWithNul("wallet");
    assert DiskKnown(older, v.ledger.known) && v.Unlisted("wallet");
    ghost var knownBefore := v.ledger.known;
    var put := v.Put("wallet", secret, 0);
    PiecesStayKnown(older.envelope, knownBefore, v.ledger.known);
    assert knownBefore + v.ledger.known == v.ledger.known;
    v.ReplaceDisk(older);
    cleared := v.ClearSlot("wallet", 0);
  }

  /** A first start beside the counters of a wiped vault. With all of them at zero the new vault is
      healthy; with one above zero it never gives anything as long as its files are left alone: no
      mutation ever carries it past the old counter, because none gets through. */
  method InitOnLeftovers(anchors: map<Account, nat>, autolockMs: nat, passphrase: string, script: seq<Command>)
    returns (v: Vault, made: Result<(), Error>, log: seq<Event>, ghost states: seq<Snapshot>)
    ensures fresh(v) && v.Inv() && made.Ok? && Told(states, script, log)
    ensures Untampered(script) && !NoLeftovers(anchors) ==> v.Dead() && AllGiveNothing(log)
    ensures Untampered(script) && NoLeftovers(anchors) ==> Orderly(v)
  {
    hide LedgerOk, ThrottleOk, PiecesKnown, Newest, InStep, LockoutInStep;
    v := new Vault(anchors, autolockMs, []);
    made := v.Init(passphrase);
    ghost var maps;
    log, maps, states := Run(v, script);
  }

  /** One unlock or one read that is answered marks the lockout block, whatever release wrote it.
      When the generation counter disappears afterwards, the next attempt is refused as corrupt and
      nothing is given any more, whatever file is presented. */
  method CounterLostAfterUse(v: Vault, first: Command, passphrase: string, mono: nat, nowMs: nat, script: seq<Command>)
    returns (used: Event, ghost afterUse: Snapshot, refused: Result<(), Error>, log: seq<Event>, ghost states: seq<Snapshot>)
    requires v.Inv() && v.master.Some? && (first.DoUnlock? || first.DoGet?)
    modifies v
    ensures v.Inv()
    ensures Says(old(Snap(v)), first, used, afterUse)
    ensures !GivesNothing(used) ==> refused == Err(Corrupt)
    ensures refused.Err? && Told(states, script, log) && AllGiveNothing(log)
  {
    hide LedgerOk, ThrottleOk, PiecesKnown, Newest, InStep, LockoutInStep;
    used := Perform(v, [], first);
    afterUse := Snap(v);
    v.Restart([]);
    v.LoseGenerationAnchor();
    refused := v.Unlock(passphrase, mono, nowMs, nowMs);
    ghost var maps;
    log, maps, states := Run(v, script);
  }

  /** A vault of an earlier release is marked by its first unlock. */
  method EarlierVaultIsMarked(passphrase: string, autolockMs: nat, mono: nat, nowMs: nat) returns (v: Vault, before: Envelope)
    ensures fresh(v) && v.Inv() && v.Healthy() && v.session.Some?
    ensures OpenLockout(v.ledger.mek, before) == Ok(NO_FAILURES)
  {
    hide LedgerOk, ThrottleOk, PiecesKnown, Newest;
    v := new Vault.EarlierRelease(passphrase, autolockMs);
    before := v.disk.envelope;
    var unlocked := v.Unlock(passphrase, mono, nowMs, nowMs);
    v.BlockNamesItsKey();
  }
}
