/** The vault in calm runs (it is a plain map behind a passphrase) and under guessing (the cooloff
    bounds the trials, whatever lockout block the disk presents). */
module CustodyThrottle {
  import opened Common
  import opened Sealing
  import opened CustodyLedger
  import opened CustodyVault
  import opened CustodyRuns

  // --- calm runs ----------------------------------------------------------------------

  /** What a caller may rely on: a map of secrets, a passphrase, a session and a throttle. */
  datatype Plainly = Plainly(
    secrets: map<string, Plain>, passphrase: string, unlockedAt: Option<nat>, autolockMs: nat, throttle: Throttle)

  datatype Calm =
    | CalmUnlock(passphrase: string, mono: nat, nowCheckMs: nat, nowFailMs: nat)
    | CalmLock
    | CalmPut(slot: string, secret: Plain, mono: nat)
    | CalmGet(slot: string, mono: nat)
    | CalmClear(slot: string, mono: nat)
    | CalmList
    | CalmRestart

  datatype Reply = Answer(ok: bool) | Secret(value: Option<Plain>) | Names(names: set<string>)

  predicate Unlocked(p: Plainly, mono: nat) {
    p.unlockedAt.Some? && (p.autolockMs == 0 || mono < p.unlockedAt.value + p.autolockMs)
  }

  function Touched(p: Plainly, mono: nat): Plainly {
    if Unlocked(p, mono) then p else p.(unlockedAt := None)
  }

  /** Names that cannot be read or cleared, and those that cannot be stored either. */
  predicate IsHidden(name: string) {
    "\0" <= name
  }

  predicate IsRefused(name: string) {
    IsHidden(name) || name in {"wrapped_dk", "header", "lockout"}
  }

  function Next(p: Plainly, c: Calm): (Plainly, Reply) {
    match c
    case CalmUnlock(passphrase, mono, nowCheckMs, nowFailMs) =>
      if !Admits(p.throttle, nowCheckMs) then (p, Answer(false))
      else if passphrase == p.passphrase then
        (p.(unlockedAt := Some(mono), throttle := Throttle(0, None)), Answer(true))
      else (p.(throttle := AfterFailure(p.throttle, nowFailMs)), Answer(false))
    case CalmLock => (p.(unlockedAt := None), Answer(true))
    case CalmPut(slot, secret, mono) =>
      if IsRefused(slot) then (p, Answer(false))
      else if Unlocked(p, mono) then (p.(secrets := p.secrets[slot := secret]), Answer(true))
      else (Touched(p, mono), Answer(false))
    case CalmGet(slot, mono) =>
      if IsHidden(slot) then (p, Secret(None))
      else (Touched(p, mono), Secret(if Unlocked(p, mono) && slot in p.secrets then Some(p.secrets[slot]) else None))
    case CalmClear(slot, mono) =>
      if IsHidden(slot) then (p, Answer(false))
      else if Unlocked(p, mono) then (p.(secrets := p.secrets - {slot}), Answer(true))
      else (Touched(p, mono), Answer(false))
    case CalmList => (p, Names(p.secrets.Keys))
    case CalmRestart => (p.(unlockedAt := None), Answer(true))
  }

  function Replies(p: Plainly, script: seq<Calm>): seq<Reply>
    decreases |script|
  {
    if script == [] then [] else [Next(p, script[0]).1] + Replies(Next(p, script[0]).0, script[1..])
  }

  ghost function View(v: Vault): Plainly
    reads v
  {
    Plainly(
      v.Contents(), v.ledger.passphrase,
      if v.session.Some? then Some(v.session.value.unlockedAt) else None,
      v.autolockMs, v.CurrentThrottle())
  }

  /** One calm step: no faults, the disk left alone. */
  method CalmStep(v: Vault, c: Calm) returns (reply: Reply)
    requires v.Inv() && v.Healthy() && v.faults == [] && v.RoomLeft()
    modifies v
    ensures v.Inv() && v.Healthy() && v.faults == []
    ensures |v.ledger.generations| <= old(|v.ledger.generations|) + 1
    ensures View(v) == Next(old(View(v)), c).0 && reply == Next(old(View(v)), c).1
  {
    hide LedgerOk, ThrottleOk, PiecesKnown, Newest, InStep, LockoutInStep;
    match c {
      case CalmUnlock(passphrase, mono, nowCheckMs, nowFailMs) =>
        var r := v.Unlock(passphrase, mono, nowCheckMs, nowFailMs);
        reply := Answer(r.Ok?);
      case CalmLock =>
        v.Lock();
        reply := Answer(true);
      case CalmPut(slot, secret, mono) =>
        var r := v.Put(slot, secret, mono);
        reply := Answer(r.Ok?);
      case CalmGet(slot, mono) =>
        var r := v.ReadSlot(slot, mono);
        reply := Secret(if r.Ok? then Some(r.value) else None);
      case CalmClear(slot, mono) =>
        var r := v.ClearSlot(slot, mono);
        reply := Answer(r.Ok?);
      case CalmList =>
        var r := v.List();
        reply := Names(if r.Ok? then r.value else {});
      case CalmRestart =>
        v.Restart([]);
        reply := Answer(true);
    }
  }

  function Later(p: Plainly, script: seq<Calm>): Plainly
    decreases |script|
  {
    if script == [] then p else Later(Next(p, script[0]).0, script[1..])
  }

  lemma {:induction false} RepliesExtend(p: Plainly, script: seq<Calm>, c: Calm)
    ensures Later(p, script + [c]) == Next(Later(p, script), c).0
    ensures Replies(p, script + [c]) == Replies(p, script) + [Next(Later(p, script), c).1]
    decreases |script|
  {
    if script == [] {
      assert [c][1..] == [];
    } else {
      assert (script + [c])[1..] == script[1..] + [c];
      RepliesExtend(Next(p, script[0]).0, script[1..], c);
    }
  }

  /** A calm run answers exactly like the plain map. */
  method CalmRun(v: Vault, script: seq<Calm>) returns (replies: seq<Reply>)
    requires v.Inv() && v.Healthy() && v.faults == []
    requires |v.ledger.generations| + |script| <= MAX_GENERATION
    modifies v
    ensures v.Inv() && v.Healthy()
    ensures replies == Replies(old(View(v)), script) && View(v) == Later(old(View(v)), script)
  {
    hide LedgerOk, ThrottleOk, PiecesKnown, Newest, InStep, LockoutInStep;
    replies := [];
    for i := 0 to |script|
      invariant v.Inv() && v.Healthy() && v.faults == []
      invariant |v.ledger.generations| + |script| - i <= MAX_GENERATION
      invariant replies == Replies(old(View(v)), script[..i]) && View(v) == Later(old(View(v)), script[..i])
    {
      var reply := CalmStep(v, script[i]);
      RepliesExtend(old(View(v)), script[..i], script[i]);
      assert script[..i + 1] == script[..i] + [script[i]];
      replies := replies + [reply];
    }
    assert script[..|script|] == script;
  }

  // --- the throttle as its answers show it ------------------------------------------------

  datatype Try = Try(passphrase: string, mono: nat, checkedMs: nat, endedMs: nat)

  /** Nothing is counted against the next unlock: no failure since the last success, or a cooloff
      that is over when it looks. */
  ghost predicate StartsAfresh(v: Vault, checkedMs: nat)
    reads v
  {
    v.CurrentThrottle() == Throttle(0, None)
    || (v.CurrentThrottle().lockedUntilMs.Some? && v.CurrentThrottle().lockedUntilMs.value <= checkedMs)
  }

  /** Wrong passphrases are denied, five of them in a row. After fewer than five the next guess is
      decided by its passphrase alone. After five every guess is refused, whatever its passphrase,
      until five minutes after the fifth ended, and the next one that looks later is decided by its
      passphrase again; what was refused meanwhile neither counts nor prolongs it. */
  method FiveWrongThenWait(v: Vault, wrong: seq<Try>, meanwhile: seq<Try>, next: Try)
    returns (denied: seq<Result<(), Error>>, refused: seq<Result<(), Error>>, r: Result<(), Error>)
    requires v.Inv() && v.Healthy() && v.faults == []
    requires StartsAfresh(v, if wrong == [] then next.checkedMs else wrong[0].checkedMs)
    requires |wrong| <= 5 && forall i :: 0 <= i < |wrong| ==> wrong[i].passphrase != v.ledger.passphrase
    requires |wrong| < 5 ==> meanwhile == []
    requires forall i :: 0 <= i < |meanwhile| ==> meanwhile[i].checkedMs < wrong[4].endedMs + 300_000
    modifies v
    ensures v.Inv() && v.Healthy() && v.faults == [] && v.ledger.passphrase == old(v.ledger.passphrase)
    ensures |denied| == |wrong| && forall i :: 0 <= i < |denied| ==> denied[i] == Err(Denied)
    ensures |refused| == |meanwhile| && forall i :: 0 <= i < |refused| ==> refused[i] == Err(LockedOut)
    ensures
      if |wrong| == 5 && next.checkedMs < wrong[4].endedMs + 300_000 then r == Err(LockedOut)
      else if next.passphrase == v.ledger.passphrase then r.Ok?
      else r == Err(Denied)
    ensures r.Ok? ==> forall now: nat :: StartsAfresh(v, now)
  {
    hide LedgerOk, ThrottleOk, PiecesKnown, Newest, InStep, LockoutInStep;
    denied := [];
    for i := 0 to |wrong|
      invariant v.Inv() && v.Healthy() && v.faults == [] && v.ledger.passphrase == old(v.ledger.passphrase)
      invariant |denied| == i && forall k :: 0 <= k < i ==> denied[k] == Err(Denied)
      invariant i == 0 ==> v.CurrentThrottle() == old(v.CurrentThrottle())
      invariant i > 0 ==> v.CurrentThrottle() == Throttle(i, if i == 5 then Some(wrong[4].endedMs + 300_000) else None)
    {
      var answer := v.Unlock(wrong[i].passphrase, wrong[i].mono, wrong[i].checkedMs, wrong[i].endedMs);
      denied := denied + [answer];
    }
    refused := [];
    ghost var locked := v.CurrentThrottle();
    for i := 0 to |meanwhile|
      invariant v.Inv() && v.Healthy() && v.faults == [] && v.ledger.passphrase == old(v.ledger.passphrase)
      invariant |refused| == i && forall k :: 0 <= k < i ==> refused[k] == Err(LockedOut)
      invariant v.CurrentThrottle() == locked
    {
      var answer := v.Unlock(meanwhile[i].passphrase, meanwhile[i].mono, meanwhile[i].checkedMs, meanwhile[i].endedMs);
      refused := refused + [answer];
    }
    r := v.Unlock(next.passphrase, next.mono, next.checkedMs, next.endedMs);
  }

  // --- guessing -----------------------------------------------------------------------

  /** A failed unlock attempt: when it looked at the cooloff, when it ended, and whether it got as
      far as a passphrase trial. */
  datatype Attempt = Attempt(checkedMs: nat, endedMs: nat, tried: bool)

  predicate Obeys(before: Throttle, a: Attempt, after: Throttle) {
    if a.tried then Admits(before, a.checkedMs) && after == AfterFailure(before, a.endedMs) else after == before
  }

  ghost predicate Throttled(attempts: seq<Attempt>, throttles: seq<Throttle>) {
    && |throttles| == |attempts| + 1
    && forall k :: 0 <= k < |attempts| ==> Obeys(throttles[k], attempts[k], throttles[k + 1])
  }

  function Trials(attempts: seq<Attempt>): nat {
    if attempts == [] then 0 else (if attempts[0].tried then 1 else 0) + Trials(attempts[1..])
  }

  /** All attempts look at the cooloff by `end`, and none ends a cooloff before it. */
  ghost predicate WithinCooloff(attempts: seq<Attempt>, end: nat) {
    forall k :: 0 <= k < |attempts| ==> attempts[k].checkedMs <= end < attempts[k].endedMs + LOCKOUT_COOLOFF_MS
  }

  /** The trials a throttle still allows up to `end`. */
  function Allowance(t: Throttle, end: nat): nat {
    if t.lockedUntilMs.Some? then (if end < t.lockedUntilMs.value then 0 else MAX_ATTEMPTS)
    else if t.failures < MAX_ATTEMPTS then MAX_ATTEMPTS - t.failures
    else 1
  }

  lemma {:induction false} TrialsWithinAllowance(attempts: seq<Attempt>, throttles: seq<Throttle>, end: nat)
    requires Throttled(attempts, throttles) && WithinCooloff(attempts, end)
    ensures Trials(attempts) <= Allowance(throttles[0], end)
  {
    if attempts != [] {
      assert WithinCooloff(attempts[1..], end);
      assert Obeys(throttles[0], attempts[0], throttles[1]);
      forall k | 0 <= k < |attempts| - 1 ensures Obeys(throttles[1..][k], attempts[1..][k], throttles[1..][k + 1]) {
        assert Obeys(throttles[k + 1], attempts[k + 1], throttles[k + 2]);
      }
      TrialsWithinAllowance(attempts[1..], throttles[1..], end);
    }
  }

  /** The clock is not set back, and the last attempt looks at the cooloff less than its length
      after the first one ended. */
  ghost predicate Brief(attempts: seq<Attempt>) {
    && (forall k :: 0 <= k < |attempts| ==> attempts[k].checkedMs <= attempts[k].endedMs)
    && (forall j, k :: 0 <= j < k < |attempts| ==> attempts[j].endedMs <= attempts[k].checkedMs)
    && (attempts != [] ==> attempts[|attempts| - 1].checkedMs < attempts[0].endedMs + LOCKOUT_COOLOFF_MS)
  }

  /** A brief stretch of failed attempts holds at most five trials. */
  lemma AtMostFiveTrials(attempts: seq<Attempt>, throttles: seq<Throttle>)
    requires Throttled(attempts, throttles) && Brief(attempts)
    ensures Trials(attempts) <= MAX_ATTEMPTS
  {
    if attempts != [] {
      TrialsWithinAllowance(attempts, throttles, attempts[|attempts| - 1].checkedMs);
    }
  }

  lemma Untried(throttle: Throttle, a: Attempt)
    requires !a.tried
    ensures Obeys(throttle, a, throttle)
  {
  }

  lemma NoAttempts(throttle: Throttle)
    ensures Throttled([], [throttle]) && Trials([]) == 0 && Guesses([]) == [] && SameClock([], [])
  {
  }

  lemma OneMoreAttempt(attempts: seq<Attempt>, throttles: seq<Throttle>, a: Attempt, next: Throttle)
    requires |throttles| == |attempts| + 1
    ensures Throttled(attempts, throttles) && Obeys(throttles[|attempts|], a, next) ==> Throttled(attempts + [a], throttles + [next])
    ensures Trials(attempts + [a]) == Trials(attempts) + (if a.tried then 1 else 0)
  {
    TrialsAppend(attempts, a);
  }

  /** A guess, or what the surroundings do between two guesses. */
  datatype GuessStep =
    | Guess(passphrase: string, mono: nat, nowCheckMs: nat, nowFailMs: nat)
    | Interference(command: Command)
    | Reopen(faults: seq<Outcome>)

  /** The clock readings of the guesses in a script. */
  function Guesses(script: seq<GuessStep>): seq<Attempt> {
    if script == [] then []
    else
      var before, last := Guesses(script[..|script| - 1]), script[|script| - 1];
      if last.Guess? then before + [Attempt(last.nowCheckMs, last.nowFailMs, true)] else before
  }

  ghost predicate SameClock(attempts: seq<Attempt>, guesses: seq<Attempt>) {
    && |attempts| == |guesses|
    && forall k :: 0 <= k < |attempts| ==>
      attempts[k].checkedMs == guesses[k].checkedMs && attempts[k].endedMs == guesses[k].endedMs
  }

  lemma BriefByTheClock(attempts: seq<Attempt>, guesses: seq<Attempt>)
    requires SameClock(attempts, guesses) && Brief(guesses)
    ensures Brief(attempts)
  {
  }

  lemma SameClockGrows(attempts: seq<Attempt>, guesses: seq<Attempt>, a: Attempt, g: Attempt)
    requires SameClock(attempts, guesses) && a.checkedMs == g.checkedMs && a.endedMs == g.endedMs
    ensures SameClock(attempts + [a], guesses + [g])
  {
  }

  /** One step; the archive grows by the envelope it leaves on disk. */
  method TakeGuessStep(v: Vault, archive: seq<Envelope>, step: GuessStep) returns (entered: bool, archive': seq<Envelope>)
    requires v.Inv() && ArchiveKnown(archive, v.ledger.known)
    requires step.Interference? ==> !LeavesDiskAlone(step.command)
    modifies v
    ensures v.Inv() && ArchiveKnown(archive', v.ledger.known)
    ensures archive' == if v.disk.Holds? then archive + [v.disk.envelope] else archive
    ensures if step.Reopen? then v.faults == step.faults else Mishaps(v.faults) <= Mishaps(old(v.faults))
    ensures !step.Reopen? && old(v.faults) == [] ==> v.faults == []
    ensures entered ==> step.Guess? && step.passphrase == v.ledger.passphrase && v.session.Some?
    ensures (step.Interference? ==> !step.command.DoLoseLockoutCounter?) && old(v.Intact()) ==> v.Intact()
    ensures !step.Guess? ==> v.trials == old(v.trials) && v.CurrentThrottle() == old(v.CurrentThrottle())
    ensures v.trials != old(v.trials) ==>
      v.trials == old(v.trials) + 1 && old(v.Accepted()) && Admits(old(v.Presented()), step.nowCheckMs)
    ensures step.Guess? && old(v.faults == [] && v.Accepted()) && Admits(old(v.Presented()), step.nowCheckMs) ==>
      v.trials == old(v.trials) + 1
    ensures step.Guess? && old(v.Intact()) && !entered ==>
      || Obeys(old(v.CurrentThrottle()), Attempt(step.nowCheckMs, step.nowFailMs, v.trials != old(v.trials)), v.CurrentThrottle())
      || (&& Mishaps(v.faults) < Mishaps(old(v.faults))
          && (step.passphrase != v.ledger.passphrase ==> v.CurrentThrottle() == old(v.CurrentThrottle())))
    ensures v.ledger.mek == old(v.ledger.mek) && v.ledger.passphrase == old(v.ledger.passphrase)
    ensures (step.Interference? ==> !step.command.DoLoseCounter?) ==>
      (Generation in v.anchors <==> old(Generation in v.anchors))
    ensures step.Interference? && step.command.DoLoseLockoutCounter? ==> v.Counter() == 0 && v.disk == old(v.disk)
    ensures step.Interference? && step.command.DoReplace? ==>
      v.disk == Holds(Assemble(archive, step.command.mix)) && v.Counter() == old(v.Counter())
  {
    hide LedgerOk, ThrottleOk, PiecesKnown, Newest, InStep, LockoutInStep;
    entered := false;
    ghost var known := v.ledger.known;
    match step {
      case Guess(passphrase, mono, nowCheckMs, nowFailMs) =>
        v.BlockNamesItsKey();
        var r := v.Unlock(passphrase, mono, nowCheckMs, nowFailMs);
        entered := r.Ok?;
      case Interference(command) => Interfere(v, archive, command);
      case Reopen(faults) => v.Restart(faults);
    }
    ArchiveStaysKnown(archive, known, v.ledger.known);
    archive' := if v.disk.Holds? then archive + [v.disk.envelope] else archive;
  }

  /** How many calls of a run do not take effect: those of the schedule it starts with and of every
      later restart. */
  function Interruptions(faults: seq<Outcome>, script: seq<GuessStep>): nat {
    if script == [] then Mishaps(faults)
    else
      var last := script[|script| - 1];
      Interruptions(faults, script[..|script| - 1]) + if last.Reopen? then Mishaps(last.faults) else 0
  }

  lemma InterruptionsGrow(faults: seq<Outcome>, script: seq<GuessStep>, step: GuessStep)
    ensures Interruptions(faults, script + [step]) ==
      Interruptions(faults, script) + if step.Reopen? then Mishaps(step.faults) else 0
  {
    assert (script + [step])[..|script|] == script;
  }

  lemma {:induction false} FewerInterruptions(faults: seq<Outcome>, script: seq<GuessStep>, i: nat)
    requires i <= |script|
    ensures Interruptions(faults, script[..i]) <= Interruptions(faults, script)
  {
    if i < |script| {
      FewerInterruptions(faults, script[..|script| - 1], i);
      assert script[..|script| - 1][..i] == script[..i];
    } else {
      assert script[..i] == script;
    }
  }

  /** Where every schedule is empty, nothing is interrupted. */
  lemma {:induction false} NothingInterrupted(script: seq<GuessStep>)
    requires forall i :: 0 <= i < |script| && script[i].Reopen? ==> script[i].faults == []
    ensures Interruptions([], script) == 0
  {
    if script != [] {
      NothingInterrupted(script[..|script| - 1]);
    }
  }

  /** Unlock attempts between which the file may be replaced by any mix of pieces it ever held (also
      during this run), deleted or damaged, the generation counter lost and the process restarted,
      with any keyring or disk call failing or being where the process stops. While the lockout
      counter stays in the keyring, a brief run makes at most five passphrase trials, and one more
      for each call that did not take effect: it may leave one trial uncounted. */
  method GuessingRun(v: Vault, initial: seq<Envelope>, script: seq<GuessStep>) returns (entered: bool)
    requires v.Inv() && v.Intact() && ArchiveKnown(initial, v.ledger.known)
    requires forall i :: 0 <= i < |script| && script[i].Interference? ==>
      !LeavesDiskAlone(script[i].command) && !script[i].command.DoLoseLockoutCounter?
    modifies v
    ensures v.Inv() && v.Intact()
    ensures entered ==> v.session.Some? && !AllWrong(script, old(v.ledger.passphrase))
    ensures !entered && Brief(Guesses(script))
            && (Interruptions(old(v.faults), script) == 0 || AllWrong(script, old(v.ledger.passphrase))) ==>
      v.trials <= old(v.trials) + MAX_ATTEMPTS + Interruptions(old(v.faults), script)
  {
    hide LedgerOk, ThrottleOk, PiecesKnown, Newest, InStep, LockoutInStep, AllWrong;
    hide Guesses, Brief, Throttled, Trials, SameClock, Obeys, Mishaps, Interruptions;
    NoAttempts(v.CurrentThrottle());
    NoInterruptions(v.faults);
    ghost var attempts: seq<Attempt>, throttles, start := [], [v.CurrentThrottle()], v.faults;
    ghost var sure := Interruptions(start, script) == 0 || AllWrong(script, v.ledger.passphrase);
    var archive := initial;
    entered := false;
    for i := 0 to |script|
      invariant v.Inv() && v.Intact() && ArchiveKnown(archive, v.ledger.known) && !entered
      invariant v.ledger.passphrase == old(v.ledger.passphrase)
      invariant SameClock(attempts, Guesses(script[..i])) && |throttles| == |attempts| + 1
      invariant Mishaps(v.faults) <= Interruptions(start, script[..i])
      invariant sure ==>
        && Throttled(attempts, throttles) && throttles[|attempts|] == v.CurrentThrottle()
        && v.trials + Mishaps(v.faults) <= old(v.trials) + Trials(attempts) + Interruptions(start, script[..i])
    {
      ghost var trialsBefore, throttle := v.trials, v.CurrentThrottle();
      assert script[..i + 1] == script[..i] + [script[i]];
      OneMoreStep(script[..i], script[i]);
      InterruptionsGrow(start, script[..i], script[i]);
      FewerInterruptions(start, script, i);
      OfStep(script, i, v.ledger.passphrase);
      entered, archive := TakeGuessStep(v, archive, script[i]);
      if entered {
        return;
      }
      if script[i].Guess? {
        ghost var attempt := Attempt(script[i].nowCheckMs, script[i].nowFailMs, v.trials != trialsBefore);
        if !Obeys(throttle, attempt, v.CurrentThrottle()) {
          attempt := attempt.(tried := false);
          Untried(throttle, attempt);
        }
        OneMoreAttempt(attempts, throttles, attempt, v.CurrentThrottle());
        SameClockGrows(attempts, Guesses(script[..i]), attempt, attempt.(tried := true));
        attempts := attempts + [attempt];
        throttles := throttles + [v.CurrentThrottle()];
      }
    }
    assert script[..|script|] == script;
    if Brief(Guesses(script)) && sure {
      BriefByTheClock(attempts, Guesses(script));
      AtMostFiveTrials(attempts, throttles);
    }
  }

  lemma NoInterruptions(faults: seq<Outcome>)
    ensures Interruptions(faults, []) == Mishaps(faults)
  {
  }

  ghost predicate AllWrong(script: seq<GuessStep>, passphrase: string) {
    forall i :: 0 <= i < |script| && script[i].Guess? ==> script[i].passphrase != passphrase
  }

  lemma OfStep(script: seq<GuessStep>, i: nat, passphrase: string)
    requires i < |script|
    ensures AllWrong(script, passphrase) && script[i].Guess? ==> script[i].passphrase != passphrase
  {
  }

  /** The pieces of the first archived envelope, put together again. */
  function FirstAgain(env: Envelope): Mix {
    Mix(
      env.version, env.salt, Taken(0, WrappedDkPart), Taken(0, HeaderPart), Taken(0, LockoutPart),
      map name | name in env.slots :: Taken(0, SlotPart(name)))
  }

  /** Lose the lockout counter, present one old envelope, guess: all at one reading of the clock. */
  function Round(env: Envelope, guess: string, nowMs: nat): seq<GuessStep> {
    [Interference(DoLoseLockoutCounter), Interference(DoReplace(FirstAgain(env))), Guess(guess, 0, nowMs, nowMs)]
  }

  function Rounds(env: Envelope, guess: string, nowMs: nat, n: nat): seq<GuessStep> {
    if n == 0 then [] else Rounds(env, guess, nowMs, n - 1) + Round(env, guess, nowMs)
  }

  /** The lockout counter is what the bound rests on: without it any number of trials fits into one
      cooloff, by presenting the same old envelope before each. */
  method TrialsWithoutTheCounter(v: Vault, guess: string, nowMs: nat, n: nat)
    requires v.Inv() && v.Accepted() && v.faults == []
    requires guess != v.ledger.passphrase && Admits(v.Presented(), nowMs)
    modifies v
    ensures v.Inv() && v.trials == old(v.trials) + n
    ensures |Guesses(Rounds(old(v.disk).envelope, guess, nowMs, n))| == n
    ensures Brief(Guesses(Rounds(old(v.disk).envelope, guess, nowMs, n)))
  {
    hide LedgerOk, ThrottleOk, PiecesKnown, Newest, InStep, LockoutInStep;
    var env := v.disk.envelope;
    var archive := [env];
    var step := Round(env, guess, nowMs);
    for i := 0 to n
      invariant v.Inv() && v.faults == [] && ArchiveKnown(archive, v.ledger.known)
      invariant archive != [] && archive[0] == env && Generation in v.anchors
      invariant v.ledger.mek == old(v.ledger.mek) && v.ledger.passphrase == old(v.ledger.passphrase)
      invariant v.trials == old(v.trials) + i
    {
      var entered;
      entered, archive := TakeGuessStep(v, archive, step[0]);
      assert Assemble(archive, FirstAgain(env)) == env;
      entered, archive := TakeGuessStep(v, archive, step[1]);
      entered, archive := TakeGuessStep(v, archive, step[2]);
    }
    RoundsAreBrief(env, guess, nowMs, n);
  }

  /** Nor does the bound hold for trials the process does not outlive: stopped after each trial and
      before its failure is written, it makes any number of them. */
  method TrialsStoppedUnwritten(v: Vault, guess: string, nowMs: nat, n: nat)
    requires v.Inv() && v.Intact() && v.Accepted() && v.Marked()
    requires guess != v.ledger.passphrase && Admits(v.Presented(), nowMs)
    modifies v
    ensures v.Inv() && v.Intact() && v.trials == old(v.trials) + n
    ensures v.disk == old(v.disk) && v.anchors == old(v.anchors)
  {
    hide LedgerOk, ThrottleOk, PiecesKnown, Newest, InStep, LockoutInStep;
    for i := 0 to n
      invariant v.Inv() && v.Intact() && v.trials == old(v.trials) + i
      invariant v.disk == old(v.disk) && v.anchors == old(v.anchors) && v.ledger == old(v.ledger)
    {
      v.Restart(STOP_AFTER_TRIAL);
      var _ := v.Unlock(guess, 0, nowMs, nowMs);
    }
  }

  lemma OneMoreStep(script: seq<GuessStep>, step: GuessStep)
    ensures Guesses(script + [step]) ==
      if step.Guess? then Guesses(script) + [Attempt(step.nowCheckMs, step.nowFailMs, true)] else Guesses(script)
  {
    assert (script + [step])[..|script|] == script;
  }

  lemma GuessesOfRound(before: seq<GuessStep>, env: Envelope, guess: string, nowMs: nat)
    ensures Guesses(before + Round(env, guess, nowMs)) == Guesses(before) + [Attempt(nowMs, nowMs, true)]
  {
    hide Guesses;
    var step := Round(env, guess, nowMs);
    OneMoreStep(before, step[0]);
    OneMoreStep(before + [step[0]], step[1]);
    OneMoreStep(before + [step[0]] + [step[1]], step[2]);
    assert before + step == before + [step[0]] + [step[1]] + [step[2]];
  }

  /** All guesses of the rounds are made at one reading of the clock. */
  lemma {:induction false} RoundsAreBrief(env: Envelope, guess: string, nowMs: nat, n: nat)
    ensures |Guesses(Rounds(env, guess, nowMs, n))| == n
    ensures forall k :: 0 <= k < n ==> Guesses(Rounds(env, guess, nowMs, n))[k] == Attempt(nowMs, nowMs, true)
    ensures Brief(Guesses(Rounds(env, guess, nowMs, n)))
  {
    if n > 0 {
      RoundsAreBrief(env, guess, nowMs, n - 1);
      GuessesOfRound(Rounds(env, guess, nowMs, n - 1), env, guess, nowMs);
    }
  }

  lemma {:induction false} TrialsAppend(attempts: seq<Attempt>, last: Attempt)
    ensures Trials(attempts + [last]) == Trials(attempts) + (if last.tried then 1 else 0)
  {
    if attempts == [] {
      assert [last][1..] == [];
    } else {
      assert (attempts + [last])[1..] == attempts[1..] + [last];
      TrialsAppend(attempts[1..], last);
    }
  }
}
