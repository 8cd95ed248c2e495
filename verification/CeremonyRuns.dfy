/** What holds in every run of the ceremony machine, whatever the interleaving. */
module CeremonyRuns {
  import opened Common
  import opened CeremonyChain
  import opened CeremonyBook
  import opened CeremonyStore
  import opened CeremonyMachine

  ghost function After(acts: seq<Act>): State {
    Run(INITIAL, acts)
  }

  lemma AlwaysInv(acts: seq<Act>)
    ensures Inv(After(acts))
  {
    KeepAll({}, WATCHED_IDS_KEPT);
    assert Inv(INITIAL);
    RunInv(INITIAL, acts);
  }

  lemma AlwaysGrounded(acts: seq<Act>, j: nat)
    requires j < |After(acts).log|
    ensures Grounded(After(acts).log[..j], After(acts).log[j])
  {
    hide After, Placed, Backed, Told, BookOk, KeepLargest, Grounded, MayFollow;
    AlwaysInv(acts);
  }

  lemma Earlier(log: seq<Event>, j: nat, e: Event)
    requires j <= |log| && e in log[..j]
    ensures exists i :: 0 <= i < j && log[i] == e
  {
    var i :| 0 <= i < j && log[..j][i] == e;
    assert log[i] == e;
  }

  /** An id yields at most one signature and at most one send, in this order, and nothing follows
      a send or a successful rejection. */
  lemma OneSignatureOneSend(acts: seq<Act>, i: nat, j: nat)
    requires i < j < |After(acts).log| && After(acts).log[i].id == After(acts).log[j].id
    ensures var earlier, later := After(acts).log[i], After(acts).log[j];
      && (later.Signed? ==> earlier.Opened?)
      && (later.Sent? ==> earlier.Opened? || earlier.Signed? || earlier.Parked?)
      && !earlier.Sent? && !earlier.Rejected?
  {
    AlwaysInv(acts);
    assert MayFollow(After(acts).log[i], After(acts).log[j]);
  }

  /** An expiry once observed is final, whatever the wall clock does: the id is neither signed,
      sent nor rejected, before or after. */
  lemma ExpiryIsFinal(acts: seq<Act>, i: nat, j: nat)
    requires i < |After(acts).log| && j < |After(acts).log| && After(acts).log[i].id == After(acts).log[j].id
    requires After(acts).log[i].SeenExpired?
    ensures !After(acts).log[j].Signed? && !After(acts).log[j].Sent? && !After(acts).log[j].Rejected?
  {
    AlwaysInv(acts);
    if i != j {
      var earlier, later := if i < j then i else j, if i < j then j else i;
      assert MayFollow(After(acts).log[earlier], After(acts).log[later]);
    }
  }

  /** Every signature rests on the opening of its request less than the time to live before the
      last check, raw-ack retries included, and commits to no chain but the one shown. */
  lemma SignaturesAreTimelyAndOnChain(acts: seq<Act>, j: nat)
    requires j < |After(acts).log| && After(acts).log[j].Signed?
    ensures var Signed(id, intent, checked, chain) := After(acts).log[j];
      && chain == intent.chainId
      && (exists signerChain :: CommitsOnlyTo(intent, signerChain, chain))
      && exists i :: 0 <= i < j && After(acts).log[i].Opened? && After(acts).log[i].id == id
           && After(acts).log[i].intent == intent
           && checked.mono < After(acts).log[i].created.mono + 15 * 60 * 1000
           && checked.wallMs < After(acts).log[i].created.wallMs + 15 * 60 * 1000
  {
    hide After, CommitsOnlyTo, Elapsed;
    AlwaysGrounded(acts, j);
    var log := After(acts).log;
    var created :| Opened(log[j].id, log[j].intent, created) in log[..j] && Elapsed(created, log[j].checked) < PENDING_TTL_MS;
    Earlier(log, j, Opened(log[j].id, log[j].intent, created));
    ElapsedOnBothClocks(created, log[j].checked, PENDING_TTL_MS);
  }

  /** Every send is of a transaction signed before; a parked one is taken out within its time. */
  lemma SendsAreSignedAndTimely(acts: seq<Act>, j: nat)
    requires j < |After(acts).log| && After(acts).log[j].Sent?
    ensures var Sent(id, tx, parked) := After(acts).log[j];
      && (exists i :: 0 <= i < j && After(acts).log[i].Signed? && After(acts).log[i].id == id && After(acts).log[i].intent == tx)
      && (parked.Some? ==>
            && parked.value.takenAt.mono < parked.value.at.mono + 120 * 1000
            && parked.value.takenAt.wallMs < parked.value.at.wallMs + 120 * 1000
            && exists i :: 0 <= i < j && After(acts).log[i] == Parked(id, parked.value.at))
  {
    hide After, CommitsOnlyTo, Elapsed;
    AlwaysGrounded(acts, j);
    var log := After(acts).log;
    var e :| e in log[..j] && e.Signed? && e.id == log[j].id && e.intent == log[j].tx;
    Earlier(log, j, e);
    if log[j].parked.Some? {
      Earlier(log, j, Parked(log[j].id, log[j].parked.value.at));
      ElapsedOnBothClocks(log[j].parked.value.at, log[j].parked.value.takenAt, PREPARED_TTL_MS);
    }
  }

  /** At any moment an id is pending, held by one call, or parked, and never two of these. */
  lemma OnePlace(acts: seq<Act>, id: nat, t: nat, u: nat)
    ensures var s := After(acts);
      && !(id in s.book.pending && id in s.store)
      && (t in s.calls && Owner(s.calls[t]) == Some(id) ==>
            && id !in s.book.pending && id !in s.store
            && (u in s.calls && Owner(s.calls[u]) == Some(id) ==> u == t))
  {
    AlwaysInv(acts);
    if t in After(acts).calls {
      assert Alone(After(acts), t, After(acts).calls[t]);
    }
  }

  /** The books at any moment: disjoint, bounded, and no signed or rejected id reads as expired. */
  lemma BooksHold(acts: seq<Act>)
    ensures BookOk(After(acts).book)
    ensures forall e :: e in After(acts).log && (e.Signed? || e.Rejected?) ==> !ReadsExpired(After(acts).book, e.id)
  {
    AlwaysInv(acts);
    forall e | e in After(acts).log && (e.Signed? || e.Rejected?)
      ensures !ReadsExpired(After(acts).book, e.id)
    {
      assert Fits(After(acts), e);
    }
  }

  // --- what an approval achieves ---------------------------------------------------------------

  /** The call that makes a step. */
  function Actor(a: Act): Option<nat> {
    if a.AskExpired? then None else Some(a.t)
  }

  ghost predicate OthersOnly(acts: seq<Act>, t: nat) {
    forall i :: 0 <= i < |acts| ==> Actor(acts[i]) != Some(t)
  }

  lemma StepKeepsStage(s: State, a: Act, t: nat)
    requires Actor(a) != Some(t)
    ensures Stage(Apply(s, a), t) == Stage(s, t)
  {
    hide Swept, SweptStore, CommitsOnlyTo, Taking, Without, Remembering, Watching, InOrder;
  }

  /** The steps of other calls do not move a call. */
  lemma {:induction false} OthersKeepStage(s: State, acts: seq<Act>, t: nat)
    requires OthersOnly(acts, t)
    ensures Stage(Run(s, acts), t) == Stage(s, t)
    decreases |acts|
  {
    hide Apply, Stage;
    if acts != [] {
      OthersKeepStage(s, acts[..|acts| - 1], t);
      StepKeepsStage(Run(s, acts[..|acts| - 1]), acts[|acts| - 1], t);
    }
  }

  predicate LiveAt(s: State, key: nat, now: Reading) {
    key in s.book.pending && Within(s.book.pending[key].created, now, PENDING_TTL_MS)
  }

  /** The request an approval finds when it looks at `now`. */
  predicate Approvable(s: State, key: nat, use: Use, rawAck: bool, now: Reading) {
    && LiveAt(s, key, now)
    && (s.book.pending[key].requiresRawAck ==> rawAck)
    && (use.ApproveMessage? ==> s.book.pending[key].intent.kind.PersonalSign?)
  }

  /** At the last check the request is in time and commits to the chain it shows. */
  ghost predicate Signable(pending: Pending, use: Use, signerChain: Option<nat>, now: Reading) {
    && Within(pending.created, now, PENDING_TTL_MS)
    && CommitsOnlyTo(pending.intent, if use.ApproveMessage? then None else signerChain, pending.intent.chainId)
  }

  lemma TakenStage(s: State, t: nat, key: nat, use: Use, rawAck: bool, now: Reading)
    requires Inv(s) && t !in s.calls && s.mono <= now.mono
    ensures Stage(Apply(s, Take(t, key, use, rawAck, now)), t) ==
      if LiveAt(s, key, now) then Some(Taken(key, s.book.pending[key], use, rawAck)) else None
  {
    hide KeepLargest, Orderly, Placed, Backed, Told, BookOk, Swept, Taking, Within;
    LiveIsTaken(s.book, key, now, PENDING_TTL_MS);
  }

  /** The stage an approval is in after taking its request and passing the raw-ack gate. */
  lemma TakenAndAcked(s: State, t: nat, key: nat, use: Use, rawAck: bool, now: Reading, between: seq<Act>)
    requires Inv(s) && t !in s.calls && s.mono <= now.mono && OthersOnly(between, t)
    ensures var acked := Apply(Run(Apply(s, Take(t, key, use, rawAck, now)), between), Gate(t));
      Stage(acked, t) ==
        if LiveAt(s, key, now) && (s.book.pending[key].requiresRawAck ==> rawAck)
        then Some(Acked(key, s.book.pending[key], use))
        else None
  {
    hide Run, Inv, TakeStep, Elapsed;
    TakenStage(s, t, key, use, rawAck, now);
    OthersKeepStage(Apply(s, Take(t, key, use, rawAck, now)), between, t);
  }

  /** An approval signs exactly when its request is pending and in time when it is taken, the raw
      bytes were acknowledged where that is asked for, the request is of the right kind, and the
      last check finds it in time and on the chain shown; what other calls do does not matter. */
  lemma ApprovalSigns(s: State, t: nat, key: nat, use: Use, rawAck: bool, taking: Reading,
                      signerChain: Option<nat>, checking: Reading, b1: seq<Act>, b2: seq<Act>, b3: seq<Act>)
    requires Inv(s) && t !in s.calls && s.mono <= taking.mono
    requires OthersOnly(b1, t) && OthersOnly(b2, t) && OthersOnly(b3, t)
    requires Run(Apply(Run(Apply(s, Take(t, key, use, rawAck, taking)), b1), Gate(t)), b2).mono <= checking.mono
    ensures var acked := Run(Apply(Run(Apply(s, Take(t, key, use, rawAck, taking)), b1), Gate(t)), b2);
      var before := Run(Apply(acked, Check(t, signerChain, checking)), b3);
      var after := Apply(before, Sign(t));
      if Approvable(s, key, use, rawAck, taking) && Signable(s.book.pending[key], use, signerChain, checking)
      then var intent := s.book.pending[key].intent; after.log == before.log + [Signed(key, intent, checking, intent.chainId)]
      else after.log == before.log
  {
    hide Run, Inv, Elapsed, Within, CommitsOnlyTo;
    if key in s.book.pending {
      ElapsedOnBothClocks(s.book.pending[key].created, checking, PENDING_TTL_MS);
    }
    TakenAndAcked(s, t, key, use, rawAck, taking, b1);
    var gated := Apply(Run(Apply(s, Take(t, key, use, rawAck, taking)), b1), Gate(t));
    OthersKeepStage(gated, b2, t);
    var acked := Run(gated, b2);
    OthersKeepStage(Apply(acked, Check(t, signerChain, checking)), b3, t);
  }

  /** A parked transaction that the sweep of its taking finds in time is sent, and no other is. */
  lemma ParkedIsSent(s: State, t: nat, key: nat, sweep: Sweeping, between: seq<Act>)
    requires t !in s.calls && SweepInOrder(s.mono, sweep) && OthersOnly(between, t)
    ensures var before := Run(Apply(s, TakeSigned(t, key, sweep)), between);
      var after := Apply(before, Send(t));
      if key in s.store && s.store[key].LiveSlot? && Within(s.store[key].at, sweep.first(key), PREPARED_TTL_MS)
      then after.log == before.log + [Sent(key, s.store[key].tx, Some(Parking(s.store[key].at, sweep.first(key))))]
      else after.log == before.log
  {
    hide Run, Elapsed, Within;
    if key in s.store && s.store[key].LiveSlot? {
      ElapsedOnBothClocks(s.store[key].at, sweep.first(key), PREPARED_TTL_MS);
    }
    var taken := Apply(s, TakeSigned(t, key, sweep));
    OthersKeepStage(taken, between, t);
  }

  /** What was signed to be sent later is parked, and what was signed to be sent at once is sent. */
  lemma SignedGoesOn(s: State, t: nat, between: seq<Act>, sweep: Sweeping, at: Reading)
    requires t in s.calls && s.calls[t].Cleared? && OthersOnly(between, t)
    ensures var Cleared(id, pending, use, _) := s.calls[t];
      var before := Run(Apply(s, Sign(t)), between);
      && (use.ApproveAndBroadcast? ==> Apply(before, Send(t)).log == before.log + [Sent(id, pending.intent, None)])
      && (use.ApproveAndSign? && InOrder(before, Park(t, sweep, at)) ==>
            var after := Apply(before, Park(t, sweep, at));
            && after.log == before.log + [Parked(id, at)]
            && id in after.store && after.store[id] == LiveSlot(pending.intent, at))
  {
    hide Run, SweptStore;
    OthersKeepStage(Apply(s, Sign(t)), between, t);
  }

  /** A request that is out of time is reported as expired: at its taking when it is remembered, as
      every watched one is, and at the last check always. */
  lemma ExpiredIsReported(s: State, t: nat, key: nat, use: Use, rawAck: bool, now: Reading)
    requires Inv(s) && t !in s.calls && s.mono <= now.mono
    ensures ReadsExpired(Swept(s.book, now, PENDING_TTL_MS), key) ==>
      Apply(s, Take(t, key, use, rawAck, now)).log == s.log + [SeenExpired(key)]
    ensures ReadsExpired(Swept(s.book, now, PENDING_TTL_MS), key) ==>
      Apply(s, AskExpired(key, now)).log == s.log + [SeenExpired(key)]
    ensures key in s.book.pending && !Within(s.book.pending[key].created, now, PENDING_TTL_MS) && key in s.book.watched ==>
      ReadsExpired(Swept(s.book, now, PENDING_TTL_MS), key)
  {
    hide KeepLargest, Within, Orderly, Placed, Backed, Told, BookOk;
    if key in s.book.pending {
      ElapsedOnBothClocks(s.book.pending[key].created, now, PENDING_TTL_MS);
    }
  }

  lemma LateIsReported(s: State, t: nat, signerChain: Option<nat>, now: Reading, between: seq<Act>)
    requires t in s.calls && s.calls[t].Acked? && s.mono <= now.mono && OthersOnly(between, t)
    requires s.calls[t].use.ApproveMessage? ==> s.calls[t].pending.intent.kind.PersonalSign?
    requires !Within(s.calls[t].pending.created, now, PENDING_TTL_MS)
    ensures var before := Run(Apply(s, Check(t, signerChain, now)), between);
      var after := Apply(before, RememberLate(t));
      && after.log == before.log + [SeenExpired(s.calls[t].id)]
      && (s.calls[t].id in before.book.watched ==> ReadsExpired(after.book, s.calls[t].id))
  {
    hide Run, Within, KeepLargest, CommitsOnlyTo;
    ElapsedOnBothClocks(s.calls[t].pending.created, now, PENDING_TTL_MS);
    OthersKeepStage(Apply(s, Check(t, signerChain, now)), between, t);
  }

  // --- opening, refusing and rejecting ---------------------------------------------------------

  /** A request that was opened can be taken: it is pending with its own reading, whatever other
      calls did while it was being opened. */
  lemma OpenedIsPending(s: State, t: nat, intent: Intent, rawAck: bool, watch: bool,
                        b1: seq<Act>, created: Reading, b2: seq<Act>, now: Reading)
    requires t !in s.calls && OthersOnly(b1, t) && OthersOnly(b2, t)
    requires Run(Apply(s, Mint(t, intent, rawAck, watch)), b1).mono <= created.mono
    requires Run(Apply(Run(Apply(s, Mint(t, intent, rawAck, watch)), b1), Stamp(t, created)), b2).mono <= now.mono
    ensures var before := Run(Apply(Run(Apply(s, Mint(t, intent, rawAck, watch)), b1), Stamp(t, created)), b2);
      var after := Apply(before, Insert(t, now));
      && after.log == before.log + [Opened(s.nextId, intent, created)]
      && s.nextId in after.book.pending && after.book.pending[s.nextId] == Pending(intent, rawAck, created)
      && forall later :: LiveAt(after, s.nextId, later) <==> Within(created, later, PENDING_TTL_MS)
  {
    hide Run, Within, Swept;
    var minted := Apply(s, Mint(t, intent, rawAck, watch));
    OthersKeepStage(minted, b1, t);
    OthersKeepStage(Apply(Run(minted, b1), Stamp(t, created)), b2, t);
  }

  /** A request refused for a missing acknowledgement is pending again, with its own deadline. */
  lemma RefusedIsPendingAgain(s: State, t: nat, key: nat, use: Use, now: Reading, between: seq<Act>)
    requires Inv(s) && t !in s.calls && s.mono <= now.mono && OthersOnly(between, t)
    requires LiveAt(s, key, now) && s.book.pending[key].requiresRawAck
    ensures var held := Run(Apply(s, Take(t, key, use, false, now)), between);
      var back := Apply(held, Gate(t));
      && back.log == held.log && t !in back.calls
      && key in back.book.pending && back.book.pending[key] == s.book.pending[key]
      && forall later :: LiveAt(back, key, later) <==> Within(s.book.pending[key].created, later, PENDING_TTL_MS)
  {
    hide Run, Inv, TakeStep, Within;
    TakenStage(s, t, key, use, false, now);
    OthersKeepStage(Apply(s, Take(t, key, use, false, now)), between, t);
  }

  /** Rejecting takes a request out: one that is parked at once, a pending one when it is in time;
      and nothing of the id is pending afterwards. */
  lemma RejectTakesOut(s: State, t: nat, key: nat, sweep: Sweeping, between: seq<Act>, now: Reading)
    requires Inv(s) && t !in s.calls && SweepInOrder(s.mono, sweep) && OthersOnly(between, t)
    requires Run(Apply(s, DiscardParked(t, key, sweep)), between).mono <= now.mono
    ensures var discarded := Apply(s, DiscardParked(t, key, sweep));
      if key in LockStore(s, sweep).store
      then discarded.log == s.log + [Rejected(key)] && key !in discarded.store && key !in discarded.book.pending
      else
        var before := Run(discarded, between);
        var after := Apply(before, RejectPending(t, now));
        && key !in after.book.pending && t !in after.calls
        && if LiveAt(before, key, now) then after.log == before.log + [Rejected(key)]
           else after.log in {before.log, before.log + [SeenExpired(key)]}
  {
    hide Run, Within, Inv, SweptStore, Swept, Taking, LiveAt;
    var discarded := Apply(s, DiscardParked(t, key, sweep));
    LockStoreInv(s, sweep);
    if key in LockStore(s, sweep).store {
      InOnePlace(LockStore(s, sweep), key);
    } else {
      var before := Run(discarded, between);
      StepInv(s, DiscardParked(t, key, sweep));
      RunInv(discarded, between);
      OthersKeepStage(discarded, between, t);
      PendingIsRejected(before, t, key, now);
    }
  }

  lemma PendingIsRejected(s: State, t: nat, key: nat, now: Reading)
    requires Inv(s) && Stage(s, t) == Some(Rejecting(key)) && s.mono <= now.mono
    ensures var after := Apply(s, RejectPending(t, now));
      && key !in after.book.pending && t !in after.calls
      && if LiveAt(s, key, now) then after.log == s.log + [Rejected(key)]
         else after.log in {s.log, s.log + [SeenExpired(key)]}
  {
    hide Run, Within, Swept, Placed, Backed, Told, Orderly, BookOk, KeepLargest;
    LiveIsTaken(s.book, key, now, PENDING_TTL_MS);
    NotTakenIsGone(s.book, key, now);
  }

  lemma InOnePlace(s: State, key: nat)
    requires Inv(s) && key in s.store
    ensures key !in s.book.pending
  {
  }

  lemma NotTakenIsGone(b: BookState, key: nat, now: Reading)
    requires BookOk(b)
    ensures Taking(Swept(b, now, PENDING_TTL_MS), key).Err? ==> key !in Swept(b, now, PENDING_TTL_MS).pending
  {
    SweptOk(b, now, PENDING_TTL_MS);
  }

  // --- the memory of watched ids -------------------------------------------------------------

  /** A watched id that expired: remembered, unless it is no longer among the watched. */
  ghost predicate Settled(s: State, id: nat) {
    id in s.everWatched && (id in s.book.watched ==> id in s.book.expiredWatched)
  }

  ghost predicate KeepsWatched(s: State, s': State) {
    && s.everWatched <= s'.everWatched
    && (forall id: nat :: id in s.book.expiredWatched && id in s'.book.watched ==> id in s'.book.expiredWatched)
  }

  lemma StepKeepsWatched(s: State, a: Act)
    requires Inv(s)
    ensures KeepsWatched(s, Apply(s, a))
  {
    hide KeepLargest, Orderly, BookOk, Placed, Backed, Told, CommitsOnlyTo, SweptStore, Stale;
  }

  lemma AboveGrows(s: set<nat>, s': set<nat>, x: nat)
    requires s <= s'
    ensures |Above(s, x)| <= |Above(s', x)|
  {
    SubsetSize(Above(s, x), Above(s', x));
  }

  lemma {:induction false} StaysSettled(s: State, acts: seq<Act>, id: nat)
    requires Inv(s) && Settled(s, id)
    ensures Settled(Run(s, acts), id)
    decreases |acts|
  {
    if acts != [] {
      var before := Run(s, acts[..|acts| - 1]);
      RunInv(s, acts[..|acts| - 1]);
      StaysSettled(s, acts[..|acts| - 1], id);
      StepInv(before, acts[|acts| - 1]);
      StepKeepsWatched(before, acts[|acts| - 1]);
      AboveGrows(before.everWatched, Run(s, acts).everWatched, id);
    }
  }

  /** A watched id that reads as expired does so for good, until 64 larger ids were watched. */
  lemma WatchedExpiryIsKept(acts: seq<Act>, more: seq<Act>, id: nat)
    requires id in After(acts).book.expiredWatched
    ensures var s := Run(After(acts), more);
      ReadsExpired(s.book, id) || |Above(s.everWatched, id)| >= 64
  {
    AlwaysInv(acts);
    StaysSettled(After(acts), more, id);
    RunInv(After(acts), more);
  }
}
