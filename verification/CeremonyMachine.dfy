/** The signature ceremony as a machine of small steps: any number of concurrent calls, each step
    one section under one lock, one clock reading or one call to the signer or the node. The
    monotonic clock never goes back; the wall clock reads anything. */
module CeremonyMachine {
  import opened Common
  import opened CeremonyChain
  import opened CeremonyBook
  import opened CeremonyStore

  /** What an approval is for: a message, a transaction parked for a later send, or one sent at
      once. */
  datatype Use = ApproveMessage | ApproveAndSign | ApproveAndBroadcast

  /** Where a call in progress stands, and what it holds. */
  datatype Call =
    | Minted(id: nat, intent: Intent, requiresRawAck: bool, watched: bool)
    | Stamped(id: nat, pending: Pending, watched: bool)
    | Taken(id: nat, pending: Pending, use: Use, rawAck: bool)
    | Acked(id: nat, pending: Pending, use: Use)
    | Late(id: nat)
    | Cleared(id: nat, pending: Pending, use: Use, checked: Reading)
    | Holding(id: nat, tx: Intent)
    | Sending(id: nat, tx: Intent, parked: Option<Parking>)
    | Rejecting(key: nat)

  /** When a transaction was parked and when it was taken out again. */
  datatype Parking = Parking(at: Reading, takenAt: Reading)

  datatype Event =
    | Opened(id: nat, intent: Intent, created: Reading)
    | Signed(id: nat, intent: Intent, checked: Reading, chain: nat)
    | Parked(id: nat, at: Reading)
    | Sent(id: nat, tx: Intent, parked: Option<Parking>)
    | Rejected(id: nat)
    | SeenExpired(id: nat)

  datatype State = State(
    book: BookState,
    store: map<nat, Slot<Intent>>,
    calls: map<nat, Call>,
    nextId: nat,
    mono: nat,
    log: seq<Event>,
    everWatched: set<nat>)

  const INITIAL := State(EMPTY_BOOK, map[], map[], 0, 0, [], {})

  datatype Act =
    | Mint(t: nat, intent: Intent, requiresRawAck: bool, watch: bool)
    | Stamp(t: nat, now: Reading)
    | Insert(t: nat, now: Reading)
    | Take(t: nat, key: nat, use: Use, rawAck: bool, now: Reading)
    | Gate(t: nat)
    | Check(t: nat, signerChain: Option<nat>, now: Reading)
    | RememberLate(t: nat)
    | Sign(t: nat)
    | Park(t: nat, sweep: Sweeping, at: Reading)
    | TakeSigned(t: nat, key: nat, sweep: Sweeping)
    | Send(t: nat)
    | GiveUp(t: nat)
    | DiscardParked(t: nat, key: nat, sweep: Sweeping)
    | RejectPending(t: nat, now: Reading)
    | AskExpired(key: nat, now: Reading)

  // --- the steps ------------------------------------------------------------------------

  function Owner(c: Call): Option<nat> {
    if c.Rejecting? then None else Some(c.id)
  }

  /** Lock the book: every expired request leaves it first. */
  function LockBook(s: State, now: Reading): State {
    s.(book := Swept(s.book, now, PENDING_TTL_MS), mono := now.mono)
  }

  /** Lock the store: every signed transaction held too long becomes a tombstone first. */
  function LockStore(s: State, sweep: Sweeping): State {
    s.(store := SweptStore(s.store, sweep), mono := sweep.done)
  }

  function At(s: State, t: nat, c: Call): State {
    s.(calls := s.calls[t := c])
  }

  function Ended(s: State, t: nat): State {
    s.(calls := s.calls - {t})
  }

  function Logged(s: State, e: Event): State {
    s.(log := s.log + [e])
  }

  function Inserted(s: State, id: nat, pending: Pending): State {
    s.(book := s.book.(pending := s.book.pending[id := pending]))
  }

  function Watched(s: State, id: nat, watch: bool): State {
    if watch then s.(book := Watching(s.book, id), everWatched := s.everWatched + {id}) else s
  }

  function Stage(s: State, t: nat): Option<Call> {
    if t in s.calls then Some(s.calls[t]) else None
  }

  function MintStep(s: State, t: nat, intent: Intent, requiresRawAck: bool, watch: bool): State {
    if Stage(s, t).Some? then s
    else At(s.(nextId := s.nextId + 1), t, Minted(s.nextId, intent, requiresRawAck, watch))
  }

  function StampStep(s: State, t: nat, now: Reading): State {
    match Stage(s, t)
    case Some(Minted(id, intent, requiresRawAck, watched)) =>
      At(s.(mono := now.mono), t, Stamped(id, Pending(intent, requiresRawAck, now), watched))
    case _ => s
  }

  function InsertStep(s: State, t: nat, now: Reading): State {
    match Stage(s, t)
    case Some(Stamped(id, pending, watched)) =>
      Logged(Ended(Inserted(Watched(LockBook(s, now), id, watched), id, pending), t), Opened(id, pending.intent, pending.created))
    case _ => s
  }

  function TakeStep(s: State, t: nat, key: nat, use: Use, rawAck: bool, now: Reading): State {
    if Stage(s, t).Some? then s
    else
      var swept := LockBook(s, now);
      match Taking(swept.book, key)
      case Ok(pending) => At(swept.(book := Without(swept.book, key)), t, Taken(key, pending, use, rawAck))
      case Err(ExpiredId) => Logged(swept, SeenExpired(key))
      case Err(UnknownId) => swept
  }

  /** The raw-ack gate: without the acknowledgement the request goes back with its own deadline. */
  function GateStep(s: State, t: nat): State {
    match Stage(s, t)
    case Some(Taken(id, pending, use, rawAck)) =>
      if pending.requiresRawAck && !rawAck then Ended(Inserted(s, id, pending), t)
      else At(s, t, Acked(id, pending, use))
    case _ => s
  }

  /** The last check before the signer. */
  ghost function CheckStep(s: State, t: nat, signerChain: Option<nat>, now: Reading): State {
    match Stage(s, t)
    case Some(Acked(id, pending, use)) =>
      var s := s.(mono := now.mono);
      if use.ApproveMessage? && !pending.intent.kind.PersonalSign? then Ended(s, t)
      else if Elapsed(pending.created, now) >= PENDING_TTL_MS then At(s, t, Late(id))
      else if CommitsOnlyTo(pending.intent, if use.ApproveMessage? then None else signerChain, pending.intent.chainId)
        then At(s, t, Cleared(id, pending, use, now))
      else Ended(s, t)
    case _ => s
  }

  function RememberLateStep(s: State, t: nat): State {
    match Stage(s, t)
    case Some(Late(id)) => Logged(Ended(s.(book := Remembering(s.book, {id})), t), SeenExpired(id))
    case _ => s
  }

  function SignStep(s: State, t: nat): State {
    match Stage(s, t)
    case Some(Cleared(id, pending, use, checked)) =>
      var signed := Logged(s, Signed(id, pending.intent, checked, pending.intent.chainId));
      (match use
       case ApproveMessage => Ended(signed, t)
       case ApproveAndSign => At(signed, t, Holding(id, pending.intent))
       case ApproveAndBroadcast => At(signed, t, Sending(id, pending.intent, None)))
    case _ => s
  }

  function ParkStep(s: State, t: nat, sweep: Sweeping, at: Reading): State {
    match Stage(s, t)
    case Some(Holding(id, tx)) =>
      var swept := LockStore(s, sweep);
      Logged(Ended(swept.(store := swept.store[id := LiveSlot(tx, at)], mono := at.mono), t), Parked(id, at))
    case _ => s
  }

  function TakeSignedStep(s: State, t: nat, key: nat, sweep: Sweeping): State {
    if Stage(s, t).Some? then s
    else
      var swept := LockStore(s, sweep);
      if key !in swept.store then swept
      else
        var taken := swept.(store := swept.store - {key});
        match swept.store[key]
        case LiveSlot(tx, at) => At(taken, t, Sending(key, tx, Some(Parking(at, sweep.first(key)))))
        case ExpiredSlot(_) => taken
  }

  function SendStep(s: State, t: nat): State {
    match Stage(s, t)
    case Some(Sending(id, tx, parked)) => Logged(Ended(s, t), Sent(id, tx, parked))
    case _ => s
  }

  /** A check fails, the vault is locked, the node or the record refuses: the call ends. */
  function GiveUpStep(s: State, t: nat): State {
    match Stage(s, t)
    case Some(c) => if c.Acked? || c.Cleared? || c.Holding? || c.Sending? then Ended(s, t) else s
    case None => s
  }

  function DiscardParkedStep(s: State, t: nat, key: nat, sweep: Sweeping): State {
    if Stage(s, t).Some? then s
    else
      var swept := LockStore(s, sweep);
      if key in swept.store then Logged(swept.(store := swept.store - {key}), Rejected(key))
      else At(swept, t, Rejecting(key))
  }

  function RejectPendingStep(s: State, t: nat, now: Reading): State {
    match Stage(s, t)
    case Some(Rejecting(key)) =>
      var swept := Ended(LockBook(s, now), t);
      (match Taking(swept.book, key)
       case Ok(_) => Logged(swept.(book := Without(swept.book, key)), Rejected(key))
       case Err(ExpiredId) => Logged(swept, SeenExpired(key))
       case Err(UnknownId) => swept)
    case _ => s
  }

  function AskExpiredStep(s: State, key: nat, now: Reading): State {
    var swept := LockBook(s, now);
    if ReadsExpired(swept.book, key) then Logged(swept, SeenExpired(key)) else swept
  }

  /** The monotonic clock does not go back during a sweep. */
  ghost predicate SweepInOrder(mono: nat, sweep: Sweeping) {
    forall key: nat :: mono <= sweep.first(key).mono <= sweep.second(key) <= sweep.done
  }

  /** The monotonic clock does not go back. */
  ghost predicate InOrder(s: State, a: Act) {
    match a
    case Stamp(_, now) => s.mono <= now.mono
    case Insert(_, now) => s.mono <= now.mono
    case Take(_, _, _, _, now) => s.mono <= now.mono
    case Check(_, _, now) => s.mono <= now.mono
    case Park(_, sweep, at) => SweepInOrder(s.mono, sweep) && s.mono <= sweep.done <= at.mono
    case TakeSigned(_, _, sweep) => SweepInOrder(s.mono, sweep)
    case DiscardParked(_, _, sweep) => SweepInOrder(s.mono, sweep)
    case RejectPending(_, now) => s.mono <= now.mono
    case AskExpired(_, now) => s.mono <= now.mono
    case _ => true
  }

  ghost function Apply(s: State, a: Act): State {
    if !InOrder(s, a) then s
    else
      match a
      case Mint(t, intent, requiresRawAck, watch) => MintStep(s, t, intent, requiresRawAck, watch)
      case Stamp(t, now) => StampStep(s, t, now)
      case Insert(t, now) => InsertStep(s, t, now)
      case Take(t, key, use, rawAck, now) => TakeStep(s, t, key, use, rawAck, now)
      case Gate(t) => GateStep(s, t)
      case Check(t, signerChain, now) => CheckStep(s, t, signerChain, now)
      case RememberLate(t) => RememberLateStep(s, t)
      case Sign(t) => SignStep(s, t)
      case Park(t, sweep, at) => ParkStep(s, t, sweep, at)
      case TakeSigned(t, key, sweep) => TakeSignedStep(s, t, key, sweep)
      case Send(t) => SendStep(s, t)
      case GiveUp(t) => GiveUpStep(s, t)
      case DiscardParked(t, key, sweep) => DiscardParkedStep(s, t, key, sweep)
      case RejectPending(t, now) => RejectPendingStep(s, t, now)
      case AskExpired(key, now) => AskExpiredStep(s, key, now)
  }

  ghost function Run(s: State, acts: seq<Act>): State
    decreases |acts|
  {
    if acts == [] then s else Apply(Run(s, acts[..|acts| - 1]), acts[|acts| - 1])
  }

  // --- what a log may say -----------------------------------------------------------------

  /** What may follow what about one id: one signature, one send, nothing after a rejection, and
      an expired request is neither signed nor sent nor rejected. */
  predicate MayFollow(earlier: Event, later: Event) {
    earlier.id == later.id ==>
      match later
      case Opened(_, _, _) => false
      case Signed(_, _, _, _) => earlier.Opened?
      case Parked(_, _) => earlier.Opened? || earlier.Signed?
      case Sent(_, _, _) => earlier.Opened? || earlier.Signed? || earlier.Parked?
      case Rejected(_) => earlier.Opened? || earlier.Signed? || earlier.Parked?
      case SeenExpired(_) => earlier.Opened? || earlier.SeenExpired?
  }

  /** What an event rests on: a signature on an opening not yet expired at the last check and on
      the chain shown, a send on a signature and, when parked, on a parking not yet expired. */
  ghost predicate Grounded(before: seq<Event>, e: Event) {
    match e
    case Signed(id, intent, checked, chain) =>
      && chain == intent.chainId
      && (exists signerChain :: CommitsOnlyTo(intent, signerChain, chain))
      && exists created ::
           Opened(id, intent, created) in before && Elapsed(created, checked) < PENDING_TTL_MS
    case Sent(id, tx, parked) =>
      && SignedBefore(before, id, tx)
      && (parked.Some? ==>
            Parked(id, parked.value.at) in before && Elapsed(parked.value.at, parked.value.takenAt) < PREPARED_TTL_MS)
    case _ => true
  }

  ghost predicate SignedBefore(before: seq<Event>, id: nat, tx: Intent) {
    exists e :: e in before && e.Signed? && e.id == id && e.intent == tx
  }

  ghost predicate Orderly(log: seq<Event>) {
    && (forall i, j :: 0 <= i < j < |log| ==> MayFollow(log[i], log[j]))
    && (forall j :: 0 <= j < |log| ==> Grounded(log[..j], log[j]))
  }

  // --- the invariant ----------------------------------------------------------------------

  /** Every id the machine knows has been minted, and what is parked is nowhere else. */
  ghost predicate Placed(s: State) {
    && (forall id :: id in s.book.pending ==> id < s.nextId)
    && (forall id: nat :: ReadsExpired(s.book, id) ==> id < s.nextId)
    && (forall id :: id in s.store ==> id < s.nextId && id !in s.book.pending && !ReadsExpired(s.book, id))
    && (forall t :: t in s.calls ==> Alone(s, t, s.calls[t]))
  }

  /** No other place holds what call `t` holds. */
  ghost predicate Alone(s: State, t: nat, c: Call) {
    Owner(c).Some? ==>
      && c.id < s.nextId
      && c.id !in s.book.pending && c.id !in s.store && !ReadsExpired(s.book, c.id)
      && forall other :: other in s.calls && Owner(s.calls[other]) == Some(c.id) ==> other == t
  }

  /** A call that holds an id at a stage after this event. */
  predicate StageAfter(e: Event, c: Call) {
    match e
    case Opened(_, _, _) => !c.Minted? && !c.Stamped?
    case Signed(_, _, _, _) => c.Holding? || c.Sending?
    case Parked(_, _) => c.Sending?
    case _ => false
  }

  /** What the log says about an id agrees with where the id is. */
  ghost predicate Fits(s: State, e: Event) {
    && e.id < s.nextId
    && (e.id in s.book.pending ==> e.Opened?)
    && (e.id in s.store ==> e.Opened? || e.Signed? || e.Parked?)
    && (ReadsExpired(s.book, e.id) ==> e.Opened? || e.SeenExpired?)
    && forall t :: t in s.calls && Owner(s.calls[t]) == Some(e.id) ==> StageAfter(e, s.calls[t])
  }

  /** What a call holds is what the log says it is. */
  ghost predicate CallOk(log: seq<Event>, c: Call) {
    match c
    case Taken(id, p, _, _) => Opened(id, p.intent, p.created) in log
    case Acked(id, p, _) => Opened(id, p.intent, p.created) in log
    case Cleared(id, p, _, checked) => Grounded(log, Signed(id, p.intent, checked, p.intent.chainId))
    case Holding(id, tx) => SignedBefore(log, id, tx)
    case Sending(id, tx, parked) => Grounded(log, Sent(id, tx, parked))
    case _ => true
  }

  ghost predicate SlotOk(log: seq<Event>, id: nat, slot: Slot<Intent>) {
    slot.LiveSlot? ==> SignedBefore(log, id, slot.tx) && Parked(id, slot.at) in log
  }

  ghost predicate Backed(s: State) {
    && (forall id :: id in s.book.pending ==> Opened(id, s.book.pending[id].intent, s.book.pending[id].created) in s.log)
    && (forall id :: id in s.store ==> SlotOk(s.log, id, s.store[id]))
    && (forall t :: t in s.calls ==> CallOk(s.log, s.calls[t]))
  }

  ghost predicate Told(s: State) {
    forall e :: e in s.log ==> Fits(s, e)
  }

  ghost predicate Inv(s: State) {
    && BookOk(s.book) && s.book.watched == KeepLargest(s.everWatched, WATCHED_IDS_KEPT)
    && Placed(s) && Backed(s) && Told(s) && Orderly(s.log)
  }

  /** No place holds `id`. */
  ghost predicate Gone(s: State, id: nat) {
    && id < s.nextId
    && id !in s.book.pending && id !in s.store && !ReadsExpired(s.book, id)
    && forall t :: t in s.calls ==> Owner(s.calls[t]) != Some(id)
  }

  // --- small changes keep the invariant -----------------------------------------------------

  /** Requests may leave the pending map; only requests that leave it start to read as expired. */
  ghost predicate Shrinks(b: BookState, b': BookState) {
    && (forall id :: id in b'.pending ==> id in b.pending && b'.pending[id] == b.pending[id])
    && (forall id: nat :: ReadsExpired(b', id) ==> ReadsExpired(b, id) || id in b.pending)
    && b'.watched == b.watched
  }

  lemma ShrinkInv(s: State, b: BookState, mono: nat)
    requires Inv(s) && BookOk(b) && Shrinks(s.book, b)
    ensures Inv(s.(book := b, mono := mono))
  {
    hide KeepLargest, Orderly, CallOk, SlotOk, ReadsExpired;
  }

  lemma SweptShrinks(b: BookState, now: Reading)
    ensures Shrinks(b, Swept(b, now, PENDING_TTL_MS))
  {
  }

  lemma LockBookInv(s: State, now: Reading)
    requires Inv(s)
    ensures Inv(LockBook(s, now))
  {
    hide Swept, Shrinks, Placed, Backed, Told, Orderly, KeepLargest, BookOk;
    SweptOk(s.book, now, PENDING_TTL_MS);
    SweptShrinks(s.book, now);
    ShrinkInv(s, Swept(s.book, now, PENDING_TTL_MS), now.mono);
  }

  lemma LockStoreInv(s: State, sweep: Sweeping)
    requires Inv(s)
    ensures Inv(LockStore(s, sweep))
    ensures forall id :: id in LockStore(s, sweep).store && LockStore(s, sweep).store[id].LiveSlot? ==>
      id in s.store && Elapsed(LockStore(s, sweep).store[id].at, sweep.first(id)) < PREPARED_TTL_MS
  {
    hide KeepLargest, Orderly, BookOk, CallOk;
  }

  lemma EndedInv(s: State, t: nat)
    requires Inv(s)
    ensures Inv(Ended(s, t))
    ensures t in s.calls && Owner(s.calls[t]).Some? ==> Gone(Ended(s, t), s.calls[t].id)
  {
    hide KeepLargest, Orderly, BookOk, CallOk, SlotOk;
  }

  lemma AtInv(s: State, t: nat, c: Call)
    requires Inv(s) && t !in s.calls && CallOk(s.log, c)
    requires Owner(c).Some? ==> Gone(s, c.id) && forall e :: e in s.log && e.id == c.id ==> StageAfter(e, c)
    ensures Inv(At(s, t, c))
  {
    hide KeepLargest, Orderly, BookOk, CallOk, SlotOk;
  }

  lemma WithoutInv(s: State, key: nat)
    requires Inv(s) && key in s.book.pending
    ensures Inv(s.(book := Without(s.book, key))) && Gone(s.(book := Without(s.book, key)), key)
    ensures forall e :: e in s.log && e.id == key ==> e.Opened?
  {
    hide KeepLargest, Orderly, CallOk, SlotOk;
    ShrinkInv(s, Without(s.book, key), s.mono);
  }

  lemma UnstoredInv(s: State, key: nat)
    requires Inv(s) && key in s.store
    ensures Inv(s.(store := s.store - {key})) && Gone(s.(store := s.store - {key}), key)
    ensures forall e :: e in s.log && e.id == key ==> e.Opened? || e.Signed? || e.Parked?
  {
    hide KeepLargest, Orderly, BookOk, CallOk, SlotOk;
  }

  lemma InsertedInv(s: State, id: nat, p: Pending)
    requires Inv(s) && Gone(s, id) && Opened(id, p.intent, p.created) in s.log
    requires forall e :: e in s.log && e.id == id ==> e.Opened?
    ensures Inv(Inserted(s, id, p))
  {
    hide KeepLargest, Orderly, CallOk, SlotOk, BookOk;
    InsertedOk(s.book, id, p);
    var s' := Inserted(s, id, p);
    forall t | t in s'.calls ensures Alone(s', t, s'.calls[t]) {
      assert Alone(s, t, s.calls[t]);
    }
    assert forall k: nat :: ReadsExpired(s'.book, k) <==> ReadsExpired(s.book, k);
    assert forall k :: k in s'.store ==> k < s'.nextId && k !in s'.book.pending && !ReadsExpired(s'.book, k);
  }

  lemma InsertedOk(b: BookState, id: nat, p: Pending)
    requires BookOk(b) && !ReadsExpired(b, id)
    ensures BookOk(b.(pending := b.pending[id := p]))
  {
  }

  lemma StoredInv(s: State, id: nat, slot: Slot<Intent>)
    requires Inv(s) && Gone(s, id) && SlotOk(s.log, id, slot)
    requires forall e :: e in s.log && e.id == id ==> e.Opened? || e.Signed? || e.Parked?
    ensures Inv(s.(store := s.store[id := slot]))
  {
    hide KeepLargest, Orderly, BookOk, CallOk, SlotOk;
  }

  lemma LoggedInv(s: State, e: Event)
    requires Inv(s) && Fits(s, e) && Grounded(s.log, e)
    requires forall earlier :: earlier in s.log ==> MayFollow(earlier, e)
    ensures Inv(Logged(s, e))
  {
    hide KeepLargest, BookOk, MayFollow, Orderly, CallOk, SlotOk;
    OrderlyGrows(s.log, e);
    BackedGrows(s, e);
  }

  lemma BackedGrows(s: State, e: Event)
    requires Backed(s)
    ensures Backed(Logged(s, e))
  {
  }

  lemma CallOkGrows(log: seq<Event>, e: Event, c: Call)
    requires CallOk(log, c)
    ensures CallOk(log + [e], c)
  {
  }

  lemma OrderlyGrows(log: seq<Event>, e: Event)
    requires Orderly(log) && Grounded(log, e)
    requires forall earlier :: earlier in log ==> MayFollow(earlier, e)
    ensures Orderly(log + [e])
  {
    hide Grounded, MayFollow;
    forall j | 0 <= j < |log| + 1 ensures Grounded((log + [e])[..j], (log + [e])[j]) {
      assert (log + [e])[..j] == log[..j];
      assert j == |log| ==> log[..j] == log;
    }
  }

  // --- every step keeps the invariant -------------------------------------------------------

  lemma MintInv(s: State, t: nat, intent: Intent, requiresRawAck: bool, watch: bool)
    requires Inv(s)
    ensures Inv(MintStep(s, t, intent, requiresRawAck, watch))
  {
    hide KeepLargest, Orderly, BookOk, SlotOk, Backed;
    if t !in s.calls {
      NextIdInv(s);
      AtInv(s.(nextId := s.nextId + 1), t, Minted(s.nextId, intent, requiresRawAck, watch));
    }
  }

  lemma NextIdInv(s: State)
    requires Inv(s)
    ensures Inv(s.(nextId := s.nextId + 1)) && Gone(s.(nextId := s.nextId + 1), s.nextId)
    ensures forall e :: e in s.log ==> e.id != s.nextId
  {
    hide KeepLargest, Orderly, BookOk, SlotOk, CallOk;
  }

  /** A call moves on to its next stage; what it holds stays its own. */
  lemma AdvanceInv(s: State, t: nat, c: Call)
    requires Inv(s) && t in s.calls && Owner(s.calls[t]).Some? && Owner(c) == Owner(s.calls[t])
    requires CallOk(s.log, c) && forall e :: StageAfter(e, s.calls[t]) && e.id == c.id ==> StageAfter(e, c)
    ensures Inv(At(s, t, c))
  {
    hide KeepLargest, Orderly, BookOk, CallOk, SlotOk, Placed, Backed;
    EndedInv(s, t);
    forall e | e in s.log && e.id == c.id ensures StageAfter(e, c) {
      assert Fits(s, e);
    }
    AtInv(Ended(s, t), t, c);
    assert At(Ended(s, t), t, c) == At(s, t, c);
  }

  lemma ClockInv(s: State, mono: nat)
    requires Inv(s)
    ensures Inv(s.(mono := mono))
  {
    hide KeepLargest, Orderly, BookOk, CallOk, SlotOk;
  }

  lemma StampInv(s: State, t: nat, now: Reading)
    requires Inv(s)
    ensures Inv(StampStep(s, t, now))
  {
    hide Inv;
    match Stage(s, t)
    case Some(Minted(id, intent, requiresRawAck, watched)) =>
      ClockInv(s, now.mono);
      AdvanceInv(s.(mono := now.mono), t, Stamped(id, Pending(intent, requiresRawAck, now), watched));
    case _ =>
  }

  lemma WatchedInv(s: State, id: nat, watch: bool)
    requires Inv(s) && id < s.nextId
    ensures Inv(Watched(s, id, watch))
  {
    hide KeepLargest, Orderly, CallOk, SlotOk;
    if watch {
      WatchingOk(s.book, id);
      KeepOneMore(s.everWatched, id, WATCHED_IDS_KEPT);
      ShrinkOrWatchInv(s, Watching(s.book, id), s.everWatched + {id});
    }
  }

  lemma ShrinkOrWatchInv(s: State, b: BookState, everWatched: set<nat>)
    requires Inv(s) && BookOk(b) && b.pending == s.book.pending && b.watched == KeepLargest(everWatched, WATCHED_IDS_KEPT)
    requires forall id: nat :: ReadsExpired(b, id) ==> ReadsExpired(s.book, id)
    ensures Inv(s.(book := b, everWatched := everWatched))
  {
    hide KeepLargest, Orderly, CallOk, SlotOk, ReadsExpired, BookOk;
  }

  lemma InsertInv(s: State, t: nat, now: Reading)
    requires Inv(s)
    ensures Inv(InsertStep(s, t, now))
  {
    hide KeepLargest, Orderly, BookOk, CallOk, SlotOk, Swept, Watching;
    match Stage(s, t)
    case Some(Stamped(id, pending, watched)) =>
      LockBookInv(s, now);
      var locked := LockBook(s, now);
      WatchedInv(locked, id, watched);
      var s1 := Watched(locked, id, watched);
      EndedInv(s1, t);
      var s2 := Ended(s1, t);
      var opening := Opened(id, pending.intent, pending.created);
      forall e | e in s2.log ensures e.id != id {
        assert Fits(s, e);
      }
      LoggedInv(s2, opening);
      InsertedInv(Logged(s2, opening), id, pending);
      assert InsertStep(s, t, now) == Inserted(Logged(s2, opening), id, pending);
    case _ =>
  }

  lemma TakeInv(s: State, t: nat, key: nat, use: Use, rawAck: bool, now: Reading)
    requires Inv(s)
    ensures Inv(TakeStep(s, t, key, use, rawAck, now))
  {
    hide KeepLargest, Orderly, BookOk, SlotOk, Swept, Grounded, SignedBefore;
    if t !in s.calls {
      LockBookInv(s, now);
      var swept := LockBook(s, now);
      SeenExpiredInv(swept, key);
      if key in swept.book.pending && !ReadsExpired(swept.book, key) {
        WithoutInv(swept, key);
        AtInv(swept.(book := Without(swept.book, key)), t, Taken(key, swept.book.pending[key], use, rawAck));
      }
    }
  }

  /** An expired id may be reported as expired, any number of times. */
  lemma SeenExpiredInv(s: State, id: nat)
    requires Inv(s)
    ensures ReadsExpired(s.book, id) ==> Inv(Logged(s, SeenExpired(id)))
  {
    hide KeepLargest, Orderly, CallOk, SlotOk;
    if ReadsExpired(s.book, id) {
      forall e | e in s.log ensures MayFollow(e, SeenExpired(id)) {
        assert Fits(s, e);
      }
      LoggedInv(s, SeenExpired(id));
    }
  }

  lemma GateInv(s: State, t: nat)
    requires Inv(s)
    ensures Inv(GateStep(s, t))
  {
    hide KeepLargest, Orderly, BookOk, SlotOk;
    match Stage(s, t)
    case Some(Taken(id, pending, use, rawAck)) =>
      if pending.requiresRawAck && !rawAck {
        OnlyOpened(s, t);
        EndedInv(s, t);
        InsertedInv(Ended(s, t), id, pending);
      } else {
        AdvanceInv(s, t, Acked(id, pending, use));
      }
    case _ =>
  }

  /** Nothing but its opening has happened to the id of a call that has not signed. */
  lemma OnlyOpened(s: State, t: nat)
    requires Inv(s) && t in s.calls && Owner(s.calls[t]).Some?
    requires !s.calls[t].Holding? && !s.calls[t].Sending?
    ensures forall e :: e in s.log && e.id == s.calls[t].id ==> e.Opened?
  {
  }

  lemma CheckInv(s: State, t: nat, signerChain: Option<nat>, now: Reading)
    requires Inv(s)
    ensures Inv(CheckStep(s, t, signerChain, now))
  {
    hide KeepLargest, Orderly, BookOk, SlotOk, CommitsOnlyTo, Placed, Told;
    match Stage(s, t)
    case Some(Acked(id, pending, use)) =>
      ClockInv(s, now.mono);
      var s1 := s.(mono := now.mono);
      EndedInv(s1, t);
      AdvanceInv(s1, t, Late(id));
      var signer := if use.ApproveMessage? then None else signerChain;
      if Elapsed(pending.created, now) < PENDING_TTL_MS && CommitsOnlyTo(pending.intent, signer, pending.intent.chainId) {
        assert CallOk(s.log, s.calls[t]);
        assert CallOk(s.log, Cleared(id, pending, use, now));
        AdvanceInv(s1, t, Cleared(id, pending, use, now));
      }
    case _ =>
  }

  lemma RememberLateInv(s: State, t: nat)
    requires Inv(s)
    ensures Inv(RememberLateStep(s, t))
  {
    hide KeepLargest, Orderly, CallOk, SlotOk;
    match Stage(s, t)
    case Some(Late(id)) =>
      OnlyOpened(s, t);
      EndedInv(s, t);
      RememberGoneInv(Ended(s, t), id);
    case _ =>
  }

  lemma RememberGoneInv(s: State, id: nat)
    requires Inv(s) && Gone(s, id) && forall e :: e in s.log && e.id == id ==> e.Opened?
    ensures Inv(Logged(s.(book := Remembering(s.book, {id})), SeenExpired(id)))
  {
    hide KeepLargest, Orderly, CallOk, SlotOk;
    RememberingOk(s.book, {id});
    RememberingReads(s.book, id);
    var b := Remembering(s.book, {id});
    NewlyExpiredInv(s, b, id);
    LoggedInv(s.(book := b), SeenExpired(id));
  }

  lemma RememberingReads(b: BookState, id: nat)
    ensures forall k: nat :: ReadsExpired(Remembering(b, {id}), k) ==> ReadsExpired(b, k) || k == id
  {
  }

  lemma NewlyExpiredInv(s: State, b: BookState, id: nat)
    requires Inv(s) && Gone(s, id) && forall e :: e in s.log && e.id == id ==> e.Opened?
    requires BookOk(b) && b.pending == s.book.pending && b.watched == s.book.watched
    requires forall k: nat :: ReadsExpired(b, k) ==> ReadsExpired(s.book, k) || k == id
    ensures Inv(s.(book := b))
    ensures Fits(s.(book := b), SeenExpired(id))
  {
    hide KeepLargest, Orderly, CallOk, SlotOk, BookOk, ReadsExpired;
  }

  lemma LoggedGoneInv(s: State, e: Event)
    requires Inv(s) && Gone(s, e.id) && Grounded(s.log, e)
    requires forall earlier :: earlier in s.log && earlier.id == e.id ==> MayFollow(earlier, e)
    ensures Inv(Logged(s, e)) && Gone(Logged(s, e), e.id)
  {
    hide KeepLargest, Orderly, BookOk, CallOk, SlotOk;
    LoggedInv(s, e);
  }

  /** The signature itself, made by the call that held the id. */
  lemma SignedInv(s: State, t: nat)
    requires Inv(s) && t in s.calls && s.calls[t].Cleared?
    ensures var Cleared(id, pending, _, checked) := s.calls[t];
      var signed := Logged(Ended(s, t), Signed(id, pending.intent, checked, pending.intent.chainId));
      && Inv(signed) && Gone(signed, id) && SignedBefore(signed.log, id, pending.intent)
      && forall e :: e in signed.log && e.id == id ==> e.Opened? || e.Signed?
  {
    hide KeepLargest, Orderly, BookOk, SlotOk, Placed, Told, Grounded, Gone;
    var Cleared(id, pending, _, checked) := s.calls[t];
    OnlyOpened(s, t);
    EndedInv(s, t);
    var signing := Signed(id, pending.intent, checked, pending.intent.chainId);
    assert CallOk(s.log, s.calls[t]);
    LoggedGoneInv(Ended(s, t), signing);
    assert signing in Logged(Ended(s, t), signing).log;
  }

  lemma SignInv(s: State, t: nat)
    requires Inv(s)
    ensures Inv(SignStep(s, t))
  {
    hide Inv, Gone;
    match Stage(s, t)
    case Some(Cleared(id, pending, use, checked)) =>
      SignedInv(s, t);
      var signed := Logged(Ended(s, t), Signed(id, pending.intent, checked, pending.intent.chainId));
      if use.ApproveAndSign? {
        AtInv(signed, t, Holding(id, pending.intent));
        assert SignStep(s, t) == At(signed, t, Holding(id, pending.intent));
      } else if use.ApproveAndBroadcast? {
        AtInv(signed, t, Sending(id, pending.intent, None));
        assert SignStep(s, t) == At(signed, t, Sending(id, pending.intent, None));
      } else {
        assert SignStep(s, t) == signed;
      }
    case _ =>
  }

  lemma ParkInv(s: State, t: nat, sweep: Sweeping, at: Reading)
    requires Inv(s)
    ensures Inv(ParkStep(s, t, sweep, at))
  {
    hide KeepLargest, Orderly, BookOk, SlotOk, SweptStore, SignedBefore;
    match Stage(s, t)
    case Some(Holding(id, tx)) =>
      LockStoreInv(s, sweep);
      var s1 := LockStore(s, sweep);
      EndedInv(s1, t);
      var s2 := Ended(s1, t);
      forall e | e in s2.log && e.id == id ensures e.Opened? || e.Signed? {
        assert Fits(s, e);
      }
      LoggedGoneInv(s2, Parked(id, at));
      assert CallOk(s.log, s.calls[t]);
      CallOkGrows(s.log, Parked(id, at), s.calls[t]);
      PutInStoreInv(Logged(s2, Parked(id, at)), id, tx, at);
    case _ =>
  }

  lemma PutInStoreInv(s: State, id: nat, tx: Intent, at: Reading)
    requires Inv(s) && Gone(s, id) && SignedBefore(s.log, id, tx) && Parked(id, at) in s.log
    requires forall e :: e in s.log && e.id == id ==> e.Opened? || e.Signed? || e.Parked?
    ensures Inv(s.(store := s.store[id := LiveSlot(tx, at)], mono := at.mono))
  {
    hide Orderly, BookOk, Placed, Backed, Told, Gone;
    StoredInv(s, id, LiveSlot(tx, at));
    ClockInv(s.(store := s.store[id := LiveSlot(tx, at)]), at.mono);
  }

  lemma TakeSignedInv(s: State, t: nat, key: nat, sweep: Sweeping)
    requires Inv(s)
    ensures Inv(TakeSignedStep(s, t, key, sweep))
  {
    hide KeepLargest, Orderly, BookOk, SweptStore, SignedBefore;
    if t !in s.calls {
      LockStoreInv(s, sweep);
      var s1 := LockStore(s, sweep);
      if key in s1.store {
        UnstoredInv(s1, key);
        match s1.store[key] {
          case LiveSlot(tx, at) =>
            assert SlotOk(s1.log, key, s1.store[key]);
            AtInv(s1.(store := s1.store - {key}), t, Sending(key, tx, Some(Parking(at, sweep.first(key)))));
          case ExpiredSlot(_) =>
        }
      }
    }
  }

  lemma SendInv(s: State, t: nat)
    requires Inv(s)
    ensures Inv(SendStep(s, t))
  {
    hide KeepLargest, Orderly, BookOk, SlotOk, Grounded;
    match Stage(s, t)
    case Some(Sending(id, tx, parked)) =>
      EndedInv(s, t);
      forall e | e in s.log && e.id == id ensures e.Opened? || e.Signed? || e.Parked? {
        assert Fits(s, e);
      }
      assert CallOk(s.log, s.calls[t]);
      LoggedGoneInv(Ended(s, t), Sent(id, tx, parked));
    case _ =>
  }

  lemma DiscardParkedInv(s: State, t: nat, key: nat, sweep: Sweeping)
    requires Inv(s)
    ensures Inv(DiscardParkedStep(s, t, key, sweep))
  {
    hide KeepLargest, Orderly, BookOk, SlotOk, SweptStore, Placed, Told;
    if t !in s.calls {
      LockStoreInv(s, sweep);
      var s1 := LockStore(s, sweep);
      if key in s1.store {
        UnstoredInv(s1, key);
        LoggedGoneInv(s1.(store := s1.store - {key}), Rejected(key));
      } else {
        AtInv(s1, t, Rejecting(key));
      }
    }
  }

  lemma RejectPendingInv(s: State, t: nat, now: Reading)
    requires Inv(s)
    ensures Inv(RejectPendingStep(s, t, now))
  {
    hide KeepLargest, Orderly, BookOk, SlotOk, CallOk, Swept, Placed, Told;
    match Stage(s, t)
    case Some(Rejecting(key)) =>
      LockBookInv(s, now);
      EndedInv(LockBook(s, now), t);
      var s1 := Ended(LockBook(s, now), t);
      SeenExpiredInv(s1, key);
      if key in s1.book.pending {
        WithoutInv(s1, key);
        LoggedGoneInv(s1.(book := Without(s1.book, key)), Rejected(key));
      }
    case _ =>
  }

  lemma GiveUpInv(s: State, t: nat)
    requires Inv(s)
    ensures Inv(GiveUpStep(s, t))
  {
    EndedInv(s, t);
  }

  lemma AskExpiredInv(s: State, key: nat, now: Reading)
    requires Inv(s)
    ensures Inv(AskExpiredStep(s, key, now))
  {
    LockBookInv(s, now);
    SeenExpiredInv(LockBook(s, now), key);
  }

  lemma StepInv(s: State, a: Act)
    requires Inv(s)
    ensures Inv(Apply(s, a))
  {
    hide Inv, MintStep, StampStep, InsertStep, TakeStep, GateStep, CheckStep, RememberLateStep, SignStep;
    hide ParkStep, TakeSignedStep, SendStep, GiveUpStep, DiscardParkedStep, RejectPendingStep, AskExpiredStep;
    match a
    case Mint(t, intent, requiresRawAck, watch) => MintInv(s, t, intent, requiresRawAck, watch);
    case Stamp(t, now) => StampInv(s, t, now);
    case Insert(t, now) => InsertInv(s, t, now);
    case Take(t, key, use, rawAck, now) => TakeInv(s, t, key, use, rawAck, now);
    case Gate(t) => GateInv(s, t);
    case Check(t, signerChain, now) => CheckInv(s, t, signerChain, now);
    case RememberLate(t) => RememberLateInv(s, t);
    case Sign(t) => SignInv(s, t);
    case Park(t, sweep, at) => ParkInv(s, t, sweep, at);
    case TakeSigned(t, key, sweep) => TakeSignedInv(s, t, key, sweep);
    case Send(t) => SendInv(s, t);
    case GiveUp(t) => GiveUpInv(s, t);
    case DiscardParked(t, key, sweep) => DiscardParkedInv(s, t, key, sweep);
    case RejectPending(t, now) => RejectPendingInv(s, t, now);
    case AskExpired(key, now) => AskExpiredInv(s, key, now);
  }

  lemma {:induction false} RunInv(s: State, acts: seq<Act>)
    requires Inv(s)
    ensures Inv(Run(s, acts))
    decreases |acts|
  {
    if acts != [] {
      RunInv(s, acts[..|acts| - 1]);
      StepInv(Run(s, acts[..|acts| - 1]), acts[|acts| - 1]);
    }
  }
}
