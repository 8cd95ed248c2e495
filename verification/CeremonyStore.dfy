/** The store of signed, unsent transactions. A transaction enters by being parked, leaves by being
    taken or discarded, and becomes a tombstone when it was held too long. */
module CeremonyStore {
  import opened Common
  import opened CeremonyBook

  const PREPARED_TTL_MS: nat := 120 * 1000
  const EXPIRED_TOMBSTONE_KEEP_MS: nat := 3600 * 1000

  /** A live signed transaction, or the tombstone of one that expired unsent. */
  datatype Slot<T> = LiveSlot(tx: T, at: Reading) | ExpiredSlot(since: nat)

  /** The clock readings of one sweep: one for each live slot in its first pass, one of the
      monotonic clock for each tombstone in its second, and one when it is over. */
  datatype Sweeping = Sweeping(first: nat -> Reading, second: nat -> nat, done: nat)

  /** A slot after the first pass of a sweep. */
  function Buried<T>(slot: Slot<T>, now: Reading): Slot<T> {
    if slot.LiveSlot? && Elapsed(slot.at, now) >= PREPARED_TTL_MS then ExpiredSlot(slot.at.mono) else slot
  }

  /** A tombstone that the second pass drops. */
  predicate Crumbled<T>(slot: Slot<T>, mono: nat) {
    slot.ExpiredSlot? && Since(mono, slot.since) >= EXPIRED_TOMBSTONE_KEEP_MS
  }

  function SweptStore<T>(slots: map<nat, Slot<T>>, sweep: Sweeping): map<nat, Slot<T>> {
    map key | key in slots && !Crumbled(Buried(slots[key], sweep.first(key)), sweep.second(key)) ::
      Buried(slots[key], sweep.first(key))
  }

  /** A first pass that has not reached `rest` yet. */
  function HalfBuried<T>(slots: map<nat, Slot<T>>, rest: set<nat>, sweep: Sweeping): map<nat, Slot<T>> {
    map key | key in slots :: if key in rest then slots[key] else Buried(slots[key], sweep.first(key))
  }

  lemma FirstPassGoesOn<T>(slots: map<nat, Slot<T>>, rest: set<nat>, sweep: Sweeping, key: nat)
    requires key in rest && rest <= slots.Keys
    ensures HalfBuried(slots, rest, sweep).Keys == slots.Keys && HalfBuried(slots, rest, sweep)[key] == slots[key]
    ensures HalfBuried(slots, rest - {key}, sweep) == HalfBuried(slots, rest, sweep)[key := Buried(slots[key], sweep.first(key))]
  {
    hide Buried;
  }

  lemma FirstPassBegins<T>(slots: map<nat, Slot<T>>, sweep: Sweeping)
    ensures HalfBuried(slots, slots.Keys, sweep) == slots
  {
  }

  lemma FirstPassEnds<T>(slots: map<nat, Slot<T>>, sweep: Sweeping)
    ensures var buried := HalfBuried(slots, {}, sweep);
      SweptStore(slots, sweep) == map key | key in buried && !Crumbled(buried[key], sweep.second(key)) :: buried[key]
  {
    hide Buried, Crumbled;
  }

  predicate IsLive<T>(slots: map<nat, Slot<T>>, key: nat) {
    key in slots && slots[key].LiveSlot?
  }

  /** In time on both clocks when the sweep reads them for this slot. */
  predicate InTimeAt<T>(slot: Slot<T>, key: nat, sweep: Sweeping)
    requires slot.LiveSlot?
  {
    Within(slot.at, sweep.first(key), PREPARED_TTL_MS)
  }

  /** When it was parked, by the monotonic clock. */
  function SinceOf<T>(slot: Slot<T>): nat {
    if slot.LiveSlot? then slot.at.mono else slot.since
  }

  /** What two passes leave of one slot: live is what was live and in time, and a tombstone stands
      for the hour after its parking. */
  predicate SweptByTheClocks<T(==)>(before: map<nat, Slot<T>>, after: map<nat, Slot<T>>, sweep: Sweeping, key: nat) {
    && (IsLive(after, key) <==> IsLive(before, key) && InTimeAt(before[key], key, sweep))
    && (IsLive(after, key) ==> after[key] == before[key])
    && (key in after && after[key].ExpiredSlot? <==>
          && key in before && !(before[key].LiveSlot? && InTimeAt(before[key], key, sweep))
          && sweep.second(key) < SinceOf(before[key]) + EXPIRED_TOMBSTONE_KEEP_MS)
    && (key in after ==> SinceOf(after[key]) == SinceOf(before[key]))
  }

  lemma SweptStoreByTheClocks<T>(slots: map<nat, Slot<T>>, sweep: Sweeping, key: nat)
    ensures SweptByTheClocks(slots, SweptStore(slots, sweep), sweep, key)
  {
    hide Elapsed, Within;
    if IsLive(slots, key) {
      ElapsedOnBothClocks(slots[key].at, sweep.first(key), PREPARED_TTL_MS);
    }
  }

  class PreparedStore<T> {
    var slots: map<nat, Slot<T>>

    constructor ()
      ensures slots == map[]
    {
      slots := map[];
    }

    method ParkSigned(key: nat, tx: T, at: Reading)
      modifies this
      ensures slots == old(slots)[key := LiveSlot(tx, at)]
    {
      slots := slots[key := LiveSlot(tx, at)];
    }

    method TakeSigned(key: nat) returns (slot: Option<Slot<T>>)
      modifies this
      ensures slots == old(slots) - {key}
      ensures slot == if key in old(slots) then Some(old(slots)[key]) else None
    {
      slot := if key in slots then Some(slots[key]) else None;
      slots := slots - {key};
    }

    method DiscardSigned(key: nat) returns (found: bool)
      modifies this
      ensures slots == old(slots) - {key} && (found <==> key in old(slots))
    {
      found := key in slots;
      slots := slots - {key};
    }

    /** Two passes: what outlived its time becomes a tombstone, then old tombstones are dropped. Live
        afterwards is exactly what was live and in time on both clocks; a tombstone stands for the
        hour after its parking. */
    method Sweep(sweep: Sweeping)
      modifies this
      ensures slots == SweptStore(old(slots), sweep)
      ensures forall key: nat :: SweptByTheClocks(old(slots), slots, sweep, key)
    {
      hide HalfBuried, SweptByTheClocks;
      var rest := slots.Keys;
      FirstPassBegins(slots, sweep);
      while rest != {}
        invariant rest <= old(slots).Keys && slots == HalfBuried(old(slots), rest, sweep)
        decreases |rest|
      {
        var key, others := PopFirst(rest);
        FirstPassGoesOn(old(slots), rest, sweep, key);
        var slot := slots[key];
        if slot.LiveSlot? && Elapsed(slot.at, sweep.first(key)) >= PREPARED_TTL_MS {
          slots := slots[key := ExpiredSlot(slot.at.mono)];
        }
        rest := others;
      }
      FirstPassEnds(old(slots), sweep);
      slots := map key | key in slots && !Crumbled(slots[key], sweep.second(key)) :: slots[key];
      forall key: nat ensures SweptByTheClocks(old(slots), slots, sweep, key) {
        SweptStoreByTheClocks(old(slots), sweep, key);
      }
    }
  }

  // --- runs of the store ----------------------------------------------------------------

  datatype StoreOp<T> =
    | ParkOp(key: nat, tx: T, at: Reading)
    | TakeOp(key: nat)
    | DiscardOp(key: nat)
    | SweepOp(sweep: Sweeping)

  /** What the operation answered: the slot that left the store, if one did. */
  datatype StoreReply<T> = Nothing | Handed(slot: Slot<T>) | Discarded

  predicate Touches<T>(op: StoreOp<T>, key: nat) {
    !op.SweepOp? && op.key == key
  }

  /** Operation `p` is the last one before `i` that parked, took or discarded this id: it parked it. */
  ghost predicate LastParking<T(!new)>(script: seq<StoreOp<T>>, i: nat, key: nat, p: nat) {
    && p < i <= |script|
    && script[p].ParkOp? && script[p].key == key
    && forall k :: p < k < i ==> !Touches(script[k], key)
  }

  /** Every sweep since operation `p` found its transaction in time. */
  ghost predicate InTime<T(!new)>(script: seq<StoreOp<T>>, i: nat, p: nat)
    requires p < i <= |script| && script[p].ParkOp?
  {
    forall k :: p < k < i && script[k].SweepOp? ==>
      Within(script[p].at, script[k].sweep.first(script[p].key), PREPARED_TTL_MS)
  }

  /** What a parked id is after operations `p` to `i`. */
  ghost predicate FromParking<T(!new)>(script: seq<StoreOp<T>>, i: nat, p: nat, slot: Slot<T>)
    requires p < i <= |script| && script[p].ParkOp?
  {
    if InTime(script, i, p) then slot == LiveSlot(script[p].tx, script[p].at) else slot == ExpiredSlot(script[p].at.mono)
  }

  /** The slots are what the operations so far left: each comes from its last parking, and a parked
      transaction that every sweep found in time is still there. */
  ghost predicate Reflects<T(!new)>(slots: map<nat, Slot<T>>, script: seq<StoreOp<T>>, i: nat) {
    && i <= |script|
    && (forall key :: key in slots ==> exists p: nat :: LastParking(script, i, key, p) && FromParking(script, i, p, slots[key]))
    && (forall key, p: nat :: LastParking(script, i, key, p) && InTime(script, i, p) ==> key in slots)
  }

  function Operated<T>(slots: map<nat, Slot<T>>, op: StoreOp<T>): map<nat, Slot<T>> {
    match op
    case ParkOp(key, tx, at) => slots[key := LiveSlot(tx, at)]
    case TakeOp(key) => slots - {key}
    case DiscardOp(key) => slots - {key}
    case SweepOp(sweep) => SweptStore(slots, sweep)
  }

  lemma LastParkingIsOne<T(!new)>(script: seq<StoreOp<T>>, i: nat, key: nat, p: nat, q: nat)
    requires LastParking(script, i, key, p) && LastParking(script, i, key, q)
    ensures p == q
  {
  }

  /** One slot through one operation that does not touch its id. */
  lemma UntouchedSlot<T(!new)>(slots: map<nat, Slot<T>>, script: seq<StoreOp<T>>, i: nat, key: nat, p: nat)
    requires i < |script| && LastParking(script, i, key, p) && !Touches(script[i], key)
    requires key in slots && FromParking(script, i, p, slots[key])
    ensures LastParking(script, i + 1, key, p)
    ensures var after := Operated(slots, script[i]);
      && (key in after ==> FromParking(script, i + 1, p, after[key]))
      && (InTime(script, i + 1, p) ==> key in after)
  {
    var slot := slots[key];
    assert InTime(script, i + 1, p) ==> InTime(script, i, p);
    if script[i].SweepOp? {
      var now := script[i].sweep.first(key);
      if InTime(script, i, p) {
        assert InTime(script, i + 1, p) <==> Elapsed(script[p].at, now) < PREPARED_TTL_MS;
        assert Buried(slot, now).LiveSlot? <==> InTime(script, i + 1, p);
      }
    } else {
      assert InTime(script, i + 1, p) <==> InTime(script, i, p);
    }
  }

  lemma ReflectsOneMore<T(!new)>(slots: map<nat, Slot<T>>, script: seq<StoreOp<T>>, i: nat)
    requires i < |script| && Reflects(slots, script, i)
    ensures Reflects(Operated(slots, script[i]), script, i + 1)
  {
    hide FromParking, InTime;
    var after, next := Operated(slots, script[i]), i + 1;
    forall key | key in after
      ensures exists p: nat :: LastParking(script, next, key, p) && FromParking(script, next, p, after[key])
    {
      if Touches(script[i], key) {
        JustParked(script, i, key);
        assert LastParking(script, next, key, i);
      } else {
        assert key in slots;
        var p :| LastParking(script, i, key, p) && FromParking(script, i, p, slots[key]);
        UntouchedSlot(slots, script, i, key, p);
      }
    }
    forall key, p: nat | LastParking(script, next, key, p) && InTime(script, next, p) ensures key in after {
      if p < i {
        assert LastParking(script, i, key, p) && !Touches(script[i], key);
        InTimeBefore(script, i, p);
        var q :| LastParking(script, i, key, q) && FromParking(script, i, q, slots[key]);
        LastParkingIsOne(script, i, key, p, q);
        UntouchedSlot(slots, script, i, key, p);
      }
    }
  }

  lemma JustParked<T(!new)>(script: seq<StoreOp<T>>, i: nat, key: nat)
    requires i < |script|
    ensures script[i].ParkOp? && script[i].key == key ==>
      LastParking(script, i + 1, key, i) && FromParking(script, i + 1, i, LiveSlot(script[i].tx, script[i].at))
  {
  }

  lemma InTimeBefore<T(!new)>(script: seq<StoreOp<T>>, i: nat, p: nat)
    requires p < i < |script| && script[p].ParkOp? && InTime(script, i + 1, p)
    ensures InTime(script, i, p)
  {
  }

  /** An answer that hands out or discards an id goes back to the last operation that touched the
      id, and that one parked it: between two parkings an id leaves the store once at most. What is
      handed out alive is what was parked, found in time by every sweep since; and a transaction
      that every sweep found in time is handed out. */
  ghost predicate AnswerOk<T(!new)>(script: seq<StoreOp<T>>, i: nat, reply: StoreReply<T>)
    requires i < |script|
  {
    match script[i]
    case TakeOp(key) =>
      && (reply.Handed? ==> exists p: nat :: LastParking(script, i, key, p) && FromParking(script, i, p, reply.slot))
      && (forall p: nat :: LastParking(script, i, key, p) && InTime(script, i, p) ==>
            reply == Handed(LiveSlot(script[p].tx, script[p].at)))
      && !reply.Discarded?
    case DiscardOp(key) =>
      && (reply.Discarded? ==> exists p: nat :: LastParking(script, i, key, p))
      && (forall p: nat :: LastParking(script, i, key, p) && InTime(script, i, p) ==> reply.Discarded?)
      && !reply.Handed?
    case _ => reply == Nothing
  }

  lemma AnswerReflects<T(!new)>(slots: map<nat, Slot<T>>, script: seq<StoreOp<T>>, i: nat)
    requires i < |script| && Reflects(slots, script, i)
    ensures script[i].TakeOp? ==>
      AnswerOk(script, i, if script[i].key in slots then Handed(slots[script[i].key]) else Nothing)
    ensures script[i].DiscardOp? ==> AnswerOk(script, i, if script[i].key in slots then Discarded else Nothing)
  {
    if !script[i].SweepOp? {
      var key := script[i].key;
      forall p: nat | LastParking(script, i, key, p) && InTime(script, i, p)
        ensures key in slots && slots[key] == LiveSlot(script[p].tx, script[p].at)
      {
        var q :| LastParking(script, i, key, q) && FromParking(script, i, q, slots[key]);
        LastParkingIsOne(script, i, key, p, q);
      }
    }
  }

  /** Any run of a new store. */
  method RunStore<T(!new)>(script: seq<StoreOp<T>>) returns (replies: seq<StoreReply<T>>)
    ensures |replies| == |script|
    ensures forall i :: 0 <= i < |script| ==> AnswerOk(script, i, replies[i])
  {
    hide AnswerOk, Reflects;
    var store := new PreparedStore<T>();
    EmptyReflects(script);
    replies := [];
    for i := 0 to |script|
      invariant Reflects(store.slots, script, i) && |replies| == i
      invariant forall k :: 0 <= k < i ==> AnswerOk(script, k, replies[k])
    {
      AnswerReflects(store.slots, script, i);
      ReflectsOneMore(store.slots, script, i);
      var reply := Operate(store, script[i]);
      QuietAnswer(script, i);
      replies := replies + [reply];
    }
  }

  lemma EmptyReflects<T(!new)>(script: seq<StoreOp<T>>)
    ensures Reflects(map[], script, 0)
  {
  }

  lemma QuietAnswer<T(!new)>(script: seq<StoreOp<T>>, i: nat)
    requires i < |script|
    ensures script[i].ParkOp? || script[i].SweepOp? ==> AnswerOk(script, i, Nothing)
  {
  }

  method Operate<T>(store: PreparedStore<T>, op: StoreOp<T>) returns (reply: StoreReply<T>)
    modifies store
    ensures store.slots == Operated(old(store.slots), op)
    ensures reply ==
      if op.TakeOp? && op.key in old(store.slots) then Handed(old(store.slots)[op.key])
      else if op.DiscardOp? && op.key in old(store.slots) then Discarded
      else Nothing
  {
    reply := Nothing;
    match op {
      case ParkOp(key, tx, at) => store.ParkSigned(key, tx, at);
      case TakeOp(key) =>
        var slot := store.TakeSigned(key);
        if slot.Some? {
          reply := Handed(slot.value);
        }
      case DiscardOp(key) =>
        var found := store.DiscardSigned(key);
        reply := if found then Discarded else Nothing;
      case SweepOp(sweep) => store.Sweep(sweep);
    }
  }
}
