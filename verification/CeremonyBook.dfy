/** The book of the signature ceremony: pending requests and the ids remembered as expired. The
    bounded memories are sets that drop their smallest members one at a time; what they hold is
    described without that order. */
module CeremonyBook {
  import opened Common
  import opened CeremonyChain

  const EXPIRED_IDS_KEPT: nat := 4096
  const WATCHED_IDS_KEPT: nat := 64
  const PENDING_TTL_MS: nat := 15 * 60 * 1000

  datatype Reading = Reading(mono: nat, wallMs: nat)

  function Since(later: nat, earlier: nat): nat {
    if later >= earlier then later - earlier else 0
  }

  /** The larger of the monotonic and the wall-clock elapsed time. */
  function Elapsed(created: Reading, now: Reading): nat {
    var mono, wall := Since(now.mono, created.mono), Since(now.wallMs, created.wallMs);
    if mono >= wall then mono else wall
  }

  /** Less than `ttl` after `created` on each of the two clocks. */
  predicate Within(created: Reading, now: Reading, ttl: nat) {
    now.mono < created.mono + ttl && now.wallMs < created.wallMs + ttl
  }

  /** Neither a wall clock set back nor a monotonic clock that stood still in sleep prolongs
      anything. */
  lemma ElapsedOnBothClocks(created: Reading, now: Reading, ttl: nat)
    requires ttl > 0
    ensures Elapsed(created, now) < ttl <==> Within(created, now, ttl)
  {
  }

  datatype Pending = Pending(intent: Intent, requiresRawAck: bool, created: Reading)

  // --- the largest members of a set ---------------------------------------------------

  function Above(s: set<nat>, x: nat): set<nat> {
    set y | y in s && y > x
  }

  /** The `n` largest members. */
  function KeepLargest(s: set<nat>, n: nat): set<nat> {
    set x | x in s && |Above(s, x)| < n
  }

  predicate IsLeast(s: set<nat>, least: nat) {
    least in s && forall y :: y in s ==> least <= y
  }

  lemma {:induction false} HasLeast(s: set<nat>)
    requires s != {}
    ensures exists least :: IsLeast(s, least)
    decreases |s|
  {
    var x :| x in s;
    if s == {x} {
      assert IsLeast(s, x);
    } else {
      HasLeast(s - {x});
      var y :| IsLeast(s - {x}, y);
      forall z | z in s ensures y <= z || x == z {
        assert z != x ==> z in s - {x};
      }
      assert IsLeast(s, if x < y then x else y);
    }
  }

  lemma KeepAll(s: set<nat>, n: nat)
    requires |s| <= n
    ensures KeepLargest(s, n) == s
  {
    forall x | x in s ensures |Above(s, x)| < n {
      SubsetSize(Above(s, x), s);
    }
  }

  lemma DropLeast(s: set<nat>, least: nat, n: nat)
    requires IsLeast(s, least) && |s| > n
    ensures KeepLargest(s, n) == KeepLargest(s - {least}, n)
  {
    var rest := s - {least};
    assert Above(s, least) == rest;
    forall x | x in rest ensures Above(s, x) == Above(rest, x) {
    }
  }

  lemma {:induction false} KeepBounded(s: set<nat>, n: nat)
    ensures |KeepLargest(s, n)| <= n
    decreases |s|
  {
    if |s| <= n {
      KeepAll(s, n);
    } else {
      HasLeast(s);
      var least :| IsLeast(s, least);
      DropLeast(s, least, n);
      KeepBounded(s - {least}, n);
    }
  }

  /** Trimming before an insertion changes nothing: the bound may be applied member by member. */
  lemma {:induction false} KeepOneMore(s: set<nat>, x: nat, n: nat)
    ensures KeepLargest(KeepLargest(s, n) + {x}, n) == KeepLargest(s + {x}, n)
    decreases |s|
  {
    hide KeepLargest;
    if |s| <= n {
      KeepAll(s, n);
    } else {
      HasLeast(s);
      var least :| IsLeast(s, least);
      var rest := s - {least};
      DropLeast(s, least, n);
      KeepOneMore(rest, x, n);
      if x < least {
        assert (s + {x}) - {x} == s && (rest + {x}) - {x} == rest;
        DropLeast(s + {x}, x, n);
        DropLeast(rest + {x}, x, n);
      } else if x == least {
        assert s + {x} == rest + {x};
      } else {
        SubsetSize(s, s + {x});
        assert (s + {x}) - {least} == rest + {x};
        DropLeast(s + {x}, least, n);
      }
    }
  }

  // --- the book -------------------------------------------------------------------------

  datatype BookState = BookState(
    pending: map<nat, Pending>, expired: set<nat>, watched: set<nat>, expiredWatched: set<nat>)

  const EMPTY_BOOK := BookState(map[], {}, {}, {})

  ghost predicate BookOk(b: BookState) {
    && |b.expired| <= 4096
    && |b.watched| <= 64
    && b.expiredWatched <= b.watched
    && b.expired !! b.expiredWatched
    && b.pending.Keys !! (b.expired + b.expiredWatched)
  }

  function Stale(pending: map<nat, Pending>, now: Reading, ttl: nat): set<nat> {
    set key | key in pending && Elapsed(pending[key].created, now) >= ttl
  }

  /** A watched id goes to the watched memory, every other one to the bounded memory. */
  function Remembering(b: BookState, keys: set<nat>): BookState {
    b.(expired := KeepLargest(b.expired + (keys - b.watched), EXPIRED_IDS_KEPT),
       expiredWatched := b.expiredWatched + keys * b.watched)
  }

  function Watching(b: BookState, key: nat): BookState {
    var watched := KeepLargest(b.watched + {key}, WATCHED_IDS_KEPT);
    b.(watched := watched, expiredWatched := b.expiredWatched * watched)
  }

  /** Every request that outlived `ttl` is removed and remembered. */
  function Swept(b: BookState, now: Reading, ttl: nat): BookState {
    var stale := Stale(b.pending, now, ttl);
    Remembering(b.(pending := b.pending - stale), stale)
  }

  lemma RememberNone(b: BookState)
    requires |b.expired| <= EXPIRED_IDS_KEPT
    ensures Remembering(b, {}) == b
  {
    KeepAll(b.expired, EXPIRED_IDS_KEPT);
    assert b.expired + ({} - b.watched) == b.expired;
  }

  lemma RememberOne(b: BookState, key: nat)
    requires |b.expired| <= EXPIRED_IDS_KEPT
    ensures Remembering(b, {key}) ==
      if key in b.watched then b.(expiredWatched := b.expiredWatched + {key})
      else b.(expired := KeepLargest(b.expired + {key}, EXPIRED_IDS_KEPT))
  {
    if key in b.watched {
      KeepAll(b.expired, EXPIRED_IDS_KEPT);
      assert {key} - b.watched == {} && {key} * b.watched == {key} && b.expired + {} == b.expired;
    } else {
      assert {key} - b.watched == {key} && b.expiredWatched + {key} * b.watched == b.expiredWatched;
    }
  }

  /** Ids may be remembered one by one. */
  lemma RememberOneMore(b: BookState, keys: set<nat>, key: nat)
    ensures Remembering(Remembering(b, keys), {key}) == Remembering(b, keys + {key})
  {
    hide KeepLargest;
    var first, all := b.expired + (keys - b.watched), b.expired + (keys + {key} - b.watched);
    if key in b.watched {
      KeepBounded(first, EXPIRED_IDS_KEPT);
      KeepAll(KeepLargest(first, EXPIRED_IDS_KEPT), EXPIRED_IDS_KEPT);
      assert {key} - b.watched == {} && all == first;
    } else {
      KeepOneMore(first, key, EXPIRED_IDS_KEPT);
      assert {key} - b.watched == {key} && all == first + {key};
    }
  }

  /** Remembering does not look at the pending requests. */
  lemma RememberAside(b: BookState, other: map<nat, Pending>, key: nat)
    ensures Remembering(b.(pending := other), {key}) == Remembering(b, {key}).(pending := other)
    ensures Remembering(b, {key}).pending == b.pending
    ensures |Remembering(b, {key}).expired| <= EXPIRED_IDS_KEPT
  {
    KeepBounded(b.expired + ({key} - b.watched), EXPIRED_IDS_KEPT);
  }

  /** A sweep that still has `rest` to bury. */
  ghost predicate HalfSwept(start: BookState, stale: set<nat>, rest: set<nat>, b: BookState) {
    var kept := start.pending - stale;
    && rest <= stale && b.pending == start.pending - (stale - rest) && |b.expired| <= EXPIRED_IDS_KEPT
    && b.(pending := kept) == Remembering(start.(pending := kept), stale - rest)
  }

  lemma SweepBegins(start: BookState, stale: set<nat>)
    requires |start.expired| <= EXPIRED_IDS_KEPT
    ensures HalfSwept(start, stale, stale, start)
  {
    RememberNone(start.(pending := start.pending - stale));
    assert stale - stale == {};
  }

  lemma SweepGoesOn(start: BookState, stale: set<nat>, rest: set<nat>, b: BookState, key: nat)
    requires HalfSwept(start, stale, rest, b) && key in rest
    ensures HalfSwept(start, stale, rest - {key}, Remembering(b.(pending := b.pending - {key}), {key}))
    ensures |Remembering(b.(pending := b.pending - {key}), {key}).expired| <= EXPIRED_IDS_KEPT
  {
    hide Remembering;
    var kept, done := start.pending - stale, stale - rest;
    var aside := b.(pending := b.pending - {key});
    RememberOneMore(start.(pending := kept), done, key);
    RememberAside(aside, kept, key);
    assert aside.(pending := kept) == b.(pending := kept);
    assert stale - (rest - {key}) == done + {key};
    assert b.pending - {key} == start.pending - (done + {key});
  }

  lemma SweepEnds(start: BookState, now: Reading, ttl: nat, b: BookState)
    requires HalfSwept(start, Stale(start.pending, now, ttl), {}, b)
    ensures b == Swept(start, now, ttl)
  {
    hide Remembering;
    var stale := Stale(start.pending, now, ttl);
    assert stale - {} == stale;
  }

  predicate ReadsExpired(b: BookState, key: nat) {
    key in b.expired || key in b.expiredWatched
  }

  lemma WatchingOk(b: BookState, key: nat)
    requires BookOk(b)
    ensures BookOk(Watching(b, key))
  {
    KeepBounded(b.watched + {key}, WATCHED_IDS_KEPT);
  }

  lemma RememberingOk(b: BookState, keys: set<nat>)
    requires BookOk(b) && keys !! b.pending.Keys && keys !! (b.expired + b.expiredWatched)
    ensures BookOk(Remembering(b, keys))
  {
    KeepBounded(b.expired + (keys - b.watched), EXPIRED_IDS_KEPT);
  }

  lemma SweptOk(b: BookState, now: Reading, ttl: nat)
    requires BookOk(b)
    ensures BookOk(Swept(b, now, ttl))
  {
    RememberingOk(b.(pending := b.pending - Stale(b.pending, now, ttl)), Stale(b.pending, now, ttl));
  }

  /** What a sweep leaves pending: exactly what is in time on both clocks. */
  lemma SweptIsWithin(b: BookState, now: Reading, ttl: nat)
    requires ttl > 0
    ensures forall key :: key in Swept(b, now, ttl).pending <==> key in b.pending && Within(b.pending[key].created, now, ttl)
    ensures forall key :: key in Swept(b, now, ttl).pending ==> Swept(b, now, ttl).pending[key] == b.pending[key]
  {
    hide KeepLargest, Elapsed, Within;
    forall key | key in b.pending {
      ElapsedOnBothClocks(b.pending[key].created, now, ttl);
    }
  }

  lemma SweptIsPart(b: BookState, now: Reading, ttl: nat)
    ensures forall key :: key in Swept(b, now, ttl).pending ==> key in b.pending && Swept(b, now, ttl).pending[key] == b.pending[key]
  {
  }

  /** A request is taken exactly when it is pending and in time on both clocks. */
  lemma LiveIsTaken(b: BookState, key: nat, now: Reading, ttl: nat)
    requires BookOk(b) && ttl > 0
    ensures Taking(Swept(b, now, ttl), key).Ok? <==> key in b.pending && Within(b.pending[key].created, now, ttl)
    ensures Taking(Swept(b, now, ttl), key).Ok? ==>
      key in b.pending && Taking(Swept(b, now, ttl), key).value == b.pending[key]
  {
    hide KeepLargest, Swept, Within;
    SweptOk(b, now, ttl);
    SweptIsWithin(b, now, ttl);
  }

  datatype TakeError = ExpiredId | UnknownId

  function Taking(b: BookState, key: nat): Result<Pending, TakeError> {
    if ReadsExpired(b, key) then Err(ExpiredId)
    else if key in b.pending then Ok(b.pending[key])
    else Err(UnknownId)
  }

  function Without(b: BookState, key: nat): BookState {
    b.(pending := b.pending - {key})
  }

  /** Takes the smallest member out of an ordered set. */
  method PopFirst(s: set<nat>) returns (least: nat, rest: set<nat>)
    requires s != {}
    ensures IsLeast(s, least) && rest == s - {least} && |rest| == |s| - 1
  {
    HasLeast(s);
    least :| IsLeast(s, least);
    rest := s - {least};
  }

  class Book {
    var pending: map<nat, Pending>
    var expired: set<nat>
    var watched: set<nat>
    var expiredWatched: set<nat>

    ghost function State(): BookState
      reads this
    {
      BookState(pending, expired, watched, expiredWatched)
    }

    constructor ()
      ensures State() == EMPTY_BOOK
    {
      pending, expired, watched, expiredWatched := map[], {}, {}, {};
    }

    method RememberExpired(key: nat)
      requires |expired| <= EXPIRED_IDS_KEPT
      modifies `expired, `expiredWatched
      ensures State() == Remembering(old(State()), {key})
    {
      hide KeepLargest, Remembering;
      RememberOne(State(), key);
      if key in watched {
        expiredWatched := expiredWatched + {key};
        return;
      }
      expired := expired + {key};
      while |expired| > EXPIRED_IDS_KEPT
        invariant KeepLargest(expired, EXPIRED_IDS_KEPT) == KeepLargest(old(expired) + {key}, EXPIRED_IDS_KEPT)
        invariant expiredWatched == old(expiredWatched)
        decreases |expired|
      {
        var least, rest := PopFirst(expired);
        DropLeast(expired, least, EXPIRED_IDS_KEPT);
        expired := rest;
      }
      KeepAll(expired, EXPIRED_IDS_KEPT);
    }

    method Watch(key: nat)
      requires expiredWatched <= watched
      modifies `watched, `expiredWatched
      ensures State() == Watching(old(State()), key)
    {
      watched := watched + {key};
      ghost var all := watched;
      while |watched| > WATCHED_IDS_KEPT
        invariant KeepLargest(watched, WATCHED_IDS_KEPT) == KeepLargest(all, WATCHED_IDS_KEPT)
        invariant watched <= all && expiredWatched == old(expiredWatched) * watched
        decreases |watched|
      {
        var oldest, rest := PopFirst(watched);
        DropLeast(watched, oldest, WATCHED_IDS_KEPT);
        watched := rest;
        expiredWatched := expiredWatched - {oldest};
      }
      KeepAll(watched, WATCHED_IDS_KEPT);
    }

    /** Removes every expired request first, so nothing below the lock can see one. */
    method Live(now: Reading, ttl: nat)
      requires |expired| <= EXPIRED_IDS_KEPT
      modifies this
      ensures State() == Swept(old(State()), now, ttl)
      ensures ttl > 0 ==> forall key :: key in pending <==> key in old(pending) && Within(old(pending)[key].created, now, ttl)
    {
      hide KeepLargest, Remembering, IsLeast, Stale, HalfSwept, Swept, Within;
      var stale := Stale(pending, now, ttl);
      var rest := stale;
      SweepBegins(State(), stale);
      while rest != {}
        invariant HalfSwept(old(State()), stale, rest, State()) && |expired| <= EXPIRED_IDS_KEPT
        decreases |rest|
      {
        var key, others := PopFirst(rest);
        SweepGoesOn(old(State()), stale, rest, State(), key);
        pending := pending - {key};
        RememberExpired(key);
        rest := others;
      }
      SweepEnds(old(State()), now, ttl, State());
      if ttl > 0 {
        SweptIsWithin(old(State()), now, ttl);
      }
    }

    /** Consumes a live request: one that is pending and in time on both clocks. */
    method TakeLive(key: nat, now: Reading, ttl: nat) returns (taken: Result<Pending, TakeError>)
      requires |expired| <= EXPIRED_IDS_KEPT
      modifies this
      ensures old(BookOk(State())) && ttl > 0 ==>
        (taken.Ok? <==> key in old(pending) && Within(old(pending)[key].created, now, ttl))
      ensures taken.Ok? ==> key in old(pending) && taken.value == old(pending)[key]
      ensures taken == Taking(Swept(old(State()), now, ttl), key)
      ensures State() == if taken.Ok? then Without(Swept(old(State()), now, ttl), key) else Swept(old(State()), now, ttl)
    {
      hide KeepLargest, Swept, Within;
      SweptIsPart(State(), now, ttl);
      if BookOk(State()) && ttl > 0 {
        LiveIsTaken(State(), key, now, ttl);
      }
      Live(now, ttl);
      if key in expired || key in expiredWatched {
        return Err(ExpiredId);
      }
      if key in pending {
        taken := Ok(pending[key]);
        pending := pending - {key};
      } else {
        taken := Err(UnknownId);
      }
    }
  }
}
