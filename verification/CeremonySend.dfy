/** Sending signed bytes: concurrent attempts on the same bytes, a durable record written before
    each send, a per-process count of attempts, restarts, and a node that may take bytes late.
    `hash` stands for the bytes; the hash of signed bytes is taken to be injective. */
module CeremonySend {
  import opened Common

  /** An attempt in progress: recorded and being sent, or answered with an error. */
  datatype Attempt =
    | Recorded(hash: nat, first: bool)
    | Refused(hash: nat, first: bool, definitive: bool)

  datatype Event =
    | Accepted(hash: nat)          // the node took the bytes
    | Submitted(hash: nat)         // an attempt reported the node's answer
    | NotSubmitted(hash: nat)      // an attempt reported that the node refused the bytes
    | OutcomeUnknown(hash: nat)
    | NothingSent(hash: nat)       // no durable record, so no send

  datatype State = State(
    seen: set<nat>,                // the durable record
    certain: bool,                 // the record holds every earlier submission
    counts: map<nat, nat>,         // attempts of this process
    attempts: map<nat, Attempt>,
    afloat: set<nat>,              // handed over without a clear answer
    log: seq<Event>)

  const INITIAL := State({}, true, map[], map[], {}, [])

  datatype Act =
    | Record(t: nat, hash: nat, durable: bool)
    | Accept(t: nat, answered: bool)
    | Refuse(t: nat)               // an answer that proves this attempt was not taken
    | LoseAnswer(t: nat)
    | Deliver(hash: nat)
    | Report(t: nat)
    | Restart(damaged: bool)       // the process ends; its record may be found damaged

  function Count(s: State, hash: nat): nat {
    if hash in s.counts then s.counts[hash] else 0
  }

  function Logged(s: State, e: Event): State {
    s.(log := s.log + [e])
  }

  function RecordStep(s: State, t: nat, hash: nat, durable: bool): State {
    if t in s.attempts then s
    else if !durable then Logged(s, NothingSent(hash))
    else s.(
      seen := s.seen + {hash},
      counts := s.counts[hash := Count(s, hash) + 1],
      attempts := s.attempts[t := Recorded(hash, s.certain && hash !in s.seen)])
  }

  /** The node takes the bytes; its answer may still be lost. */
  function AcceptStep(s: State, t: nat, answered: bool): State {
    if t in s.attempts && s.attempts[t].Recorded? then
      var Recorded(hash, first) := s.attempts[t];
      var taken := Logged(s, Accepted(hash));
      if answered then Logged(taken.(attempts := s.attempts - {t}), Submitted(hash))
      else taken.(attempts := s.attempts[t := Refused(hash, first, false)])
    else s
  }

  function RefuseStep(s: State, t: nat): State {
    if t in s.attempts && s.attempts[t].Recorded?
    then s.(attempts := s.attempts[t := Refused(s.attempts[t].hash, s.attempts[t].first, true)])
    else s
  }

  function LoseAnswerStep(s: State, t: nat): State {
    if t in s.attempts && s.attempts[t].Recorded?
    then s.(afloat := s.afloat + {s.attempts[t].hash},
            attempts := s.attempts[t := Refused(s.attempts[t].hash, s.attempts[t].first, false)])
    else s
  }

  function DeliverStep(s: State, hash: nat): State {
    if hash in s.afloat then Logged(s, Accepted(hash)) else s
  }

  /** "Not submitted" only for a definitive refusal of a first submission that no other attempt
      overlapped. */
  function ReportStep(s: State, t: nat): State {
    if t in s.attempts && s.attempts[t].Refused? then
      var Refused(hash, first, definitive) := s.attempts[t];
      var verdict := if first && Count(s, hash) == 1 && definitive then NotSubmitted(hash) else OutcomeUnknown(hash);
      Logged(s.(attempts := s.attempts - {t}), verdict)
    else s
  }

  function RestartStep(s: State, damaged: bool): State {
    s.(seen := if damaged then {} else s.seen,
       certain := s.certain && !damaged,
       counts := map[],
       attempts := map[],
       afloat := s.afloat + set t | t in s.attempts :: s.attempts[t].hash)
  }

  function Apply(s: State, a: Act): State {
    match a
    case Record(t, hash, durable) => RecordStep(s, t, hash, durable)
    case Accept(t, answered) => AcceptStep(s, t, answered)
    case Refuse(t) => RefuseStep(s, t)
    case LoseAnswer(t) => LoseAnswerStep(s, t)
    case Deliver(hash) => DeliverStep(s, hash)
    case Report(t) => ReportStep(s, t)
    case Restart(damaged) => RestartStep(s, damaged)
  }

  function Run(s: State, acts: seq<Act>): State
    decreases |acts|
  {
    if acts == [] then s else Apply(Run(s, acts[..|acts| - 1]), acts[|acts| - 1])
  }

  // --- the invariant ----------------------------------------------------------------------

  /** These bytes may have reached the node. */
  ghost predicate Exposed(s: State, hash: nat) {
    hash in s.afloat || Accepted(hash) in s.log
  }

  /** A first attempt that is still alone and has not lost its answer is all there is. */
  ghost predicate Alone(s: State, t: nat)
    requires t in s.attempts
  {
    var hash := s.attempts[t].hash;
    && 1 <= Count(s, hash)
    && (Count(s, hash) == 1 ==> forall u :: u in s.attempts && s.attempts[u].hash == hash ==> u == t)
    && (s.attempts[t].first && Count(s, hash) == 1 && (s.attempts[t].Refused? ==> s.attempts[t].definitive) ==> !Exposed(s, hash))
  }

  ghost predicate Complete(s: State) {
    && (forall hash :: hash in s.counts ==> hash in s.seen)
    && (s.certain ==> forall hash: nat :: Exposed(s, hash) ==> hash in s.seen)
  }

  /** No report of a refusal comes after an acceptance of the same bytes. */
  ghost predicate Truthful(log: seq<Event>) {
    forall i, j :: 0 <= i < j < |log| && log[i].Accepted? && log[j].NotSubmitted? ==> log[i].hash != log[j].hash
  }

  ghost predicate Inv(s: State) {
    && (forall t :: t in s.attempts ==> Alone(s, t))
    && Complete(s) && Truthful(s.log)
  }

  lemma RecordInv(s: State, t: nat, hash: nat, durable: bool)
    requires Inv(s)
    ensures Inv(RecordStep(s, t, hash, durable))
  {
  }

  lemma AcceptInv(s: State, t: nat, answered: bool)
    requires Inv(s)
    ensures Inv(AcceptStep(s, t, answered))
  {
  }

  lemma RefuseInv(s: State, t: nat)
    requires Inv(s)
    ensures Inv(RefuseStep(s, t))
  {
  }

  lemma LoseAnswerInv(s: State, t: nat)
    requires Inv(s)
    ensures Inv(LoseAnswerStep(s, t))
  {
  }

  lemma DeliverInv(s: State, hash: nat)
    requires Inv(s)
    ensures Inv(DeliverStep(s, hash))
  {
  }

  lemma ReportInv(s: State, t: nat)
    requires Inv(s)
    ensures Inv(ReportStep(s, t))
  {
  }

  lemma RestartInv(s: State, damaged: bool)
    requires Inv(s)
    ensures Inv(RestartStep(s, damaged))
  {
  }

  lemma {:induction false} RunInv(s: State, acts: seq<Act>)
    requires Inv(s)
    ensures Inv(Run(s, acts))
    decreases |acts|
  {
    hide Inv;
    if acts != [] {
      var before := Run(s, acts[..|acts| - 1]);
      RunInv(s, acts[..|acts| - 1]);
      match acts[|acts| - 1] {
        case Record(t, hash, durable) => RecordInv(before, t, hash, durable);
        case Accept(t, answered) => AcceptInv(before, t, answered);
        case Refuse(t) => RefuseInv(before, t);
        case LoseAnswer(t) => LoseAnswerInv(before, t);
        case Deliver(hash) => DeliverInv(before, hash);
        case Report(t) => ReportInv(before, t);
        case Restart(damaged) => RestartInv(before, damaged);
      }
    }
  }

  /** The steps of other attempts on other bytes, and deliveries; no restart. */
  ghost predicate Aside(acts: seq<Act>, t: nat, hash: nat) {
    forall i :: 0 <= i < |acts| ==>
      match acts[i]
      case Record(u, other, _) => u != t && other != hash
      case Accept(u, _) => u != t
      case Refuse(u) => u != t
      case LoseAnswer(u) => u != t
      case Deliver(_) => true
      case Report(u) => u != t
      case Restart(_) => false
  }

  lemma {:induction false} AsideKeeps(s: State, acts: seq<Act>, t: nat, hash: nat)
    requires Aside(acts, t, hash)
    ensures var after := Run(s, acts);
      && Count(after, hash) == Count(s, hash)
      && (t in s.attempts <==> t in after.attempts) && (t in s.attempts ==> after.attempts[t] == s.attempts[t])
    decreases |acts|
  {
    if acts != [] {
      AsideKeeps(s, acts[..|acts| - 1], t, hash);
    }
  }

  /** An attempt that ended without the node taking the bytes reports "not submitted" exactly when it
      was the first and sole submission of them and definitively refused, and otherwise that the
      outcome is unknown. */
  lemma ReportSaysWhich(s: State, t: nat)
    requires t in s.attempts && s.attempts[t].Refused?
    ensures var Refused(hash, first, definitive) := s.attempts[t];
      var log := Apply(s, Report(t)).log;
      && s.log < log && |log| == |s.log| + 1 && t !in Apply(s, Report(t)).attempts
      && (log[|s.log|] == NotSubmitted(hash) <==> first && definitive && Count(s, hash) == 1)
      && (log[|s.log|] == OutcomeUnknown(hash) <==> !(first && definitive && Count(s, hash) == 1))
  {
  }

  /** An attempt whose bytes the node takes and answers for is reported as submitted. */
  lemma AcceptedIsReported(s: State, t: nat, hash: nat, between: seq<Act>)
    requires t !in s.attempts && Aside(between, t, hash)
    ensures var before := Run(Apply(s, Record(t, hash, true)), between);
      Apply(before, Accept(t, true)).log == before.log + [Accepted(hash), Submitted(hash)]
  {
    hide Run;
    AsideKeeps(Apply(s, Record(t, hash, true)), between, t, hash);
  }

  /** The first submission of some bytes, definitively refused by the node while no other attempt
      submits them, is reported as not submitted. */
  lemma SoleRefusalIsReported(s: State, t: nat, hash: nat, b1: seq<Act>, b2: seq<Act>)
    requires Inv(s) && t !in s.attempts && s.certain && hash !in s.seen
    requires Aside(b1, t, hash) && Aside(b2, t, hash)
    ensures var before := Run(Apply(Run(Apply(s, Record(t, hash, true)), b1), Refuse(t)), b2);
      Apply(before, Report(t)).log == before.log + [NotSubmitted(hash)]
  {
    hide Run;
    var recorded := Apply(s, Record(t, hash, true));
    AsideKeeps(recorded, b1, t, hash);
    AsideKeeps(Apply(Run(recorded, b1), Refuse(t)), b2, t, hash);
  }

  /** Whatever attempts overlap, restart or arrive late: when an attempt reports that the bytes
      were not submitted, no attempt has had them accepted. */
  lemma NotSubmittedMeansNotAccepted(acts: seq<Act>, i: nat, j: nat)
    requires i < j < |Run(INITIAL, acts).log|
    requires Run(INITIAL, acts).log[j].NotSubmitted?
    ensures Run(INITIAL, acts).log[i] != Accepted(Run(INITIAL, acts).log[j].hash)
  {
    RunInv(INITIAL, acts);
  }
}
