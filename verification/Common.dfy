/** Failure-compatible datatypes and the outcome of one call to the outside world. */
module Common {

  datatype Option<+T> = None | Some(value: T) {
    function GetOr(default: T): T {
      match this
      case Some(v) => v
      case None => default
    }
  }

  datatype Result<+T, +E> = Ok(value: T) | Err(error: E) {
    predicate IsFailure() {
      Err?
    }

    function PropagateFailure<U>(): Result<U, E>
      requires Err?
    {
      Err(error)
    }

    function Extract(): T
      requires Ok?
    {
      value
    }
  }

  /** What the outside world does with one input/output call: the call takes effect, the call
      reports an error and changes nothing, or the process stops before the call takes effect. */
  datatype Outcome = Done | Failed | Stop

  /** How many of the calls to come do not take effect. */
  function Mishaps(faults: seq<Outcome>): nat {
    if faults == [] then 0 else Mishaps(faults[1..]) + if faults[0].Done? then 0 else 1
  }

  /** The position of the first element from `from` on with a property, or the length. */
  function Search<T>(s: seq<T>, has: T -> bool, from: nat): (i: nat)
    requires from <= |s|
    ensures from <= i <= |s| && (i < |s| ==> has(s[i]))
    ensures forall j :: from <= j < i ==> !has(s[j])
    decreases |s| - from
  {
    if from == |s| || has(s[from]) then from else Search(s, has, from + 1)
  }

  /** The first element with a property. */
  function First<T>(s: seq<T>, has: T -> bool): (r: Option<T>)
    ensures r.Some? ==> exists i :: 0 <= i < |s| && s[i] == r.value && has(s[i]) && forall j :: 0 <= j < i ==> !has(s[j])
    ensures r.None? ==> forall i :: 0 <= i < |s| ==> !has(s[i])
  {
    var i := Search(s, has, 0);
    if i < |s| then Some(s[i]) else None
  }

  lemma SubsetSize<T>(a: set<T>, b: set<T>)
    requires a <= b
    ensures |a| <= |b| && (a != b ==> |a| < |b|)
  {
    assert b == a + (b - a);
  }
}
