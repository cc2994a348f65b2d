/** Failure-compatible wrappers shared by every module of the model.

    `Option` stands for Python's "value or None"; `Result` for "value or a
    raised exception". `Fault` names the exception classes that escape the
    scrapers and loaders: each of them ends the Python run that raised it.
 */
module Wrappers {

  datatype Option<+T> = None | Some(value: T) {
    predicate IsFailure() { None? }

    function PropagateFailure<U>(): Option<U>
      requires None?
    {
      None
    }

    function Extract(): T
      requires Some?
    {
      value
    }

    function GetOr(default: T): T {
      match this
      case Some(v) => v
      case None => default
    }
  }

  /** The Python exceptions the model distinguishes. */
  datatype Fault =
    | KeyError(key: string)          // `d[key]` on a dict without that key
    | TypeError(what: string)        // wrong shape: iterating a number, indexing a list by a string, ...
    | AttributeError(name: string)   // a missing attribute: `.get` on a list, `.url` on `None`, ...
    | ValueError(what: string)       // `int(...)` of a non-numeral, `range` with step 0
    | IndexError(what: string)       // `fields[1]` of a one-field split
    | IntegrityError(what: string)   // primary-key conflict at commit time
    | Exit(code: int)                // an explicit `exit(code)`

  datatype Result<+T> = Ok(value: T) | Err(fault: Fault) {
    predicate IsFailure() { Err? }

    function PropagateFailure<U>(): Result<U>
      requires Err?
    {
      Err(fault)
    }

    function Extract(): T
      requires Ok?
    {
      value
    }
  }
  /** `f` fails with `e` on element `i` and on none before it. */
  predicate FirstFailure<A, T>(xs: seq<A>, f: A -> Result<T>, i: int, e: Fault) {
    0 <= i < |xs| && f(xs[i]) == Err(e) && forall j :: 0 <= j < i ==> f(xs[j]).Ok?
  }

  /** Applies `f` to every element in order; the first element it fails on
      ends the walk with that failure, as a Python loop that raises does. */
  function MapAll<A, T>(xs: seq<A>, f: A -> Result<T>): (r: Result<seq<T>>)
    ensures r.Ok? <==> forall i :: 0 <= i < |xs| ==> f(xs[i]).Ok?
    ensures r.Ok? ==> |r.value| == |xs| && forall i :: 0 <= i < |xs| ==> r.value[i] == f(xs[i]).value
    ensures r.Err? ==> exists i :: FirstFailure(xs, f, i, r.fault)
    decreases |xs|
  {
    if xs == [] then Ok([])
    else
      match f(xs[0])
      case Err(e) =>
        assert FirstFailure(xs, f, 0, e);
        Err(e)
      case Ok(y) =>
        match MapAll(xs[1..], f)
        case Err(e) =>
          FailureShift(xs, f, e);
          Err(e)
        case Ok(ys) =>
          assert forall i :: 1 <= i < |xs| ==> xs[i] == xs[1..][i - 1];
          Ok([y] + ys)
  }

  lemma FailureShift<A, T>(xs: seq<A>, f: A -> Result<T>, e: Fault)
    requires xs != [] && f(xs[0]).Ok? && exists i :: FirstFailure(xs[1..], f, i, e)
    ensures exists i :: FirstFailure(xs, f, i, e)
  {
    var i :| FirstFailure(xs[1..], f, i, e);
    assert forall j :: 1 <= j <= i ==> xs[j] == xs[1..][j - 1];
    assert FirstFailure(xs, f, i + 1, e);
  }

  /** A walk where `f` gives each element its counterpart in `ys` yields
      exactly `ys`. */
  lemma MapAllOk<A, T>(xs: seq<A>, f: A -> Result<T>, ys: seq<T>)
    requires |xs| == |ys| && forall i :: 0 <= i < |xs| ==> f(xs[i]) == Ok(ys[i])
    ensures MapAll(xs, f) == Ok(ys)
  {
    var r := MapAll(xs, f);
    assert forall i :: 0 <= i < |xs| ==> f(xs[i]).Ok?;
    assert r.Ok?;
    assert |r.value| == |ys| && forall i :: 0 <= i < |xs| ==> r.value[i] == ys[i];
    assert r.value == ys;
  }

  /** Applies `f` to every element, as a list comprehension does. */
  function Map<A, B>(xs: seq<A>, f: A -> B): (ys: seq<B>)
    ensures |ys| == |xs| && forall i :: 0 <= i < |xs| ==> ys[i] == f(xs[i])
  {
    seq(|xs|, i requires 0 <= i < |xs| => f(xs[i]))
  }

  lemma MapAppend<A, B>(a: seq<A>, b: seq<A>, f: A -> B)
    ensures Map(a + b, f) == Map(a, f) + Map(b, f)
  {
    var l, m := Map(a + b, f), Map(a, f) + Map(b, f);
    forall k | 0 <= k < |l| ensures l[k] == m[k] {
      if k < |a| {
        assert (a + b)[k] == a[k];
      } else {
        assert (a + b)[k] == b[k - |a|];
      }
    }
  }

  /** The positions of the elements that satisfy `p`, in increasing order. */
  function Where<T>(xs: seq<T>, p: T -> bool): (idx: seq<nat>)
    ensures forall k :: 0 <= k < |idx| ==> idx[k] < |xs| && p(xs[idx[k]])
    ensures forall a, b :: 0 <= a < b < |idx| ==> idx[a] < idx[b]
    ensures forall i :: 0 <= i < |xs| && p(xs[i]) ==> i in idx
    decreases |xs|
  {
    if xs == [] then []
    else
      var init := xs[..|xs| - 1];
      var rest := Where(init, p);
      assert forall i :: 0 <= i < |init| ==> xs[i] == init[i];
      if p(xs[|xs| - 1]) then rest + [|xs| - 1] else rest
  }
}
