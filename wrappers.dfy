/** Failure-carrying results. A Go panic or a returned `error` becomes a failure value. */
module Wrappers {

  datatype Option<+T> = None | Some(value: T)

  datatype Result<+T> = Success(value: T) | Failure(message: string) {
    predicate IsFailure() {
      Failure?
    }

    function PropagateFailure<U>(): Result<U>
      requires Failure?
    {
      Failure(message)
    }

    function Extract(): T
      requires Success?
    {
      value
    }
  }

  /** `f` applied to every element in order: all the results, or the first failure. */
  function MapAll<A, B>(xs: seq<A>, f: A -> Result<B>): Result<seq<B>>
    decreases |xs|
  {
    if xs == [] then Success([])
    else
      var init :- MapAll(xs[..|xs| - 1], f);
      var y :- f(xs[|xs| - 1]);
      Success(init + [y])
  }

  /** One more element: its result is appended, or its failure is the result. */
  lemma MapAllStep<A, B>(xs: seq<A>, f: A -> Result<B>, i: nat)
    requires i < |xs| && MapAll(xs[..i], f).Success?
    ensures MapAll(xs[..i + 1], f) ==
            match f(xs[i])
            case Failure(e) => Failure(e)
            case Success(y) => Success(MapAll(xs[..i], f).value + [y])
  {
    assert xs[..i + 1][..i] == xs[..i];
  }

  /** A failing prefix makes the whole list fail the same way. */
  lemma {:induction false} MapAllPrefixFails<A, B>(xs: seq<A>, f: A -> Result<B>, n: nat)
    requires n <= |xs| && MapAll(xs[..n], f).Failure?
    ensures MapAll(xs, f) == MapAll(xs[..n], f)
    decreases |xs|
  {
    if n < |xs| {
      var init := xs[..|xs| - 1];
      assert init[..n] == xs[..n];
      MapAllPrefixFails(init, f, n);
    } else {
      assert xs[..n] == xs;
    }
  }

  /** MapAll succeeds exactly when `f` succeeds on every element, and then gives one result per element, in order. */
  lemma {:induction false} MapAllInOrder<A, B>(xs: seq<A>, f: A -> Result<B>)
    ensures MapAll(xs, f).Success? <==> forall k :: 0 <= k < |xs| ==> f(xs[k]).Success?
    ensures MapAll(xs, f).Success? ==>
            |MapAll(xs, f).value| == |xs| && forall k :: 0 <= k < |xs| ==> MapAll(xs, f).value[k] == f(xs[k]).value
    decreases |xs|
  {
    if xs != [] {
      var init := xs[..|xs| - 1];
      MapAllInOrder(init, f);
      assert forall k :: 0 <= k < |init| ==> init[k] == xs[k];
    }
  }
}
