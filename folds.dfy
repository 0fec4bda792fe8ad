/**
 * A Python loop that calls something on each element of a list in order and
 * lets the first exception escape: the results in order, or the first error.
 */
module Folds {
  import opened Wrappers

  function MapAll<T, R, E>(xs: seq<T>, f: T -> Result<R, E>): Result<seq<R>, E> {
    if xs == [] then Success([])
    else
      var init :- MapAll(xs[..|xs| - 1], f);
      var y :- f(xs[|xs| - 1]);
      Success(init + [y])
  }

  /**
   * On success there is one result per element, in order; on failure the
   * error is that of the first element that fails.
   */
  lemma {:induction false} MapAllFacts<T, R, E>(xs: seq<T>, f: T -> Result<R, E>)
    ensures MapAll(xs, f).Success? <==> forall j :: 0 <= j < |xs| ==> f(xs[j]).Success?
    ensures MapAll(xs, f).Success? ==>
      |MapAll(xs, f).value| == |xs| && forall j :: 0 <= j < |xs| ==> Success(MapAll(xs, f).value[j]) == f(xs[j])
    ensures MapAll(xs, f).Failure? ==>
      exists j :: 0 <= j < |xs| && f(xs[j]) == Failure(MapAll(xs, f).error)
        && forall q :: 0 <= q < j ==> f(xs[q]).Success?
    decreases |xs|
  {
    if xs != [] {
      var n := |xs| - 1;
      var init := xs[..n];
      MapAllFacts(init, f);
      assert forall j :: 0 <= j < n ==> init[j] == xs[j];
      if MapAll(init, f).Failure? {
        var j :| 0 <= j < n && f(init[j]) == Failure(MapAll(init, f).error)
          && forall q :: 0 <= q < j ==> f(init[q]).Success?;
        assert f(xs[j]) == Failure(MapAll(xs, f).error);
      }
    }
  }

  /** When every element gives its result, the loop gives all of them in order. */
  lemma {:induction false} MapAllOf<T, R, E>(xs: seq<T>, f: T -> Result<R, E>, ys: seq<R>)
    requires |xs| == |ys| && forall j :: 0 <= j < |xs| ==> f(xs[j]) == Success(ys[j])
    ensures MapAll(xs, f) == Success(ys)
    decreases |xs|
  {
    if xs != [] {
      var n := |xs| - 1;
      MapAllOf(xs[..n], f, ys[..n]);
      assert ys[..n] + [ys[n]] == ys;
    }
  }

  /** One more step of the loop over a prefix. */
  lemma MapAllStep<T, R, E>(xs: seq<T>, f: T -> Result<R, E>, k: int)
    requires 0 <= k < |xs|
    ensures MapAll(xs[..k + 1], f) == match MapAll(xs[..k], f)
      case Failure(e) => Failure(e)
      case Success(ys) => (match f(xs[k]) case Failure(e) => Failure(e) case Success(y) => Success(ys + [y]))
  {
    assert xs[..k + 1][..k] == xs[..k];
  }

  /** Once a prefix fails, the whole loop fails with the same error. */
  lemma {:induction false} FailureSticks<T, R, E>(xs: seq<T>, f: T -> Result<R, E>, k: int)
    requires 0 <= k <= |xs| && MapAll(xs[..k], f).Failure?
    ensures MapAll(xs, f) == MapAll(xs[..k], f)
    decreases |xs| - k
  {
    if k < |xs| {
      MapAllStep(xs, f, k);
      FailureSticks(xs, f, k + 1);
    } else {
      assert xs[..k] == xs;
    }
  }

  /** Two loops whose step agrees on every element give the same outcome. */
  lemma {:induction false} MapAllAgree<T, R, E>(xs: seq<T>, f: T -> Result<R, E>, g: T -> Result<R, E>)
    requires forall j :: 0 <= j < |xs| ==> f(xs[j]) == g(xs[j])
    ensures MapAll(xs, f) == MapAll(xs, g)
    decreases |xs|
  {
    if xs != [] {
      var n := |xs| - 1;
      assert forall j :: 0 <= j < n ==> xs[..n][j] == xs[j];
      MapAllAgree(xs[..n], f, g);
    }
  }
}
