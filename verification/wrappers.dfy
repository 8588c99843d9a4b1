/** Option and Result, plus the Python exceptions the modelled code raises.
    A `Failure` carries the exception class the original would raise and a
    short note of which check raised it. */
module Wrappers {

  datatype Option<+T> = None | Some(value: T) {
    function GetOr(default: T): T {
      match this
      case Some(v) => v
      case None => default
    }
  }

  /** The exceptions raised (or propagated) by the modelled functions. */
  datatype Error =
    | ValueError(what: string)
    | ConnectionError(what: string)
    | FileNotFoundError(path: string)
    | IndexError(what: string)
    | KeyError(key: string)
    | AttributeError(what: string)
    | UnknownTimeZoneError(zone: string)

  datatype Result<+R> = Success(value: R) | Failure(error: Error) {
    predicate IsFailure() {
      Failure?
    }

    function PropagateFailure<U>(): Result<U>
      requires Failure?
    {
      Failure(error)
    }

    function Extract(): R
      requires Success?
    {
      value
    }
  }

  /** Python truthiness of an optional string. */
  predicate Truthy(s: Option<string>) {
    s.Some? && |s.value| > 0
  }

  /** `[f(x) for x in xs]` where `f` may raise: the first exception wins. */
  function MapResult<A, B>(xs: seq<A>, f: A -> Result<B>): (r: Result<seq<B>>)
    decreases |xs|
    ensures r.Success? <==> forall i | 0 <= i < |xs| :: f(xs[i]).Success?
    ensures r.Success? ==> |r.value| == |xs| && forall i | 0 <= i < |xs| :: f(xs[i]) == Success(r.value[i])
    ensures r.Failure? ==> exists i | 0 <= i < |xs| ::
              && f(xs[i]) == Failure(r.error)
              && forall k | 0 <= k < i :: f(xs[k]).Success?
  {
    if |xs| == 0 then Success([])
    else
      match f(xs[0])
      case Failure(e) => Failure(e)
      case Success(y) =>
        match MapResult(xs[1..], f)
        case Failure(e) =>
          assert forall k | 1 <= k < |xs| :: xs[k] == xs[1..][k - 1];
          Failure(e)
        case Success(ys) =>
          assert forall k | 1 <= k < |xs| :: xs[k] == xs[1..][k - 1];
          Success([y] + ys)
  }

  /** `for x in xs: out.extend(f(x))` where `f` may raise: the results in
      order, or the first exception. */
  function FlatMapResult<A, B(!new)>(xs: seq<A>, f: A -> Result<seq<B>>): (r: Result<seq<B>>)
    decreases |xs|
    ensures r.Success? <==> forall i | 0 <= i < |xs| :: f(xs[i]).Success?
    ensures r.Success? ==> forall y :: y in r.value <==> exists i | 0 <= i < |xs| :: y in f(xs[i]).value
    ensures r.Failure? ==> exists i | 0 <= i < |xs| ::
              && f(xs[i]) == Failure(r.error)
              && forall k | 0 <= k < i :: f(xs[k]).Success?
  {
    if |xs| == 0 then Success([])
    else
      var first :- f(xs[0]);
      var rest :- FlatMapResult(xs[1..], f);
      assert forall i | 1 <= i < |xs| :: xs[i] == xs[1..][i - 1];
      assert forall i | 0 <= i < |xs[1..]| :: xs[1..][i] == xs[i + 1];
      Success(first + rest)
  }

  /** The outer loop keeps order: running it over a concatenation
      concatenates the two runs. */
  lemma {:induction false} FlatMapResultAppend<A, B(!new)>(xs: seq<A>, ys: seq<A>, f: A -> Result<seq<B>>)
    requires FlatMapResult(xs + ys, f).Success?
    ensures FlatMapResult(xs, f).Success? && FlatMapResult(ys, f).Success?
    ensures FlatMapResult(xs + ys, f).value == FlatMapResult(xs, f).value + FlatMapResult(ys, f).value
    decreases |xs|
  {
    if |xs| == 0 {
      assert xs + ys == ys;
    } else {
      var zs := xs + ys;
      assert zs[0] == xs[0] && zs[1..] == xs[1..] + ys;
      FlatMapResultAppend(xs[1..], ys, f);
    }
  }

  /** Over one element, the loop is that element's result. */
  lemma FlatMapResultSingle<A, B(!new)>(x: A, f: A -> Result<seq<B>>)
    ensures FlatMapResult([x], f) == f(x)
  {
    assert [x][0] == x && [x][1..] == [];
    if f(x).Success? {
      assert f(x).value + [] == f(x).value;
    }
  }
}
