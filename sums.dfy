/** Python's `sum` over a lazily evaluated sequence of values, any of which may
    raise: the values are added in order and the first failure aborts the sum. */
module Sums {
  import opened Wrappers

  /** `sum(values)`: a successful sum is at least each of its terms, and a
      single value sums to itself. */
  function Sum<E>(values: seq<Result<nat, E>>): (r: Result<nat, E>)
    ensures r.Success? ==> forall k :: 0 <= k < |values| ==> values[k].Success? && values[k].value <= r.value
    ensures |values| == 1 ==> r == values[0]
  {
    if values == [] then Success(0)
    else
      assert forall k :: 1 <= k < |values| ==> values[k] == values[1..][k - 1];
      match values[0]
      case Failure(e) => Failure(e)
      case Success(v) =>
        match Sum(values[1..])
        case Failure(e) => Failure(e)
        case Success(rest) => Success(v + rest)
  }

  /** The sum succeeds exactly when every value does. */
  lemma {:induction false} SumSucceeds<E>(values: seq<Result<nat, E>>)
    ensures Sum(values).Success? <==> forall k :: 0 <= k < |values| ==> values[k].Success?
  {
    if values != [] {
      SumSucceeds(values[1..]);
      assert forall k :: 1 <= k < |values| ==> values[k] == values[1..][k - 1];
    }
  }

  /** A failed sum fails with the error of the first value that fails. */
  lemma {:induction false} SumFailsFirst<E>(values: seq<Result<nat, E>>, i: nat)
    requires i < |values| && values[i].Failure?
    requires forall k :: 0 <= k < i ==> values[k].Success?
    ensures Sum(values) == Failure(values[i].error)
  {
    if i > 0 {
      SumFailsFirst(values[1..], i - 1);
    }
  }

  /** A sum of values each at most `bound` is at most `bound` per value. */
  lemma {:induction false} SumBounded<E>(values: seq<Result<nat, E>>, bound: nat)
    requires forall k :: 0 <= k < |values| && values[k].Success? ==> values[k].value <= bound
    ensures Sum(values).Success? ==> Sum(values).value <= bound * |values|
  {
    if values != [] {
      SumBounded(values[1..], bound);
      assert bound * |values| == bound + bound * |values[1..]|;
    }
  }

  /** The sum over a concatenation fails exactly when the sum over one part
      does, and otherwise is the sum of the two sums. */
  lemma {:induction false} SumAppend<E>(a: seq<Result<nat, E>>, b: seq<Result<nat, E>>)
    ensures Sum(a + b).Success? <==> Sum(a).Success? && Sum(b).Success?
    ensures Sum(a + b).Success? ==> Sum(a + b).value == Sum(a).value + Sum(b).value
  {
    if a == [] {
      assert a + b == b;
    } else {
      SumAppend(a[1..], b);
      assert (a + b)[0] == a[0] && (a + b)[1..] == a[1..] + b;
    }
  }
}
