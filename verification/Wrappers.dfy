/** Failure-carrying datatypes shared by the whole model. */
module Wrappers {

  /** A value that may be absent: a regular-expression match that found nothing,
      an attribute the element does not carry, or a `parseInt` that gave NaN. */
  datatype Option<+T> = None | Some(value: T)

  /** The outcome of extracting one page: the records, or the reason the page
      extraction threw. */
  datatype Result<+T> = Success(value: T) | Failure(error: string)

  /** `f` applied to every element in order, stopping at the first failure:
      the callback of an `each` loop that throws ends the whole loop. */
  function Traverse<A, B>(xs: seq<A>, f: A -> Result<B>): (r: Result<seq<B>>)
    ensures r.Success? <==> forall i :: 0 <= i < |xs| ==> f(xs[i]).Success?
    ensures r.Success? ==> |r.value| == |xs|
    ensures r.Success? ==> forall i :: 0 <= i < |xs| ==> r.value[i] == f(xs[i]).value
    ensures r.Failure? ==>
      exists i :: 0 <= i < |xs| && f(xs[i]) == Failure(r.error) && forall j :: 0 <= j < i ==> f(xs[j]).Success?
    decreases |xs|
  {
    if |xs| == 0 then Success([])
    else
      match f(xs[0])
      case Failure(e) => Failure(e)
      case Success(y) =>
        match Traverse(xs[1..], f)
        case Failure(e) =>
          Failure(e)
        case Success(ys) => Success([y] + ys)
  }
}
