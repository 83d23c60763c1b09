/** Option and Result, used for Go's nil-able pointers and (value, error) returns. */
module Wrappers {

  datatype Option<+T> = None | Some(value: T) {
    function GetOr(default: T): T {
      match this
      case Some(v) => v
      case None => default
    }
  }

  datatype Result<+R, +E> = Ok(value: R) | Err(error: E)

  function MapSeq<A, B>(f: A -> B, xs: seq<A>): (ys: seq<B>)
    ensures |ys| == |xs| && forall i :: 0 <= i < |xs| ==> ys[i] == f(xs[i])
  {
    if xs == [] then [] else [f(xs[0])] + MapSeq(f, xs[1..])
  }

  function Filter<T>(keep: T -> bool, xs: seq<T>): (ys: seq<T>)
    ensures forall y :: y in ys ==> y in xs && keep(y)
  {
    if xs == [] then [] else (if keep(xs[0]) then [xs[0]] else []) + Filter(keep, xs[1..])
  }

  lemma {:induction false} FilterSnoc<T>(keep: T -> bool, xs: seq<T>, x: T)
    ensures Filter(keep, xs + [x]) == Filter(keep, xs) + if keep(x) then [x] else []
  {
    if xs == [] {
      assert Filter(keep, [x][1..]) == [];
    } else {
      FilterSnoc(keep, xs[1..], x);
      assert (xs + [x])[1..] == xs[1..] + [x];
      var first, last := if keep(xs[0]) then [xs[0]] else [], if keep(x) then [x] else [];
      assert first + (Filter(keep, xs[1..]) + last) == (first + Filter(keep, xs[1..])) + last;
    }
  }
}
