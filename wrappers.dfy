/** Option and Result, and the "stop at the first failure" collection that the
    start-up loops of the exporter perform. */
module Wrappers {

  datatype Option<+T> = None | Some(value: T)

  datatype Result<+T, +E> = Success(value: T) | Failure(error: E)

  /** Runs the steps `rs` in order and stops at the first failure: either every
      step succeeded and their values are returned in order, or the first
      failure's error is returned. */
  function Collect<T, E>(rs: seq<Result<T, E>>): (r: Result<seq<T>, E>)
    ensures r.Success? ==> |r.value| == |rs|
  {
    if rs == [] then Success([])
    else
      match Collect(rs[..|rs| - 1])
      case Failure(e) => Failure(e)
      case Success(vs) =>
        match rs[|rs| - 1]
        case Failure(e) => Failure(e)
        case Success(v) => Success(vs + [v])
  }

  /** Collect succeeds exactly when every step does, and then keeps each value in place. */
  lemma {:induction false} CollectSuccess<T, E>(rs: seq<Result<T, E>>)
    ensures Collect(rs).Success? <==> forall i :: 0 <= i < |rs| ==> rs[i].Success?
    ensures Collect(rs).Success? ==> forall i :: 0 <= i < |rs| ==> Collect(rs).value[i] == rs[i].value
  {
    if rs != [] {
      CollectSuccess(rs[..|rs| - 1]);
      var n := |rs| - 1;
      assert forall i :: 0 <= i < n ==> rs[..n][i] == rs[i];
    }
  }

  /** A failing Collect reports the error of the first failing step. */
  lemma {:induction false} CollectFirstFailure<T, E>(rs: seq<Result<T, E>>)
    requires Collect(rs).Failure?
    ensures exists k :: 0 <= k < |rs| && rs[k].Failure? && rs[k].error == Collect(rs).error
                        && forall j :: 0 <= j < k ==> rs[j].Success?
  {
    var n := |rs| - 1;
    assert forall i :: 0 <= i < n ==> rs[..n][i] == rs[i];
    if Collect(rs[..n]).Failure? {
      CollectFirstFailure(rs[..n]);
      var k :| 0 <= k < n && rs[..n][k].Failure? && rs[..n][k].error == Collect(rs[..n]).error
               && forall j :: 0 <= j < k ==> rs[..n][j].Success?;
      assert rs[k].Failure? && rs[k].error == Collect(rs).error;
    } else {
      CollectSuccess(rs[..n]);
      assert rs[n].Failure?;
    }
  }

  /** Once a prefix of the steps has failed, the later steps change nothing. */
  lemma {:induction false} CollectStopsAtFailure<T, E>(rs: seq<Result<T, E>>, k: nat)
    requires k <= |rs|
    requires Collect(rs[..k]).Failure?
    ensures Collect(rs) == Collect(rs[..k])
    decreases |rs|
  {
    if k < |rs| {
      var n := |rs| - 1;
      assert rs[..n][..k] == rs[..k];
      CollectStopsAtFailure(rs[..n], k);
    } else {
      assert rs[..k] == rs;
    }
  }

  /** One more step after a successful prefix: its value is appended, or its
      failure is the result of the whole run. */
  lemma {:induction false} CollectStep<T, E>(rs: seq<Result<T, E>>, j: nat)
    requires j < |rs| && Collect(rs[..j]).Success?
    ensures rs[j].Success? ==> Collect(rs[..j + 1]) == Success(Collect(rs[..j]).value + [rs[j].value])
    ensures rs[j].Failure? ==> Collect(rs) == Failure(rs[j].error)
  {
    assert rs[..j + 1][..j] == rs[..j];
    if rs[j].Failure? {
      CollectStopsAtFailure(rs, j + 1);
    }
  }
}
