/** Outcome types shared by the model: optional values and Python calls that may raise. */
module Results {

  datatype Option<+T> = None | Some(value: T)

  datatype Result<+T, +E> = Ok(value: T) | Err(error: E)

  /** The error of the first check that fails. */
  function FirstFailure<E>(checks: seq<(bool, E)>): (r: Option<E>)
    ensures r.None? <==> forall i :: 0 <= i < |checks| ==> checks[i].0
  {
    if checks == [] then None
    else if !checks[0].0 then Some(checks[0].1)
    else FirstFailure(checks[1..])
  }

  lemma {:induction false} FirstFailureExactly<E>(checks: seq<(bool, E)>, k: nat)
    requires k < |checks| && !checks[k].0 && forall j :: 0 <= j < k ==> checks[j].0
    ensures FirstFailure(checks) == Some(checks[k].1)
    decreases k
  {
    if k > 0 {
      FirstFailureExactly(checks[1..], k - 1);
    }
  }
}
