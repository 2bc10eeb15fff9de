/** Optional values (Python's `None`) and results that may carry an error instead. */
module Opt {

  datatype Option<+T> = None | Some(value: T)

  datatype Result<+T, +E> = Ok(value: T) | Err(error: E)

  /**
   * Runs a sequence of steps in order: all their values, or the error of the
   * first step that fails (later steps are never reached).
   */
  function Collect<T, E>(rs: seq<Result<T, E>>): Result<seq<T>, E> {
    if rs == [] then Ok([])
    else match Collect(rs[..|rs| - 1])
      case Err(e) => Err(e)
      case Ok(vs) =>
        match rs[|rs| - 1]
        case Err(e) => Err(e)
        case Ok(v) => Ok(vs + [v])
  }

  /** When every step succeeds, the values are the steps' values, one per step, in order. */
  lemma {:induction false} CollectOk<T, E>(rs: seq<Result<T, E>>)
    requires Collect(rs).Ok?
    ensures |Collect(rs).value| == |rs|
    ensures forall i :: 0 <= i < |rs| ==> rs[i] == Ok(Collect(rs).value[i])
  {
    if rs != [] {
      var init := rs[..|rs| - 1];
      CollectOk(init);
      assert forall i :: 0 <= i < |init| ==> init[i] == rs[i];
    }
  }

  /** The run fails exactly when some step fails, and with the error of the first failing step. */
  lemma {:induction false} CollectErr<T, E>(rs: seq<Result<T, E>>)
    ensures Collect(rs).Err? <==> exists i :: 0 <= i < |rs| && rs[i].Err?
    ensures Collect(rs).Err? ==>
      exists i :: 0 <= i < |rs| && rs[i] == Err(Collect(rs).error) && forall j :: 0 <= j < i ==> rs[j].Ok?
  {
    if rs != [] {
      var init := rs[..|rs| - 1];
      CollectErr(init);
      assert forall i :: 0 <= i < |init| ==> init[i] == rs[i];
      if Collect(init).Ok? {
        CollectOk(init);
      }
    }
  }

  /** Once a prefix fails, the whole run fails with the same error. */
  lemma {:induction false} CollectFailsFrom<T, E>(rs: seq<Result<T, E>>, k: nat)
    requires k <= |rs| && Collect(rs[..k]).Err?
    ensures Collect(rs) == Collect(rs[..k])
    decreases |rs| - k
  {
    if k < |rs| {
      assert rs[..k + 1][..k] == rs[..k];
      CollectFailsFrom(rs, k + 1);
    } else {
      assert rs[..k] == rs;
    }
  }

  /** Extending a successful prefix by one successful step appends its value. */
  lemma CollectSnoc<T, E>(rs: seq<Result<T, E>>, k: nat)
    requires k < |rs| && Collect(rs[..k]).Ok?
    ensures Collect(rs[..k + 1]) == match rs[k]
      case Err(e) => Err(e)
      case Ok(v) => Ok(Collect(rs[..k]).value + [v])
  {
    assert rs[..k + 1][..k] == rs[..k];
  }
}
