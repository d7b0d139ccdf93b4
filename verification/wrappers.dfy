/** Optional values and results that carry an error message in place of a raised exception. */
module Wrappers {

  datatype Option<T> = None | Some(value: T)

  /** A computation that either produced a value or raised with a message. */
  datatype Result<T> = Ok(value: T) | Err(message: string)

  /** Python truthiness of an optional string: `None` and `''` are false. */
  predicate Truthy(v: Option<string>) {
    v.Some? && v.value != ""
  }

  /** Runs a sequence of steps in order: the first raise ends the run with its
      message, otherwise the run yields every step's value. */
  function Sequence<T>(rs: seq<Result<T>>): (r: Result<seq<T>>)
  {
    if |rs| == 0 then Ok([])
    else if rs[0].Err? then Err(rs[0].message)
    else
      match Sequence(rs[1..])
      case Err(m) => Err(m)
      case Ok(vs) => Ok([rs[0].value] + vs)
  }

  /** The run succeeds exactly when every step does, and then yields the steps'
      values in order. */
  lemma {:induction false} SequenceOk<T>(rs: seq<Result<T>>)
    ensures Sequence(rs).Ok? <==> forall i :: 0 <= i < |rs| ==> rs[i].Ok?
    ensures Sequence(rs).Ok? ==>
              |Sequence(rs).value| == |rs| && forall i :: 0 <= i < |rs| ==> rs[i] == Ok(Sequence(rs).value[i])
  {
    if |rs| > 0 {
      SequenceOk(rs[1..]);
      assert forall i :: 1 <= i < |rs| ==> rs[i] == rs[1..][i - 1];
    }
  }

  /** The step that ended a failed run: the first one that raised, whose
      message the run reports. */
  function FirstErr<T>(rs: seq<Result<T>>): (k: nat)
    requires Sequence(rs).Err?
    ensures k < |rs| && rs[k].Err? && Sequence(rs) == Err(rs[k].message)
    ensures forall i :: 0 <= i < k ==> rs[i].Ok?
  {
    if rs[0].Err? then 0
    else
      var k := FirstErr(rs[1..]);
      assert rs[k + 1] == rs[1..][k];
      assert forall i :: 1 <= i < k + 1 ==> rs[i] == rs[1..][i - 1];
      k + 1
  }

  /** A failed run reports the message of the first step that raised. */
  lemma {:induction false} SequenceErr<T>(rs: seq<Result<T>>, k: nat)
    requires k < |rs| && rs[k].Err?
    requires forall i :: 0 <= i < k ==> rs[i].Ok?
    ensures Sequence(rs) == Err(rs[k].message)
  {
    if k > 0 {
      SequenceErr(rs[1..], k - 1);
    }
  }
}
