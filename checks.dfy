/**
 * Ordered precondition tables. `validate_inputs`, `extract_groups` and the
 * error-map `welch_t_test` are chains of guards in which the first violated
 * precondition decides the outcome; a table of checks evaluated front to back
 * is the declarative reference each of them is proved against.
 */
module Checks {
  import opened Wrappers

  /** A precondition and what is reported when it does not hold. */
  datatype Check<E> = Check(holds: bool, failure: E)

  /** The failure of the first check at or after index `i` that does not hold. */
  function FirstFailureFrom<E>(cs: seq<Check<E>>, i: nat): (r: Option<E>)
    requires i <= |cs|
    ensures r.None? <==> forall j :: i <= j < |cs| ==> cs[j].holds
    ensures r.Some? ==>
      exists j :: i <= j < |cs| && !cs[j].holds && r.value == cs[j].failure &&
        forall k :: i <= k < j ==> cs[k].holds
    decreases |cs| - i
  {
    if i == |cs| then None
    else if !cs[i].holds then Some(cs[i].failure)
    else FirstFailureFrom(cs, i + 1)
  }

  function FirstFailure<E>(cs: seq<Check<E>>): Option<E>
  {
    FirstFailureFrom(cs, 0)
  }

  /** Runs the table: success when every check holds, else the first failure. */
  function Run<E>(cs: seq<Check<E>>): Result<(), E>
  {
    match FirstFailure(cs)
    case None => Ok(())
    case Some(e) => Fail(e)
  }

  /** The failure reported is the one of the earliest violated check, whatever fails later. */
  lemma FirstFailureAt<E>(cs: seq<Check<E>>, j: nat)
    requires j < |cs| && !cs[j].holds
    requires forall k :: 0 <= k < j ==> cs[k].holds
    ensures FirstFailure(cs) == Some(cs[j].failure)
  {
    var r := FirstFailureFrom(cs, 0);
    assert r.Some?;
    var j' :| 0 <= j' < |cs| && !cs[j'].holds && r.value == cs[j'].failure &&
      forall k :: 0 <= k < j' ==> cs[k].holds;
    assert j' == j;
  }
}
