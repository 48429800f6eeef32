/** Active rollback: the version to go back to. */
module Rollbacks {
  import opened Wrappers
  import opened Jobs

  // One retained version of a job as Nomad lists it. Any pointer may be nil.
  datatype JobVersion = JobVersion(number: Option<nat>, stable: Option<bool>, tag: Option<string>, spec: Job)

  /** A version one may go back to from a failed one. */
  predicate StableBelow(v: Option<JobVersion>, failed: nat) {
    v.Some? && v.value.number.Some? && v.value.stable == Some(true) && v.value.number.value < failed
  }

  /** The greatest stable version strictly below the failed one, whatever the order of the list. */
  function LastStable(versions: seq<Option<JobVersion>>, failed: nat): (best: Option<nat>)
    ensures best.None? <==> forall v :: v in versions ==> !StableBelow(v, failed)
    ensures best.Some? ==> exists v :: v in versions && StableBelow(v, failed) && v.value.number == best
    ensures best.Some? ==> forall v :: v in versions && StableBelow(v, failed) ==> v.value.number.value <= best.value
  {
    if versions == [] then None
    else
      var rest, v := LastStable(versions[..|versions| - 1], failed), versions[|versions| - 1];
      assert versions == versions[..|versions| - 1] + [v];
      if StableBelow(v, failed) && (rest.None? || v.value.number.value > rest.value) then v.value.number else rest
  }

  /** The loop that finds it. */
  method FindLastStable(versions: seq<Option<JobVersion>>, failed: nat) returns (best: nat, found: bool)
    ensures found == LastStable(versions, failed).Some?
    ensures found ==> Some(best) == LastStable(versions, failed)
  {
    best, found := 0, false;
    for i := 0 to |versions|
      invariant found == LastStable(versions[..i], failed).Some?
      invariant found ==> Some(best) == LastStable(versions[..i], failed)
    {
      assert versions[..i + 1][..i] == versions[..i];
      var v := versions[i];
      if v.None? || v.value.number.None? || v.value.stable.None? || !v.value.stable.value {
        continue;
      }
      if v.value.number.value >= failed {
        continue;
      }
      if !found || v.value.number.value > best {
        best := v.value.number.value;
        found := true;
      }
    }
    assert versions[..|versions|] == versions;
  }
}
