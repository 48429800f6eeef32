/** Job definitions, as parsed from the repository or stored by Nomad. */
module Jobs {
  import opened Wrappers

  datatype Scaling = Scaling(enabled: Option<bool>)

  // `body` stands for everything in a group the engine never looks into.
  datatype TaskGroup = TaskGroup(name: Option<string>, count: int, scaling: Option<Scaling>,
                                 autoRevert: Option<bool>, body: string)

  // `bookkeeping` stands for the fields Nomad injects (version, indexes, status, tag, namespace).
  datatype Job = Job(id: string, meta: Option<map<string, string>>, stop: bool, autoRevert: Option<bool>,
                     groups: seq<Option<TaskGroup>>, bookkeeping: string, body: string)

  /** The meta map as lookups see it: a missing map has no keys. */
  function MetaOf(job: Job): map<string, string> {
    job.meta.GetOr(map[])
  }

  /** A group whose Count and Scaling the autoscaler owns. */
  predicate Autoscaled(g: Option<TaskGroup>) {
    g.Some? && g.value.name.Some? && g.value.scaling.Some?
    && g.value.scaling.value.enabled != Some(false)
  }

  function AutoscaledGroups(job: Job): set<string> {
    set g | g in job.groups && Autoscaled(g) :: g.value.name.value
  }

  /** Some group has a name and scaling that is not disabled. */
  ghost predicate Scales(job: Job) {
    exists g :: g in job.groups && g.Some? && g.value.name.Some? && g.value.scaling.Some?
                && g.value.scaling.value.enabled != Some(false)
  }

  /** The autoscaler owns the groups that have a name and scaling that is not disabled. */
  lemma AutoscaledExactly(job: Job, name: string)
    ensures name in AutoscaledGroups(job)
            <==> exists g :: g in job.groups && g.Some? && g.value.name == Some(name) && g.value.scaling.Some?
                             && g.value.scaling.value.enabled != Some(false)
  {
  }

  lemma ScalesExactly(job: Job)
    ensures AutoscaledGroups(job) != {} <==> Scales(job)
  {
    if g :| g in job.groups && g.Some? && g.value.name.Some? && g.value.scaling.Some? && g.value.scaling.value.enabled != Some(false) {
      assert g.value.name.value in AutoscaledGroups(job);
    }
  }

  /** The loop that collects the autoscaled group names. */
  method CollectAutoscaledGroups(job: Job) returns (out: set<string>)
    ensures out == AutoscaledGroups(job)
  {
    out := {};
    for i := 0 to |job.groups|
      invariant out == set g | g in job.groups[..i] && Autoscaled(g) :: g.value.name.value
    {
      var g := job.groups[i];
      assert job.groups[..i + 1] == job.groups[..i] + [g];
      if g.None? || g.value.name.None? || g.value.scaling.None? {
        continue;
      }
      if g.value.scaling.value.enabled.Some? && !g.value.scaling.value.enabled.value {
        continue;
      }
      out := out + {g.value.name.value};
    }
    assert job.groups[..|job.groups|] == job.groups;
  }

  /** Nomad is left to revert on its own: the job says so, or some group of it. */
  predicate JobHasAutoRevert(job: Job) {
    job.autoRevert == Some(true)
    || exists g :: g in job.groups && g.Some? && g.value.autoRevert == Some(true)
  }
}
