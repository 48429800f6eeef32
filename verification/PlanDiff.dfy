/** Nomad's structured plan diff: a tree of changed fields. Any pointer in it may be nil. */
module PlanDiffs {
  import opened Wrappers

  // How deep the engine follows nested objects; the top level is 1.
  const MAX_DEPTH: nat := 200

  // A field as a value. `kind` is "Added", "Deleted", "Edited" or "None".
  datatype Field = Field(kind: string, name: string, oldValue: string, newValue: string, annotations: seq<string>)

  datatype ObjectDiff<F> =
    | NilObject
    | ObjectDiff(kind: string, name: string, fields: seq<Option<F>>, objects: seq<ObjectDiff<F>>)

  datatype TaskDiff<F> = TaskDiff(kind: string, name: string,
                                  fields: seq<Option<F>>, objects: seq<ObjectDiff<F>>,
                                  annotations: seq<string>)

  // `updates` counts what Nomad would do to the group's allocations, by kind of update.
  datatype GroupDiff<F> = GroupDiff(kind: string, name: string,
                                    fields: seq<Option<F>>, objects: seq<ObjectDiff<F>>,
                                    tasks: seq<Option<TaskDiff<F>>>, updates: map<string, nat>)

  datatype JobDiff<F> = JobDiff(kind: string, id: string,
                                fields: seq<Option<F>>, objects: seq<ObjectDiff<F>>,
                                groups: seq<Option<GroupDiff<F>>>)

  predicate NoDiff<F>(d: Option<JobDiff<F>>) {
    d.None? || d.value.kind == "" || d.value.kind == "None"
  }

  predicate WholeChange(kind: string) {
    kind == "Added" || kind == "Deleted"
  }

  predicate FieldChanged(kind: string) {
    kind == "Added" || kind == "Deleted" || kind == "Edited"
  }

  /** More than allocation bookkeeping: what still counts as drift of a dead job. A nil group or
      task has no content here. */
  predicate HasContentDiff<F>(d: Option<JobDiff<F>>) {
    !NoDiff(d)
    && (d.value.fields != [] || d.value.objects != []
        || exists i :: 0 <= i < |d.value.groups| && d.value.groups[i].Some? && GroupHasContent(d.value.groups[i].value))
  }

  predicate GroupHasContent<F>(g: GroupDiff<F>) {
    WholeChange(g.kind) || g.fields != [] || g.objects != []
    || exists i :: 0 <= i < |g.tasks| && g.tasks[i].Some? && TaskHasContent(g.tasks[i].value)
  }

  predicate TaskHasContent<F>(t: TaskDiff<F>) {
    t.kind != "None" || t.fields != [] || t.objects != []
  }

  /** The node a path of child positions leads to, NilObject when it leads nowhere or to a nil. */
  function NodeAt<F>(objs: seq<ObjectDiff<F>>, path: seq<nat>): ObjectDiff<F>
    decreases |path|
  {
    if path == [] || path[0] >= |objs| || objs[path[0]].NilObject? then NilObject
    else if |path| == 1 then objs[path[0]]
    else NodeAt(objs[path[0]].objects, path[1..])
  }

  /** Where there is a node there are nodes all the way up to the root. */
  lemma {:induction false} AncestorAt<F>(objs: seq<ObjectDiff<F>>, path: seq<nat>, k: nat)
    requires NodeAt(objs, path).ObjectDiff? && 1 <= k <= |path|
    ensures NodeAt(objs, path[..k]).ObjectDiff?
    decreases |path|
  {
    if k > 1 {
      AncestorAt(objs[path[0]].objects, path[1..], k - 1);
      assert path[..k][1..] == path[1..][..k - 1];
    }
  }
}
