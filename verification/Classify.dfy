/** Which kind of change a plan diff is, for the update policies: the counting walk over the diff
    tree, and what it means in terms of the changed leaves. */
module Classifier {
  import opened Wrappers
  import opened Text
  import opened PlanDiffs

  datatype DiffClass = NoChange | ManagedMetaOnly | ImageChange | OtherChange
  {
    function Rank(): nat {
      match this
      case NoChange => 0
      case ManagedMetaOnly => 1
      case ImageChange => 2
      case OtherChange => 3
    }
  }

  // What one changed leaf counts as.
  datatype Leaf = ImageLeaf | MetaLeaf | OtherLeaf

  function Join(a: DiffClass, b: DiffClass): DiffClass {
    if a.Rank() < b.Rank() then b else a
  }

  function ClassOfLeaf(l: Leaf): DiffClass {
    match l
    case ImageLeaf => ImageChange
    case MetaLeaf => ManagedMetaOnly
    case OtherLeaf => OtherChange
  }

  /** The join of what the leaves count as. */
  function ClassOf(leaves: seq<Leaf>): DiffClass {
    if leaves == [] then NoChange else Join(ClassOfLeaf(leaves[0]), ClassOf(leaves[1..]))
  }

  /** A changed field that is one of the engine's own meta keys. */
  predicate IsManagedMetaName(name: string, inMeta: bool, metaPrefix: string) {
    metaPrefix != ""
    && (var wrapped := |name| > 5 && HasPrefix(name, "Meta[") && HasSuffix(name, "]");
        var key := if wrapped then name[5..|name| - 1] else name;
        (wrapped || inMeta) && (HasPrefix(key, metaPrefix + "_") || HasPrefix(key, metaPrefix + ".")))
  }

  function LeafOf(f: Field, inMeta: bool, inConfig: bool, metaPrefix: string): Leaf {
    if inConfig && EqualFold(f.name, "image") then ImageLeaf
    else if IsManagedMetaName(f.name, inMeta, metaPrefix) then MetaLeaf
    else OtherLeaf
  }

  predicate Counted(f: Option<Field>, skip: set<string>) {
    f.Some? && FieldChanged(f.value.kind) && f.value.name !in skip
  }

  // ---- The changed leaves of a diff, in the order of the walk ----

  function FieldLeaves(fields: seq<Option<Field>>, skip: set<string>, inMeta: bool, inConfig: bool,
                       metaPrefix: string): seq<Leaf>
  {
    if fields == [] then []
    else
      FieldLeaves(fields[..|fields| - 1], skip, inMeta, inConfig, metaPrefix)
      + var f := fields[|fields| - 1];
        if Counted(f, skip) then [LeafOf(f.value, inMeta, inConfig, metaPrefix)] else []
  }

  /** An object nested too deep is not looked into and counts as some other change. */
  function ObjectLeaves(o: ObjectDiff<Field>, metaPrefix: string, depth: nat): seq<Leaf>
    requires o.ObjectDiff?
    decreases o
  {
    if depth > MAX_DEPTH then [OtherLeaf]
    else FieldLeaves(o.fields, {}, o.name == "Meta", o.name == "Config", metaPrefix)
         + ObjectsLeaves(o.objects, {}, metaPrefix, depth + 1)
  }

  function ObjectsLeaves(objs: seq<ObjectDiff<Field>>, skip: set<string>, metaPrefix: string,
                         depth: nat): seq<Leaf>
    decreases objs
  {
    if objs == [] then []
    else
      ObjectsLeaves(objs[..|objs| - 1], skip, metaPrefix, depth)
      + var o := objs[|objs| - 1];
        if o.NilObject? || o.name in skip then [] else ObjectLeaves(o, metaPrefix, depth)
  }

  function WholeLeaf(kind: string): seq<Leaf> {
    if WholeChange(kind) then [OtherLeaf] else []
  }

  function BodyLeaves(kind: string, fields: seq<Option<Field>>, skipFields: set<string>,
                      objs: seq<ObjectDiff<Field>>, skipObjects: set<string>, metaPrefix: string): seq<Leaf>
  {
    WholeLeaf(kind) + FieldLeaves(fields, skipFields, false, false, metaPrefix)
    + ObjectsLeaves(objs, skipObjects, metaPrefix, 1)
  }

  function TaskLeaves(t: Option<TaskDiff<Field>>, metaPrefix: string): seq<Leaf> {
    if t.None? then []
    else BodyLeaves(t.value.kind, t.value.fields, {}, t.value.objects, {}, metaPrefix)
  }

  function TasksLeaves(tasks: seq<Option<TaskDiff<Field>>>, metaPrefix: string): seq<Leaf> {
    if tasks == [] then []
    else TasksLeaves(tasks[..|tasks| - 1], metaPrefix) + TaskLeaves(tasks[|tasks| - 1], metaPrefix)
  }

  /** In an autoscaled group the Count field and the Scaling object belong to the autoscaler. */
  function GroupLeaves(g: Option<GroupDiff<Field>>, autoscaled: set<string>, metaPrefix: string): seq<Leaf> {
    if g.None? then []
    else
      var isAuto := g.value.name in autoscaled;
      BodyLeaves(g.value.kind, g.value.fields, if isAuto then {"Count"} else {},
                 g.value.objects, if isAuto then {"Scaling"} else {}, metaPrefix)
      + TasksLeaves(g.value.tasks, metaPrefix)
  }

  function GroupsLeaves(groups: seq<Option<GroupDiff<Field>>>, autoscaled: set<string>, metaPrefix: string): seq<Leaf> {
    if groups == [] then []
    else GroupsLeaves(groups[..|groups| - 1], autoscaled, metaPrefix)
         + GroupLeaves(groups[|groups| - 1], autoscaled, metaPrefix)
  }

  function JobLeaves(d: JobDiff<Field>, autoscaled: set<string>, metaPrefix: string): seq<Leaf> {
    FieldLeaves(d.fields, {}, false, false, metaPrefix)
    + ObjectsLeaves(d.objects, {}, metaPrefix, 1)
    + GroupsLeaves(d.groups, autoscaled, metaPrefix)
  }

  function Classify(d: Option<JobDiff<Field>>, autoscaled: set<string>, metaPrefix: string): DiffClass {
    if NoDiff(d) then NoChange else ClassOf(JobLeaves(d.value, autoscaled, metaPrefix))
  }

  // ---- The counting walk ----

  /** How many leaves are of a kind. */
  function Tally(leaves: seq<Leaf>, l: Leaf): nat {
    if leaves == [] then 0 else Tally(leaves[1..], l) + if leaves[0] == l then 1 else 0
  }

  lemma {:induction false} TallyConcat(a: seq<Leaf>, b: seq<Leaf>, l: Leaf)
    ensures Tally(a + b, l) == Tally(a, l) + Tally(b, l)
  {
    if a == [] {
      assert a + b == b;
    } else {
      assert (a + b)[1..] == a[1..] + b;
      TallyConcat(a[1..], b, l);
    }
  }

  /** Every kind of leaf of a concatenation is counted part by part. */
  lemma Tallies(a: seq<Leaf>, b: seq<Leaf>)
    ensures Tally(a + b, ImageLeaf) == Tally(a, ImageLeaf) + Tally(b, ImageLeaf)
    ensures Tally(a + b, MetaLeaf) == Tally(a, MetaLeaf) + Tally(b, MetaLeaf)
    ensures Tally(a + b, OtherLeaf) == Tally(a, OtherLeaf) + Tally(b, OtherLeaf)
  {
    TallyConcat(a, b, ImageLeaf);
    TallyConcat(a, b, MetaLeaf);
    TallyConcat(a, b, OtherLeaf);
  }

  lemma {:induction false} TallyMeaning(leaves: seq<Leaf>, l: Leaf)
    ensures Tally(leaves, l) > 0 <==> l in leaves
  {
    if leaves != [] {
      TallyMeaning(leaves[1..], l);
      assert leaves == [leaves[0]] + leaves[1..];
    }
  }

  class ChangeCounts {
    var image: nat
    var managedMeta: nat
    var other: nat

    /** The counters moved on by exactly these leaves. */
    twostate predicate Added(leaves: seq<Leaf>)
      reads this
    {
      image == old(image) + Tally(leaves, ImageLeaf)
      && managedMeta == old(managedMeta) + Tally(leaves, MetaLeaf)
      && other == old(other) + Tally(leaves, OtherLeaf)
    }

    constructor ()
      ensures image == managedMeta == other == 0
    {
      image, managedMeta, other := 0, 0, 0;
    }

    method AddFields(fields: seq<Option<Field>>, skip: set<string>, inMeta: bool, inConfig: bool, metaPrefix: string)
      modifies this
      ensures Added(FieldLeaves(fields, skip, inMeta, inConfig, metaPrefix))
    {
      for i := 0 to |fields|
        invariant Added(FieldLeaves(fields[..i], skip, inMeta, inConfig, metaPrefix))
      {
        assert fields[..i + 1][..i] == fields[..i];
        var f := fields[i];
        Tallies(FieldLeaves(fields[..i], skip, inMeta, inConfig, metaPrefix),
                    if Counted(f, skip) then [LeafOf(f.value, inMeta, inConfig, metaPrefix)] else []);
        if f.None? || !FieldChanged(f.value.kind) {
          continue;
        }
        if f.value.name in skip {
          continue;
        }
        if inConfig && EqualFold(f.value.name, "image") {
          image := image + 1;
        } else if IsManagedMetaName(f.value.name, inMeta, metaPrefix) {
          managedMeta := managedMeta + 1;
        } else {
          other := other + 1;
        }
      }
      assert fields[..|fields|] == fields;
    }

    method AddObject(o: ObjectDiff<Field>, metaPrefix: string, depth: nat)
      requires o.ObjectDiff?
      modifies this
      ensures Added(ObjectLeaves(o, metaPrefix, depth))
      decreases o
    {
      if depth > MAX_DEPTH {
        other := other + 1;
        return;
      }
      Tallies(FieldLeaves(o.fields, {}, o.name == "Meta", o.name == "Config", metaPrefix),
                  ObjectsLeaves(o.objects, {}, metaPrefix, depth + 1));
      AddFields(o.fields, {}, o.name == "Meta", o.name == "Config", metaPrefix);
      AddObjects(o.objects, {}, metaPrefix, depth + 1);
    }

    /** `skip` names the objects that belong to the autoscaler. */
    method AddObjects(objs: seq<ObjectDiff<Field>>, skip: set<string>, metaPrefix: string, depth: nat)
      modifies this
      ensures Added(ObjectsLeaves(objs, skip, metaPrefix, depth))
      decreases objs
    {
      for i := 0 to |objs|
        invariant Added(ObjectsLeaves(objs[..i], skip, metaPrefix, depth))
      {
        assert objs[..i + 1][..i] == objs[..i];
        var o := objs[i];
        Tallies(ObjectsLeaves(objs[..i], skip, metaPrefix, depth),
                    if o.NilObject? || o.name in skip then [] else ObjectLeaves(o, metaPrefix, depth));
        if o.NilObject? {
          continue;
        }
        if o.name in skip {
          continue;
        }
        AddObject(o, metaPrefix, depth);
      }
      assert objs[..|objs|] == objs;
    }

    /** A task or group that appears or goes as a whole, then its fields and its objects. */
    method AddBody(kind: string, fields: seq<Option<Field>>, skipFields: set<string>,
                   objs: seq<ObjectDiff<Field>>, skipObjects: set<string>, metaPrefix: string)
      modifies this
      ensures Added(BodyLeaves(kind, fields, skipFields, objs, skipObjects, metaPrefix))
    {
      Tallies(WholeLeaf(kind), FieldLeaves(fields, skipFields, false, false, metaPrefix));
      Tallies(WholeLeaf(kind) + FieldLeaves(fields, skipFields, false, false, metaPrefix),
                  ObjectsLeaves(objs, skipObjects, metaPrefix, 1));
      if kind == "Added" || kind == "Deleted" {
        other := other + 1;
      }
      AddFields(fields, skipFields, false, false, metaPrefix);
      AddObjects(objs, skipObjects, metaPrefix, 1);
    }

    method AddTasks(tasks: seq<Option<TaskDiff<Field>>>, metaPrefix: string)
      modifies this
      ensures Added(TasksLeaves(tasks, metaPrefix))
    {
      for i := 0 to |tasks|
        invariant Added(TasksLeaves(tasks[..i], metaPrefix))
      {
        assert tasks[..i + 1][..i] == tasks[..i];
        Tallies(TasksLeaves(tasks[..i], metaPrefix), TaskLeaves(tasks[i], metaPrefix));
        if tasks[i].None? {
          continue;
        }
        var task := tasks[i].value;
        AddBody(task.kind, task.fields, {}, task.objects, {}, metaPrefix);
      }
      assert tasks[..|tasks|] == tasks;
    }

    method AddGroups(groups: seq<Option<GroupDiff<Field>>>, autoscaled: set<string>, metaPrefix: string)
      modifies this
      ensures Added(GroupsLeaves(groups, autoscaled, metaPrefix))
    {
      for i := 0 to |groups|
        invariant Added(GroupsLeaves(groups[..i], autoscaled, metaPrefix))
      {
        assert groups[..i + 1][..i] == groups[..i];
        Tallies(GroupsLeaves(groups[..i], autoscaled, metaPrefix), GroupLeaves(groups[i], autoscaled, metaPrefix));
        if groups[i].None? {
          continue;
        }
        var tg := groups[i].value;
        var isAuto := tg.name in autoscaled;
        var skipFields, skipObjects := if isAuto then {"Count"} else {}, if isAuto then {"Scaling"} else {};
        Tallies(BodyLeaves(tg.kind, tg.fields, skipFields, tg.objects, skipObjects, metaPrefix),
                    TasksLeaves(tg.tasks, metaPrefix));
        AddBody(tg.kind, tg.fields, skipFields, tg.objects, skipObjects, metaPrefix);
        AddTasks(tg.tasks, metaPrefix);
      }
      assert groups[..|groups|] == groups;
    }
  }

  /** Walks the diff once, counts its changed leaves by kind and classifies it by the counters. */
  method ClassifyDiff(d: Option<JobDiff<Field>>, autoscaled: set<string>, metaPrefix: string) returns (c: DiffClass)
    ensures c == Classify(d, autoscaled, metaPrefix)
  {
    if d.None? || d.value.kind == "" || d.value.kind == "None" {
      return NoChange;
    }
    var counts := new ChangeCounts();
    counts.AddFields(d.value.fields, {}, false, false, metaPrefix);
    counts.AddObjects(d.value.objects, {}, metaPrefix, 1);
    counts.AddGroups(d.value.groups, autoscaled, metaPrefix);
    Tallies(FieldLeaves(d.value.fields, {}, false, false, metaPrefix), ObjectsLeaves(d.value.objects, {}, metaPrefix, 1));
    Tallies(FieldLeaves(d.value.fields, {}, false, false, metaPrefix) + ObjectsLeaves(d.value.objects, {}, metaPrefix, 1),
            GroupsLeaves(d.value.groups, autoscaled, metaPrefix));
    ClassByTally(JobLeaves(d.value, autoscaled, metaPrefix));
    if counts.other > 0 {
      return OtherChange;
    } else if counts.image > 0 {
      return ImageChange;
    } else if counts.managedMeta > 0 {
      return ManagedMetaOnly;
    }
    return NoChange;
  }

  /** Reading the class off the counters gives the join of the leaves. */
  lemma ClassByTally(leaves: seq<Leaf>)
    ensures ClassOf(leaves) == if Tally(leaves, OtherLeaf) > 0 then OtherChange
                               else if Tally(leaves, ImageLeaf) > 0 then ImageChange
                               else if Tally(leaves, MetaLeaf) > 0 then ManagedMetaOnly else NoChange
  {
    ClassMeaning(leaves);
    TallyMeaning(leaves, OtherLeaf);
    TallyMeaning(leaves, ImageLeaf);
    TallyMeaning(leaves, MetaLeaf);
    if leaves != [] {
      assert leaves[0] in leaves;
    }
  }

  // ---- What the class says ----

  /** The class in terms of which leaves there are. */
  lemma {:induction false} ClassMeaning(leaves: seq<Leaf>)
    ensures ClassOf(leaves) == OtherChange <==> OtherLeaf in leaves
    ensures ClassOf(leaves) == ImageChange <==> OtherLeaf !in leaves && ImageLeaf in leaves
    ensures ClassOf(leaves) == ManagedMetaOnly <==> OtherLeaf !in leaves && ImageLeaf !in leaves && MetaLeaf in leaves
    ensures ClassOf(leaves) == NoChange <==> leaves == []
  {
    if leaves != [] {
      ClassMeaning(leaves[1..]);
      assert leaves == [leaves[0]] + leaves[1..];
    }
  }

  /** Classifying is a homomorphism from concatenation to join. */
  lemma ClassOfConcat(a: seq<Leaf>, b: seq<Leaf>)
    ensures ClassOf(a + b) == Join(ClassOf(a), ClassOf(b)) == Join(ClassOf(b), ClassOf(a))
  {
    ClassMeaning(a);
    ClassMeaning(b);
    ClassMeaning(a + b);
  }

  /** The class depends only on which leaves occur, so neither order nor repetition matters. */
  lemma SameLeavesSameClass(a: seq<Leaf>, b: seq<Leaf>)
    requires forall l :: l in a <==> l in b
    ensures ClassOf(a) == ClassOf(b)
  {
    ClassMeaning(a);
    ClassMeaning(b);
    assert a == [] <==> b == [] by {
      if a != [] { assert a[0] in b; }
      if b != [] { assert b[0] in a; }
    }
  }

  /** An object of the list contributes this leaf. */
  ghost predicate Contributes(objs: seq<ObjectDiff<Field>>, i: nat, skip: set<string>, metaPrefix: string, depth: nat, l: Leaf) {
    i < |objs| && objs[i].ObjectDiff? && objs[i].name !in skip && l in ObjectLeaves(objs[i], metaPrefix, depth)
  }

  lemma {:induction false} InObjectsLeaves(objs: seq<ObjectDiff<Field>>, skip: set<string>, metaPrefix: string,
                                           depth: nat, l: Leaf)
    ensures l in ObjectsLeaves(objs, skip, metaPrefix, depth)
            <==> exists i :: Contributes(objs, i, skip, metaPrefix, depth, l)
  {
    if objs != [] {
      var front, last := objs[..|objs| - 1], |objs| - 1;
      InObjectsLeaves(front, skip, metaPrefix, depth, l);
      if l in ObjectsLeaves(front, skip, metaPrefix, depth) {
        var i :| Contributes(front, i, skip, metaPrefix, depth, l);
        assert Contributes(objs, i, skip, metaPrefix, depth, l);
      } else if l in ObjectsLeaves(objs, skip, metaPrefix, depth) {
        assert Contributes(objs, last, skip, metaPrefix, depth, l);
      }
      if i: nat :| Contributes(objs, i, skip, metaPrefix, depth, l) {
        assert i != last ==> Contributes(front, i, skip, metaPrefix, depth, l);
      }
    }
  }

  lemma {:induction false} InFieldLeaves(fields: seq<Option<Field>>, skip: set<string>, inMeta: bool, inConfig: bool,
                                         metaPrefix: string, l: Leaf)
    ensures l in FieldLeaves(fields, skip, inMeta, inConfig, metaPrefix)
            <==> exists i :: 0 <= i < |fields| && Counted(fields[i], skip)
                             && l == LeafOf(fields[i].value, inMeta, inConfig, metaPrefix)
  {
    if fields != [] {
      InFieldLeaves(fields[..|fields| - 1], skip, inMeta, inConfig, metaPrefix, l);
    }
  }

  /** Siblings may come in any order. */
  lemma SiblingOrderIrrelevant(a: seq<ObjectDiff<Field>>, b: seq<ObjectDiff<Field>>, skip: set<string>,
                               metaPrefix: string, depth: nat)
    requires forall o :: o in a <==> o in b
    ensures ClassOf(ObjectsLeaves(a, skip, metaPrefix, depth)) == ClassOf(ObjectsLeaves(b, skip, metaPrefix, depth))
  {
    forall l ensures l in ObjectsLeaves(a, skip, metaPrefix, depth) <==> l in ObjectsLeaves(b, skip, metaPrefix, depth) {
      LeafOfSomeSibling(a, b, skip, metaPrefix, depth, l);
      LeafOfSomeSibling(b, a, skip, metaPrefix, depth, l);
    }
    SameLeavesSameClass(ObjectsLeaves(a, skip, metaPrefix, depth), ObjectsLeaves(b, skip, metaPrefix, depth));
  }

  lemma LeafOfSomeSibling(a: seq<ObjectDiff<Field>>, b: seq<ObjectDiff<Field>>, skip: set<string>,
                          metaPrefix: string, depth: nat, l: Leaf)
    requires forall o :: o in a ==> o in b
    ensures l in ObjectsLeaves(a, skip, metaPrefix, depth) ==> l in ObjectsLeaves(b, skip, metaPrefix, depth)
  {
    InObjectsLeaves(a, skip, metaPrefix, depth, l);
    InObjectsLeaves(b, skip, metaPrefix, depth, l);
    if i: nat :| Contributes(a, i, skip, metaPrefix, depth, l) {
      assert a[i] in b;
      var j :| 0 <= j < |b| && b[j] == a[i];
      assert Contributes(b, j, skip, metaPrefix, depth, l);
    }
  }

  /** The leaf a node contributes, told by its path alone: a node one level too deep is some other
      change, a node above that contributes each of its own changed fields. */
  ghost predicate LeafAtPath(objs: seq<ObjectDiff<Field>>, path: seq<nat>, metaPrefix: string, depth: nat, l: Leaf) {
    NodeAt(objs, path).ObjectDiff?
    && var o, level := NodeAt(objs, path), depth + |path| - 1;
       if level > MAX_DEPTH then l == OtherLeaf && (|path| == 1 || level == MAX_DEPTH + 1)
       else l in FieldLeaves(o.fields, {}, o.name == "Meta", o.name == "Config", metaPrefix)
  }

  /** Stepping down: a path into the children of the i-th object, seen from its parent list. */
  lemma PathDown(objs: seq<ObjectDiff<Field>>, i: nat, path: seq<nat>, metaPrefix: string, depth: nat, l: Leaf)
    requires i < |objs| && objs[i].ObjectDiff? && path != []
    requires depth <= MAX_DEPTH
    ensures LeafAtPath(objs, [i] + path, metaPrefix, depth, l)
            <==> LeafAtPath(objs[i].objects, path, metaPrefix, depth + 1, l)
  {
    assert ([i] + path)[1..] == path;
  }

  lemma {:induction false} LeafHasPath(objs: seq<ObjectDiff<Field>>, i: nat, metaPrefix: string, depth: nat, l: Leaf)
      returns (path: seq<nat>)
    requires Contributes(objs, i, {}, metaPrefix, depth, l)
    ensures LeafAtPath(objs, path, metaPrefix, depth, l) && path[0] == i
    decreases objs[i]
  {
    var o := objs[i];
    assert NodeAt(objs, [i]) == o;
    if depth > MAX_DEPTH || l in FieldLeaves(o.fields, {}, o.name == "Meta", o.name == "Config", metaPrefix) {
      path := [i];
    } else {
      InObjectsLeaves(o.objects, {}, metaPrefix, depth + 1, l);
      var j :| Contributes(o.objects, j, {}, metaPrefix, depth + 1, l);
      path := LeafHasPath(o.objects, j, metaPrefix, depth + 1, l);
      PathDown(objs, i, path, metaPrefix, depth, l);
      path := [i] + path;
    }
  }

  lemma {:induction false} PathHasLeaf(objs: seq<ObjectDiff<Field>>, path: seq<nat>, metaPrefix: string,
                                       depth: nat, l: Leaf)
    requires LeafAtPath(objs, path, metaPrefix, depth, l)
    ensures Contributes(objs, path[0], {}, metaPrefix, depth, l)
    decreases |path|
  {
    hide FieldLeaves;
    hide ObjectsLeaves;
    var o := objs[path[0]];
    if |path| > 1 && depth <= MAX_DEPTH {
      assert path == [path[0]] + path[1..];
      PathDown(objs, path[0], path[1..], metaPrefix, depth, l);
      PathHasLeaf(o.objects, path[1..], metaPrefix, depth + 1, l);
      InObjectsLeaves(o.objects, {}, metaPrefix, depth + 1, l);
    }
  }

  /** The path starts at an object of the list that is not left out. */
  predicate Enters(objs: seq<ObjectDiff<Field>>, path: seq<nat>, skip: set<string>) {
    path != [] && path[0] < |objs| && objs[path[0]].ObjectDiff? && objs[path[0]].name !in skip
  }

  /** The recursive walk visits exactly the leaves that paths of at most the capped length reach,
      and one extra leaf for every node just beyond the cap. */
  lemma WalkIsPaths(objs: seq<ObjectDiff<Field>>, skip: set<string>, metaPrefix: string, l: Leaf)
    ensures l in ObjectsLeaves(objs, skip, metaPrefix, 1)
            <==> exists path :: Enters(objs, path, skip) && LeafAtPath(objs, path, metaPrefix, 1, l)
  {
    InObjectsLeaves(objs, skip, metaPrefix, 1, l);
    if l in ObjectsLeaves(objs, skip, metaPrefix, 1) {
      var i :| Contributes(objs, i, skip, metaPrefix, 1, l);
      var path := LeafHasPath(objs, i, metaPrefix, 1, l);
    }
    if path :| Enters(objs, path, skip) && LeafAtPath(objs, path, metaPrefix, 1, l) {
      PathHasLeaf(objs, path, metaPrefix, 1, l);
      assert Contributes(objs, path[0], skip, metaPrefix, 1, l);
    }
  }

  // ---- The whole diff ----

  // Where in a diff fields and objects hang: on the job, on a group or on a task of a group.
  datatype Place =
    | JobPlace
    | GroupPlace(g: GroupDiff<Field>)
    | TaskPlace(of: GroupDiff<Field>, t: TaskDiff<Field>)

  ghost predicate HasPlace(d: JobDiff<Field>, p: Place) {
    match p
    case JobPlace => true
    case GroupPlace(g) => Some(g) in d.groups
    case TaskPlace(g, t) => Some(g) in d.groups && Some(t) in g.tasks
  }

  /** A group or a task that appears or goes as a whole. */
  predicate WholePlace(p: Place) {
    match p
    case JobPlace => false
    case GroupPlace(g) => g.kind == "Added" || g.kind == "Deleted"
    case TaskPlace(_, t) => t.kind == "Added" || t.kind == "Deleted"
  }

  function FieldsOf(d: JobDiff<Field>, p: Place): seq<Option<Field>> {
    match p
    case JobPlace => d.fields
    case GroupPlace(g) => g.fields
    case TaskPlace(_, t) => t.fields
  }

  function ObjectsOf(d: JobDiff<Field>, p: Place): seq<ObjectDiff<Field>> {
    match p
    case JobPlace => d.objects
    case GroupPlace(g) => g.objects
    case TaskPlace(_, t) => t.objects
  }

  /** What belongs to the autoscaler. */
  function OwnFields(p: Place, autoscaled: set<string>): set<string> {
    if p.GroupPlace? && p.g.name in autoscaled then {"Count"} else {}
  }

  function OwnObjects(p: Place, autoscaled: set<string>): set<string> {
    if p.GroupPlace? && p.g.name in autoscaled then {"Scaling"} else {}
  }

  /** The path leads from the place to an object outside the autoscaler's own. */
  ghost predicate Leads(d: JobDiff<Field>, autoscaled: set<string>, p: Place, path: seq<nat>) {
    HasPlace(d, p) && Enters(ObjectsOf(d, p), path, OwnObjects(p, autoscaled)) && NodeAt(ObjectsOf(d, p), path).ObjectDiff?
  }

  /** The leaf a place contributes at a path; at the empty path it is the place itself. */
  ghost predicate LeafAtPlace(d: JobDiff<Field>, autoscaled: set<string>, metaPrefix: string, p: Place, path: seq<nat>, l: Leaf) {
    if path == [] then
      HasPlace(d, p)
      && ((WholePlace(p) && l == OtherLeaf) || l in FieldLeaves(FieldsOf(d, p), OwnFields(p, autoscaled), false, false, metaPrefix))
    else Leads(d, autoscaled, p, path) && LeafAtPath(ObjectsOf(d, p), path, metaPrefix, 1, l)
  }

  lemma {:induction false} InTasksLeaves(tasks: seq<Option<TaskDiff<Field>>>, metaPrefix: string, l: Leaf)
    ensures l in TasksLeaves(tasks, metaPrefix) <==> exists t :: Some(t) in tasks && l in TaskLeaves(Some(t), metaPrefix)
  {
    if tasks != [] {
      var front, last := tasks[..|tasks| - 1], tasks[|tasks| - 1];
      assert tasks == front + [last];
      InTasksLeaves(front, metaPrefix, l);
      if l in TaskLeaves(last, metaPrefix) {
        assert Some(last.value) in tasks;
      }
    }
  }

  lemma {:induction false} InGroupsLeaves(groups: seq<Option<GroupDiff<Field>>>, autoscaled: set<string>, metaPrefix: string, l: Leaf)
    ensures l in GroupsLeaves(groups, autoscaled, metaPrefix)
            <==> exists g :: Some(g) in groups && l in GroupLeaves(Some(g), autoscaled, metaPrefix)
  {
    if groups != [] {
      var front, last := groups[..|groups| - 1], groups[|groups| - 1];
      assert groups == front + [last];
      InGroupsLeaves(front, autoscaled, metaPrefix, l);
      if l in GroupLeaves(last, autoscaled, metaPrefix) {
        assert Some(last.value) in groups;
      }
    }
  }

  /** The leaves of a place, its groups and tasks aside. */
  function PlaceLeaves(d: JobDiff<Field>, autoscaled: set<string>, metaPrefix: string, p: Place): seq<Leaf> {
    (if WholePlace(p) then [OtherLeaf] else []) + FieldLeaves(FieldsOf(d, p), OwnFields(p, autoscaled), false, false, metaPrefix)
    + ObjectsLeaves(ObjectsOf(d, p), OwnObjects(p, autoscaled), metaPrefix, 1)
  }

  lemma PlaceByPath(d: JobDiff<Field>, autoscaled: set<string>, metaPrefix: string, p: Place, l: Leaf)
    requires HasPlace(d, p)
    ensures l in PlaceLeaves(d, autoscaled, metaPrefix, p) <==> exists path :: LeafAtPlace(d, autoscaled, metaPrefix, p, path, l)
  {
    var objs, skip := ObjectsOf(d, p), OwnObjects(p, autoscaled);
    WalkIsPaths(objs, skip, metaPrefix, l);
    if l in ObjectsLeaves(objs, skip, metaPrefix, 1) {
      var path :| Enters(objs, path, skip) && LeafAtPath(objs, path, metaPrefix, 1, l);
      assert LeafAtPlace(d, autoscaled, metaPrefix, p, path, l);
    } else if l in PlaceLeaves(d, autoscaled, metaPrefix, p) {
      assert LeafAtPlace(d, autoscaled, metaPrefix, p, [], l);
    }
  }

  lemma WholeLeaves(p: Place)
    ensures (if WholePlace(p) then [OtherLeaf] else [])
            == match p case JobPlace => [] case GroupPlace(g) => WholeLeaf(g.kind) case TaskPlace(_, t) => WholeLeaf(t.kind)
  {
  }

  lemma PlaceIsWalked(d: JobDiff<Field>, autoscaled: set<string>, metaPrefix: string, p: Place, l: Leaf)
    requires HasPlace(d, p) && l in PlaceLeaves(d, autoscaled, metaPrefix, p)
    ensures l in JobLeaves(d, autoscaled, metaPrefix)
  {
    WholeLeaves(p);
    hide FieldLeaves;
    hide ObjectsLeaves;
    hide WholeLeaf;
    hide WholePlace;
    InGroupsLeaves(d.groups, autoscaled, metaPrefix, l);
    if p.GroupPlace? {
      assert l in GroupLeaves(Some(p.g), autoscaled, metaPrefix);
    } else if p.TaskPlace? {
      InTasksLeaves(p.of.tasks, metaPrefix, l);
      assert l in TaskLeaves(Some(p.t), metaPrefix) && l in TasksLeaves(p.of.tasks, metaPrefix);
      assert l in GroupLeaves(Some(p.of), autoscaled, metaPrefix);
    }
  }

  lemma LeafHasPlace(d: JobDiff<Field>, autoscaled: set<string>, metaPrefix: string, l: Leaf) returns (p: Place)
    requires l in JobLeaves(d, autoscaled, metaPrefix)
    ensures HasPlace(d, p) && l in PlaceLeaves(d, autoscaled, metaPrefix, p)
  {
    hide FieldLeaves;
    hide ObjectsLeaves;
    InGroupsLeaves(d.groups, autoscaled, metaPrefix, l);
    p := JobPlace;
    if l in GroupsLeaves(d.groups, autoscaled, metaPrefix) {
      var g :| Some(g) in d.groups && l in GroupLeaves(Some(g), autoscaled, metaPrefix);
      InTasksLeaves(g.tasks, metaPrefix, l);
      p := GroupPlace(g);
      if l in TasksLeaves(g.tasks, metaPrefix) {
        var t :| Some(t) in g.tasks && l in TaskLeaves(Some(t), metaPrefix);
        p := TaskPlace(g, t);
      }
    }
    WholeLeaves(p);
    hide WholeLeaf;
    hide WholePlace;
  }

  lemma LeavesByPlace(d: JobDiff<Field>, autoscaled: set<string>, metaPrefix: string, l: Leaf)
    ensures l in JobLeaves(d, autoscaled, metaPrefix)
            <==> exists p :: HasPlace(d, p) && l in PlaceLeaves(d, autoscaled, metaPrefix, p)
  {
    hide *;
    if l in JobLeaves(d, autoscaled, metaPrefix) {
      var p := LeafHasPlace(d, autoscaled, metaPrefix, l);
    }
    if p :| HasPlace(d, p) && l in PlaceLeaves(d, autoscaled, metaPrefix, p) {
      PlaceIsWalked(d, autoscaled, metaPrefix, p, l);
    }
  }

  /** A field changed at the place, or at an object the path leads to from there, and is not the
      autoscaler's own. */
  ghost predicate ChangedAt(d: JobDiff<Field>, autoscaled: set<string>, p: Place, path: seq<nat>, f: Field) {
    (f.kind == "Added" || f.kind == "Deleted" || f.kind == "Edited")
    && if path == [] then HasPlace(d, p) && Some(f) in FieldsOf(d, p) && f.name !in OwnFields(p, autoscaled)
       else Leads(d, autoscaled, p, path) && Some(f) in NodeAt(ObjectsOf(d, p), path).fields
  }

  /** The name of the object there, none for the place itself. */
  function ObjectName(d: JobDiff<Field>, p: Place, path: seq<nat>): string {
    var o := NodeAt(ObjectsOf(d, p), path);
    if o.ObjectDiff? then o.name else ""
  }

  /** The image of a driver's configuration. */
  ghost predicate ImageField(owner: string, f: Field) {
    owner == "Config" && SaysImage(f.name)
  }

  /** One of the engine's own meta keys: the key in the brackets of "Meta[...]", or, of an object named
      Meta, the field's name. */
  ghost predicate OwnMetaField(owner: string, f: Field, metaPrefix: string) {
    (exists key :: f.name == "Meta[" + key + "]" && ReservedKey(key, metaPrefix))
    || (owner == "Meta" && ReservedKey(f.name, metaPrefix) && !exists key :: f.name == "Meta[" + key + "]")
  }

  ghost predicate OfKind(owner: string, f: Field, metaPrefix: string, l: Leaf) {
    match l
    case ImageLeaf => ImageField(owner, f)
    case MetaLeaf => !ImageField(owner, f) && OwnMetaField(owner, f, metaPrefix)
    case OtherLeaf => !ImageField(owner, f) && !OwnMetaField(owner, f, metaPrefix)
  }

  lemma OwnMetaExactly(owner: string, f: Field, metaPrefix: string)
    ensures IsManagedMetaName(f.name, owner == "Meta", metaPrefix) <==> OwnMetaField(owner, f, metaPrefix)
  {
    if |f.name| > 5 && HasPrefix(f.name, "Meta[") && HasSuffix(f.name, "]") {
      assert f.name == "Meta[" + f.name[5..|f.name| - 1] + "]";
    }
    if key :| f.name == "Meta[" + key + "]" {
      assert f.name[|f.name| - 1..] == "]" && f.name[5..|f.name| - 1] == key;
      ReservedExactly(key, metaPrefix);
      forall other | f.name == "Meta[" + other + "]" ensures other == key {
        assert f.name[5..|f.name| - 1] == other;
      }
    } else {
      ReservedExactly(f.name, metaPrefix);
    }
  }

  lemma KindExactly(owner: string, f: Field, metaPrefix: string, l: Leaf)
    ensures LeafOf(f, owner == "Meta", owner == "Config", metaPrefix) == l <==> OfKind(owner, f, metaPrefix, l)
  {
    SaysImageExactly(f.name);
    OwnMetaExactly(owner, f, metaPrefix);
    hide SaysImage;
    hide OwnMetaField;
  }

  /** A changed field of the kind, where the walk looks. */
  ghost predicate SomeField(d: JobDiff<Field>, autoscaled: set<string>, metaPrefix: string, l: Leaf) {
    exists p, path, f :: ChangedAt(d, autoscaled, p, path, f) && |path| <= MAX_DEPTH
                         && OfKind(ObjectName(d, p, path), f, metaPrefix, l)
  }

  /** An object deeper than the walk looks. */
  ghost predicate TooDeep(d: JobDiff<Field>, autoscaled: set<string>, p: Place, path: seq<nat>) {
    Leads(d, autoscaled, p, path) && |path| > MAX_DEPTH
  }

  /** What makes a diff an other change: a group or task added or deleted, an object too deep, a field
      that is neither an image nor one of the engine's meta keys. */
  ghost predicate SomethingElse(d: JobDiff<Field>, autoscaled: set<string>, metaPrefix: string) {
    || (exists p :: HasPlace(d, p) && WholePlace(p))
    || (exists p, path :: TooDeep(d, autoscaled, p, path))
    || SomeField(d, autoscaled, metaPrefix, OtherLeaf)
  }

  /** The fields at a place or at an object the path leads to, and those of them to leave out. */
  ghost function FieldsThere(d: JobDiff<Field>, autoscaled: set<string>, p: Place, path: seq<nat>): (seq<Option<Field>>, set<string>) {
    if path == [] then (if HasPlace(d, p) then FieldsOf(d, p) else [], OwnFields(p, autoscaled))
    else (if Leads(d, autoscaled, p, path) then NodeAt(ObjectsOf(d, p), path).fields else [], {})
  }

  lemma LeavesThere(d: JobDiff<Field>, autoscaled: set<string>, metaPrefix: string, p: Place, path: seq<nat>, l: Leaf)
    requires |path| <= MAX_DEPTH && !(path == [] && WholePlace(p) && l == OtherLeaf)
    ensures var owner, there := ObjectName(d, p, path), FieldsThere(d, autoscaled, p, path);
            LeafAtPlace(d, autoscaled, metaPrefix, p, path, l)
            <==> l in FieldLeaves(there.0, there.1, owner == "Meta", owner == "Config", metaPrefix)
  {
  }

  lemma ChangedThere(d: JobDiff<Field>, autoscaled: set<string>, p: Place, path: seq<nat>, f: Field)
    ensures var there := FieldsThere(d, autoscaled, p, path);
            ChangedAt(d, autoscaled, p, path, f) <==> Some(f) in there.0 && Counted(Some(f), there.1)
  {
  }

  /** A field leaf at a place comes from a changed field there, and the other way round. */
  lemma FieldAtPlace(d: JobDiff<Field>, autoscaled: set<string>, metaPrefix: string, p: Place, path: seq<nat>, l: Leaf)
    requires |path| <= MAX_DEPTH && !(path == [] && WholePlace(p) && l == OtherLeaf)
    ensures LeafAtPlace(d, autoscaled, metaPrefix, p, path, l)
            <==> exists f :: ChangedAt(d, autoscaled, p, path, f) && OfKind(ObjectName(d, p, path), f, metaPrefix, l)
  {
    var owner, there := ObjectName(d, p, path), FieldsThere(d, autoscaled, p, path);
    LeavesThere(d, autoscaled, metaPrefix, p, path, l);
    InFieldLeaves(there.0, there.1, owner == "Meta", owner == "Config", metaPrefix, l);
    forall f ensures ChangedAt(d, autoscaled, p, path, f) <==> Some(f) in there.0 && Counted(Some(f), there.1) {
      ChangedThere(d, autoscaled, p, path, f);
    }
    forall f: Field ensures LeafOf(f, owner == "Meta", owner == "Config", metaPrefix) == l <==> OfKind(owner, f, metaPrefix, l) {
      KindExactly(owner, f, metaPrefix, l);
    }
    hide OfKind;
    hide FieldLeaves;
    hide LeafOf;
    hide LeafAtPlace;
    hide ChangedAt;
    hide Counted;
    hide FieldsThere;
    if LeafAtPlace(d, autoscaled, metaPrefix, p, path, l) {
      var i :| 0 <= i < |there.0| && Counted(there.0[i], there.1)
               && l == LeafOf(there.0[i].value, owner == "Meta", owner == "Config", metaPrefix);
      assert there.0[i] in there.0 && there.0[i] == Some(there.0[i].value);
      assert ChangedAt(d, autoscaled, p, path, there.0[i].value);
    }
    if f :| ChangedAt(d, autoscaled, p, path, f) && OfKind(owner, f, metaPrefix, l) {
      var i :| 0 <= i < |there.0| && there.0[i] == Some(f);
      assert Counted(there.0[i], there.1);
    }
  }

  lemma DeepLeaf(d: JobDiff<Field>, autoscaled: set<string>, metaPrefix: string, p: Place, path: seq<nat>)
    requires TooDeep(d, autoscaled, p, path)
    ensures LeafAtPlace(d, autoscaled, metaPrefix, p, path[..MAX_DEPTH + 1], OtherLeaf)
  {
    AncestorAt(ObjectsOf(d, p), path, MAX_DEPTH + 1);
    assert Leads(d, autoscaled, p, path[..MAX_DEPTH + 1]);
  }

  /** The walk finds a field leaf exactly where a field of the kind changed; other changes it also sees in
      added and deleted groups and tasks and in objects too deep. */
  lemma LeafMeans(d: JobDiff<Field>, autoscaled: set<string>, metaPrefix: string, l: Leaf)
    ensures l in JobLeaves(d, autoscaled, metaPrefix)
            <==> if l.OtherLeaf? then SomethingElse(d, autoscaled, metaPrefix) else SomeField(d, autoscaled, metaPrefix, l)
  {
    LeavesByPlace(d, autoscaled, metaPrefix, l);
    hide JobLeaves;
    if l in JobLeaves(d, autoscaled, metaPrefix) {
      var p :| HasPlace(d, p) && l in PlaceLeaves(d, autoscaled, metaPrefix, p);
      PlaceByPath(d, autoscaled, metaPrefix, p, l);
      var path :| LeafAtPlace(d, autoscaled, metaPrefix, p, path, l);
      if |path| <= MAX_DEPTH && !(path == [] && WholePlace(p) && l == OtherLeaf) {
        FieldAtPlace(d, autoscaled, metaPrefix, p, path, l);
      } else if |path| > MAX_DEPTH {
        assert TooDeep(d, autoscaled, p, path);
      }
    }
    hide PlaceLeaves;
    hide OfKind;
    if SomeField(d, autoscaled, metaPrefix, l) {
      var p, path, f :| ChangedAt(d, autoscaled, p, path, f) && |path| <= MAX_DEPTH
                        && OfKind(ObjectName(d, p, path), f, metaPrefix, l);
      HasLeaf(d, autoscaled, metaPrefix, p, path, f, l);
    }
    if l.OtherLeaf? {
      if p :| HasPlace(d, p) && WholePlace(p) {
        assert LeafAtPlace(d, autoscaled, metaPrefix, p, [], OtherLeaf);
        PlaceByPath(d, autoscaled, metaPrefix, p, OtherLeaf);
      }
      if p, path :| TooDeep(d, autoscaled, p, path) {
        DeepLeaf(d, autoscaled, metaPrefix, p, path);
        PlaceByPath(d, autoscaled, metaPrefix, p, OtherLeaf);
      }
    }
  }

  lemma HasLeaf(d: JobDiff<Field>, autoscaled: set<string>, metaPrefix: string, p: Place, path: seq<nat>, f: Field, l: Leaf)
    requires ChangedAt(d, autoscaled, p, path, f) && |path| <= MAX_DEPTH && OfKind(ObjectName(d, p, path), f, metaPrefix, l)
    ensures HasPlace(d, p) && l in PlaceLeaves(d, autoscaled, metaPrefix, p)
  {
    if path == [] && WholePlace(p) && l == OtherLeaf {
      assert l in PlaceLeaves(d, autoscaled, metaPrefix, p);
    } else {
      FieldAtPlace(d, autoscaled, metaPrefix, p, path, l);
      PlaceByPath(d, autoscaled, metaPrefix, p, l);
    }
  }

  /** The class told by what changed, wherever in the job, its groups, its tasks and their objects, and
      without the walk. An image change is one where images changed and otherwise nothing but the
      engine's own meta keys and what belongs to the autoscaler: no group or task was added or
      deleted, and no object lies deeper than the walk looks. */
  lemma ClassifiedExactly(d: JobDiff<Field>, autoscaled: set<string>, metaPrefix: string)
    requires d.kind != "" && d.kind != "None"
    ensures var c := Classify(Some(d), autoscaled, metaPrefix);
            (c.NoChange? <==> !SomethingElse(d, autoscaled, metaPrefix) && !SomeField(d, autoscaled, metaPrefix, ImageLeaf)
                              && !SomeField(d, autoscaled, metaPrefix, MetaLeaf))
            && (c.OtherChange? <==> SomethingElse(d, autoscaled, metaPrefix))
            && (c.ImageChange? <==> !SomethingElse(d, autoscaled, metaPrefix) && SomeField(d, autoscaled, metaPrefix, ImageLeaf))
            && (c.ManagedMetaOnly? <==> !SomethingElse(d, autoscaled, metaPrefix) && !SomeField(d, autoscaled, metaPrefix, ImageLeaf)
                                        && SomeField(d, autoscaled, metaPrefix, MetaLeaf))
  {
    var leaves := JobLeaves(d, autoscaled, metaPrefix);
    ClassMeaning(leaves);
    LeafMeans(d, autoscaled, metaPrefix, OtherLeaf);
    LeafMeans(d, autoscaled, metaPrefix, ImageLeaf);
    LeafMeans(d, autoscaled, metaPrefix, MetaLeaf);
    hide SomeField;
    hide SomethingElse;
    hide JobLeaves;
    if leaves != [] {
      assert leaves[0] in leaves && leaves[0] in {OtherLeaf, ImageLeaf, MetaLeaf};
    }
  }

  /** Something changed, but nothing besides the engine's own meta keys and what belongs to the autoscaler. */
  ghost predicate OnlyOwnKeys(d: JobDiff<Field>, autoscaled: set<string>, metaPrefix: string) {
    !SomethingElse(d, autoscaled, metaPrefix) && !SomeField(d, autoscaled, metaPrefix, ImageLeaf)
    && SomeField(d, autoscaled, metaPrefix, MetaLeaf)
  }

  /** What a place shows: fields, objects, or that the group or task is not as it was. */
  ghost predicate Shows(d: JobDiff<Field>, p: Place) {
    HasPlace(d, p)
    && (FieldsOf(d, p) != [] || ObjectsOf(d, p) != [] || (p.GroupPlace? && WholePlace(p))
        || (p.TaskPlace? && p.t.kind != "None"))
  }

  /** A diff has content exactly if some place shows something. */
  lemma ContentExactly(d: JobDiff<Field>)
    ensures HasContentDiff(Some(d)) <==> d.kind != "" && d.kind != "None" && exists p :: Shows(d, p)
  {
    if HasContentDiff(Some(d)) {
      if d.fields != [] || d.objects != [] {
        assert Shows(d, JobPlace);
      } else {
        var i :| 0 <= i < |d.groups| && d.groups[i].Some? && GroupHasContent(d.groups[i].value);
        var g := d.groups[i].value;
        assert Some(g) in d.groups;
        if WholeChange(g.kind) || g.fields != [] || g.objects != [] {
          assert Shows(d, GroupPlace(g));
        } else {
          var j :| 0 <= j < |g.tasks| && g.tasks[j].Some? && TaskHasContent(g.tasks[j].value);
          assert Some(g.tasks[j].value) in g.tasks;
          assert Shows(d, TaskPlace(g, g.tasks[j].value));
        }
      }
    }
    if p :| d.kind != "" && d.kind != "None" && Shows(d, p) {
      if p.GroupPlace? {
        var i :| 0 <= i < |d.groups| && d.groups[i] == Some(p.g);
      } else if p.TaskPlace? {
        var i :| 0 <= i < |d.groups| && d.groups[i] == Some(p.of);
        var j :| 0 <= j < |p.of.tasks| && p.of.tasks[j] == Some(p.t);
        assert TaskHasContent(p.of.tasks[j].value);
      }
    }
  }

  lemma FieldShows(d: JobDiff<Field>, autoscaled: set<string>, metaPrefix: string, l: Leaf)
    requires SomeField(d, autoscaled, metaPrefix, l)
    ensures exists p :: Shows(d, p)
  {
    hide OfKind;
    hide ObjectName;
    var p, path, f :| ChangedAt(d, autoscaled, p, path, f) && |path| <= MAX_DEPTH
                      && OfKind(ObjectName(d, p, path), f, metaPrefix, l);
    assert Shows(d, p);
  }

  /** No change is lost as mere bookkeeping: what classifies as any change at all has content. */
  lemma ChangesAreContent(d: JobDiff<Field>, autoscaled: set<string>, metaPrefix: string)
    requires !Classify(Some(d), autoscaled, metaPrefix).NoChange?
    ensures HasContentDiff(Some(d))
  {
    ClassifiedExactly(d, autoscaled, metaPrefix);
    ContentExactly(d);
    if p :| HasPlace(d, p) && WholePlace(p) {
      assert Shows(d, p);
    } else if p, path :| TooDeep(d, autoscaled, p, path) {
      assert Shows(d, p);
    } else {
      var l :| l in {OtherLeaf, ImageLeaf, MetaLeaf} && SomeField(d, autoscaled, metaPrefix, l);
      FieldShows(d, autoscaled, metaPrefix, l);
    }
  }

  /** An object nested deeper than the cap makes the whole diff an other change whatever else is in it, unless
      it hangs under the autoscaler's own object. */
  lemma DeepNodeForcesOther(d: JobDiff<Field>, autoscaled: set<string>, metaPrefix: string, p: Place, path: seq<nat>)
    requires d.kind != "" && d.kind != "None" && Leads(d, autoscaled, p, path) && |path| > MAX_DEPTH
    ensures Classify(Some(d), autoscaled, metaPrefix) == OtherChange
  {
    assert TooDeep(d, autoscaled, p, path);
    ClassifiedExactly(d, autoscaled, metaPrefix);
  }

  /** What an update confined to images may rely on: wherever a field changed, on the job, on a group, on a
      task or in any object of theirs, it is the image of a Config object, a managed meta key or the
      autoscaler's own; and no group and no task was added or deleted. */
  lemma ImageClassIsSound(d: JobDiff<Field>, autoscaled: set<string>, metaPrefix: string, p: Place, path: seq<nat>, f: Field)
    requires Classify(Some(d), autoscaled, metaPrefix) in {ImageChange, ManagedMetaOnly}
    ensures HasPlace(d, p) ==> !WholePlace(p)
    ensures ChangedAt(d, autoscaled, p, path, f) ==>
              |path| <= MAX_DEPTH
              && (ImageField(ObjectName(d, p, path), f) || OwnMetaField(ObjectName(d, p, path), f, metaPrefix))
  {
    ClassifiedExactly(d, autoscaled, metaPrefix);
    hide ImageField;
    hide OwnMetaField;
    assert ChangedAt(d, autoscaled, p, path, f) && |path| > MAX_DEPTH ==> TooDeep(d, autoscaled, p, path);
  }
}
