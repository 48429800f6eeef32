/** The text rendering of a plan diff, line by line, and why it shows nothing redaction missed. */
module Rendering {
  import opened Wrappers
  import opened Text
  import opened PlanDiffs
  import opened Redaction

  // One line of the report. `shown` are the values a field line prints, in order; `counts` the counted
  // updates a group line ends with, which are printed sorted.
  datatype Line =
    | JobLine(symbol: string, id: string, file: string)
    | GroupLine(indent: nat, symbol: string, name: string, counts: set<string>)
    | TaskLine(indent: nat, symbol: string, name: string, annotations: seq<string>)
    | FieldLine(indent: nat, sign: char, name: string, shown: seq<string>, annotations: seq<string>)
    | OpenLine(indent: nat, symbol: string, name: string)
    | CloseLine(indent: nat)
    | TruncatedLine(indent: nat)

  function DiffSymbol(kind: string): string {
    if kind == "Added" then "+"
    else if kind == "Deleted" then "-"
    else if kind == "Edited" then "+/-"
    else "?"
  }

  /** The updates of a group that are counted at all, each with its count. */
  function CountParts(updates: map<string, nat>): set<string> {
    set k | k in updates && updates[k] > 0 :: Decimal(updates[k]) + " " + k
  }

  lemma OneMorePart(updates: map<string, nat>, seen: set<string>, k: string)
    requires k in updates
    ensures var before := map j | j in updates && j in seen :: updates[j];
            var after := map j | j in updates && j in seen + {k} :: updates[j];
            CountParts(after) == CountParts(before) + if updates[k] > 0 then {Decimal(updates[k]) + " " + k} else {}
  {
    hide Decimal;
    var before := map j | j in updates && j in seen :: updates[j];
    var after := map j | j in updates && j in seen + {k} :: updates[j];
    forall p | p in CountParts(after)
      ensures p in CountParts(before) + if updates[k] > 0 then {Decimal(updates[k]) + " " + k} else {}
    {
      var j :| j in after && after[j] > 0 && p == Decimal(after[j]) + " " + j;
      assert j != k ==> j in before && before[j] == after[j];
    }
    forall p | p in CountParts(before) ensures p in CountParts(after) {
      var j :| j in before && before[j] > 0 && p == Decimal(before[j]) + " " + j;
      assert j in after && after[j] == before[j];
    }
    assert k in after && after[k] == updates[k];
  }

  /** The loop that collects them. */
  method CollectParts(updates: map<string, nat>) returns (parts: set<string>)
    ensures parts == CountParts(updates)
  {
    hide Decimal;
    parts := {};
    var left := updates.Keys;
    ghost var seen: set<string> := {};
    assert (map j | j in updates && j in seen :: updates[j]) == map[];
    while left != {}
      invariant left + seen == updates.Keys
      invariant parts == CountParts(map j | j in updates && j in seen :: updates[j])
      decreases |left|
    {
      var k :| k in left;
      OneMorePart(updates, seen, k);
      if updates[k] > 0 {
        parts := parts + {Decimal(updates[k]) + " " + k};
      }
      left, seen := left - {k}, seen + {k};
    }
    assert (map j | j in updates && j in seen :: updates[j]) == updates;
  }

  /** What a changed field prints: an addition its new value, a deletion its old one, an edit both. */
  function LineOf(f: Field, indent: nat): Line
    requires FieldChanged(f.kind)
  {
    if f.kind == "Added" then FieldLine(indent, '+', f.name, [f.newValue], f.annotations)
    else if f.kind == "Deleted" then FieldLine(indent, '-', f.name, [f.oldValue], f.annotations)
    else FieldLine(indent, '~', f.name, [f.oldValue, f.newValue], f.annotations)
  }

  // A place in the report: a line that is fixed, or the line of a field as it will then be.
  datatype Slot = Fixed(line: Line) | Shows(indent: nat, field: FieldDiff)

  ghost predicate Printable(slots: seq<Slot>) {
    forall i :: 0 <= i < |slots| && slots[i].Shows? ==> FieldChanged(slots[i].field.kind)
  }

  ghost function Shown(slots: seq<Slot>): set<FieldDiff> {
    set s | s in slots && s.Shows? :: s.field
  }

  ghost function LineAt(s: Slot): Line
    requires s.Shows? ==> FieldChanged(s.field.kind)
    reads if s.Shows? then {s.field} else {}
  {
    if s.Fixed? then s.line else LineOf(s.field.View(), s.indent)
  }

  /** The report as it reads now. */
  ghost function Lines(slots: seq<Slot>): (lines: seq<Line>)
    requires Printable(slots)
    reads Shown(slots)
    ensures |lines| == |slots|
    ensures forall i :: 0 <= i < |slots| ==> lines[i] == LineAt(slots[i])
  {
    seq(|slots|, i requires 0 <= i < |slots| reads Shown(slots) => LineAt(slots[i]))
  }

  // ---- The layout of the report ----

  ghost function FieldSlots(fields: seq<Option<FieldDiff>>, indent: nat): (r: seq<Slot>)
    ensures Printable(r)
  {
    if fields == [] then []
    else FieldSlots(fields[..|fields| - 1], indent) + FieldSlot(fields[|fields| - 1], indent)
  }

  ghost function FieldSlot(f: Option<FieldDiff>, indent: nat): (r: seq<Slot>)
    ensures Printable(r)
  {
    if f.Some? && FieldChanged(f.value.kind) then [Shows(indent, f.value)] else []
  }

  ghost function ObjectSlots(objs: seq<ObjectDiff<FieldDiff>>, indent: nat, depth: nat): (r: seq<Slot>)
    ensures Printable(r)
    decreases objs
  {
    if depth > MAX_DEPTH then [Fixed(TruncatedLine(indent))]
    else if objs == [] then []
    else ObjectSlots(objs[..|objs| - 1], indent, depth) + ObjectSlot(objs[|objs| - 1], indent, depth)
  }

  ghost function ObjectSlot(o: ObjectDiff<FieldDiff>, indent: nat, depth: nat): (r: seq<Slot>)
    ensures Printable(r)
    decreases o
  {
    if o.NilObject? then []
    else [Fixed(OpenLine(indent, DiffSymbol(o.kind), o.name))] + FieldSlots(o.fields, indent + 1)
         + ObjectSlots(o.objects, indent + 1, depth + 1) + [Fixed(CloseLine(indent))]
  }

  ghost function TaskSlot(t: Option<TaskDiff<FieldDiff>>, indent: nat): (r: seq<Slot>)
    ensures Printable(r)
  {
    if t.None? then []
    else [Fixed(TaskLine(indent, DiffSymbol(t.value.kind), t.value.name, t.value.annotations))]
         + FieldSlots(t.value.fields, indent + 1) + ObjectSlots(t.value.objects, indent + 1, 1)
  }

  ghost function TaskSlots(tasks: seq<Option<TaskDiff<FieldDiff>>>, indent: nat): (r: seq<Slot>)
    ensures Printable(r)
  {
    if tasks == [] then []
    else TaskSlots(tasks[..|tasks| - 1], indent) + TaskSlot(tasks[|tasks| - 1], indent)
  }

  ghost function GroupSlot(g: Option<GroupDiff<FieldDiff>>, indent: nat): (r: seq<Slot>)
    ensures Printable(r)
  {
    if g.None? then []
    else [Fixed(GroupLine(indent, DiffSymbol(g.value.kind), g.value.name, CountParts(g.value.updates)))]
         + FieldSlots(g.value.fields, indent + 1) + ObjectSlots(g.value.objects, indent + 1, 1)
         + TaskSlots(g.value.tasks, indent + 1)
  }

  ghost function GroupSlots(groups: seq<Option<GroupDiff<FieldDiff>>>, indent: nat): (r: seq<Slot>)
    ensures Printable(r)
  {
    if groups == [] then []
    else GroupSlots(groups[..|groups| - 1], indent) + GroupSlot(groups[|groups| - 1], indent)
  }

  ghost function JobSlots(d: JobDiff<FieldDiff>, file: string): (r: seq<Slot>)
    ensures Printable(r)
  {
    [Fixed(JobLine(DiffSymbol(d.kind), d.id, file))] + FieldSlots(d.fields, 1) + ObjectSlots(d.objects, 1, 1)
    + GroupSlots(d.groups, 1)
  }

  // ---- The walk that prints ----

  // The renderer follows every pointer it meets, so none may be nil.
  ghost predicate Solid(objs: seq<ObjectDiff<FieldDiff>>)
    decreases objs
  {
    forall i :: 0 <= i < |objs| ==>
      objs[i].ObjectDiff? && (forall f :: f in objs[i].fields ==> f.Some?) && Solid(objs[i].objects)
  }

  ghost predicate SolidTask(t: Option<TaskDiff<FieldDiff>>) {
    t.Some? && (forall f :: f in t.value.fields ==> f.Some?) && Solid(t.value.objects)
  }

  ghost predicate SolidGroup(g: Option<GroupDiff<FieldDiff>>) {
    g.Some? && (forall f :: f in g.value.fields ==> f.Some?) && Solid(g.value.objects)
    && forall t :: t in g.value.tasks ==> SolidTask(t)
  }

  ghost predicate SolidJob(d: JobDiff<FieldDiff>) {
    (forall f :: f in d.fields ==> f.Some?) && Solid(d.objects) && forall g :: g in d.groups ==> SolidGroup(g)
  }

  lemma Extends(printed: seq<Line>, a: seq<Slot>, b: seq<Slot>)
    requires Printable(a) && Printable(b)
    ensures Printable(a + b) && printed + Lines(a) + Lines(b) == printed + Lines(a + b)
  {
    assert Lines(a + b) == Lines(a) + Lines(b);
  }

  lemma Nothing(printed: seq<Line>)
    ensures Printable([]) && printed + Lines([]) == printed
  {
  }

  lemma FieldComesNext(fields: seq<Option<FieldDiff>>, i: nat, indent: nat)
    requires i < |fields|
    ensures FieldSlots(fields[..i + 1], indent) == FieldSlots(fields[..i], indent) + FieldSlot(fields[i], indent)
  {
    assert fields[..i + 1][..i] == fields[..i];
  }

  lemma ObjectComesNext(objs: seq<ObjectDiff<FieldDiff>>, i: nat, indent: nat, depth: nat)
    requires i < |objs| && depth <= MAX_DEPTH
    ensures ObjectSlots(objs[..i + 1], indent, depth) == ObjectSlots(objs[..i], indent, depth) + ObjectSlot(objs[i], indent, depth)
  {
    assert objs[..i + 1][..i] == objs[..i];
  }

  lemma TaskComesNext(tasks: seq<Option<TaskDiff<FieldDiff>>>, i: nat, indent: nat)
    requires i < |tasks|
    ensures TaskSlots(tasks[..i + 1], indent) == TaskSlots(tasks[..i], indent) + TaskSlot(tasks[i], indent)
  {
    assert tasks[..i + 1][..i] == tasks[..i];
  }

  lemma GroupComesNext(groups: seq<Option<GroupDiff<FieldDiff>>>, i: nat, indent: nat)
    requires i < |groups|
    ensures GroupSlots(groups[..i + 1], indent) == GroupSlots(groups[..i], indent) + GroupSlot(groups[i], indent)
  {
    assert groups[..i + 1][..i] == groups[..i];
  }

  lemma Empties(objs: seq<ObjectDiff<FieldDiff>>, indent: nat, depth: nat)
    ensures FieldSlots([], indent) == [] && TaskSlots([], indent) == [] && GroupSlots([], indent) == []
    ensures depth <= MAX_DEPTH ==> ObjectSlots([], indent, depth) == []
    ensures depth > MAX_DEPTH ==> ObjectSlots(objs, indent, depth) == [Fixed(TruncatedLine(indent))]
  {
  }

  /** What a node prints, piece by piece. */
  lemma NodeSlots(o: ObjectDiff<FieldDiff>, indent: nat, depth: nat)
    requires o.ObjectDiff?
    ensures ObjectSlot(o, indent, depth)
            == [Fixed(OpenLine(indent, DiffSymbol(o.kind), o.name))] + FieldSlots(o.fields, indent + 1)
               + ObjectSlots(o.objects, indent + 1, depth + 1) + [Fixed(CloseLine(indent))]
  {
  }

  lemma TaskPieces(t: TaskDiff<FieldDiff>, indent: nat)
    ensures TaskSlot(Some(t), indent)
            == [Fixed(TaskLine(indent, DiffSymbol(t.kind), t.name, t.annotations))]
               + FieldSlots(t.fields, indent + 1) + ObjectSlots(t.objects, indent + 1, 1)
  {
  }

  lemma GroupPieces(g: GroupDiff<FieldDiff>, indent: nat)
    ensures GroupSlot(Some(g), indent)
            == [Fixed(GroupLine(indent, DiffSymbol(g.kind), g.name, CountParts(g.updates)))] + FieldSlots(g.fields, indent + 1)
               + ObjectSlots(g.objects, indent + 1, 1) + TaskSlots(g.tasks, indent + 1)
  {
  }

  lemma JobPieces(d: JobDiff<FieldDiff>, file: string)
    ensures JobSlots(d, file)
            == [Fixed(JobLine(DiffSymbol(d.kind), d.id, file))] + FieldSlots(d.fields, 1) + ObjectSlots(d.objects, 1, 1)
               + GroupSlots(d.groups, 1)
  {
  }

  lemma SolidParts(t: TaskDiff<FieldDiff>)
    requires SolidTask(Some(t))
    ensures (forall f :: f in t.fields ==> f.Some?) && Solid(t.objects)
  {
  }

  lemma SolidGroupParts(g: GroupDiff<FieldDiff>)
    requires SolidGroup(Some(g))
    ensures (forall f :: f in g.fields ==> f.Some?) && Solid(g.objects) && forall t :: t in g.tasks ==> SolidTask(t)
  {
  }

  lemma SolidJobParts(d: JobDiff<FieldDiff>)
    requires SolidJob(d)
    ensures (forall f :: f in d.fields ==> f.Some?) && Solid(d.objects) && forall g :: g in d.groups ==> SolidGroup(g)
  {
  }

  lemma SolidIsThere(t: Option<TaskDiff<FieldDiff>>, g: Option<GroupDiff<FieldDiff>>)
    ensures SolidTask(t) ==> t.Some? && t == Some(t.value)
    ensures SolidGroup(g) ==> g.Some? && g == Some(g.value)
  {
  }

  class Builder {
    var lines: seq<Line>

    constructor ()
      ensures lines == []
    {
      lines := [];
    }

    method Print(line: Line)
      modifies this
      ensures lines == old(lines) + Lines([Fixed(line)])
    {
      lines := lines + [line];
    }

    method RenderField(f: FieldDiff, indent: nat)
      modifies this
      ensures lines == old(lines) + Lines(FieldSlot(Some(f), indent))
    {
      if f.kind == "Added" {
        lines := lines + [FieldLine(indent, '+', f.name, [f.newValue], f.annotations)];
      } else if f.kind == "Deleted" {
        lines := lines + [FieldLine(indent, '-', f.name, [f.oldValue], f.annotations)];
      } else if f.kind == "Edited" {
        lines := lines + [FieldLine(indent, '~', f.name, [f.oldValue, f.newValue], f.annotations)];
      }
    }

    method RenderFields(fields: seq<Option<FieldDiff>>, indent: nat)
      requires forall f :: f in fields ==> f.Some?
      modifies this
      ensures lines == old(lines) + Lines(FieldSlots(fields, indent))
    {
      hide *;
      ghost var printed := lines;
      Empties([], indent, 0);
      Nothing(printed);
      for i := 0 to |fields|
        invariant lines == printed + Lines(FieldSlots(fields[..i], indent))
      {
        FieldComesNext(fields, i, indent);
        assert fields[i] == Some(fields[i].value);
        ghost var sofar := Lines(FieldSlots(fields[..i], indent));
        RenderField(fields[i].value, indent);
        assert Lines(FieldSlots(fields[..i], indent)) == sofar;
        Extends(printed, FieldSlots(fields[..i], indent), FieldSlot(fields[i], indent));
      }
      assert fields[..|fields|] == fields;
    }

    method RenderObjects(objs: seq<ObjectDiff<FieldDiff>>, indent: nat, depth: nat)
      requires Solid(objs)
      modifies this
      ensures lines == old(lines) + Lines(ObjectSlots(objs, indent, depth))
      decreases objs, 0
    {
      hide Lines;
      hide LineAt;
      hide ObjectSlots;
      hide ObjectSlot;
      ghost var printed := lines;
      Empties(objs, indent, depth);
      if depth > MAX_DEPTH {
        Print(TruncatedLine(indent));
        return;
      }
      Nothing(printed);
      for i := 0 to |objs|
        invariant lines == printed + Lines(ObjectSlots(objs[..i], indent, depth))
      {
        ObjectComesNext(objs, i, indent, depth);
        ghost var sofar := Lines(ObjectSlots(objs[..i], indent, depth));
        RenderObject(objs[i], indent, depth);
        assert Lines(ObjectSlots(objs[..i], indent, depth)) == sofar;
        Extends(printed, ObjectSlots(objs[..i], indent, depth), ObjectSlot(objs[i], indent, depth));
      }
      assert objs[..|objs|] == objs;
    }

    method RenderObject(o: ObjectDiff<FieldDiff>, indent: nat, depth: nat)
      requires o.ObjectDiff? && (forall f :: f in o.fields ==> f.Some?) && Solid(o.objects)
      modifies this
      ensures lines == old(lines) + Lines(ObjectSlot(o, indent, depth))
      decreases o, 1
    {
      hide *;
      ghost var printed := lines;
      ghost var a, b := [Fixed(OpenLine(indent, DiffSymbol(o.kind), o.name))], FieldSlots(o.fields, indent + 1);
      ghost var c, d := ObjectSlots(o.objects, indent + 1, depth + 1), [Fixed(CloseLine(indent))];
      Print(OpenLine(indent, DiffSymbol(o.kind), o.name));
      RenderFields(o.fields, indent + 1);
      Extends(printed, a, b);
      assert lines == printed + Lines(a + b);
      RenderObjects(o.objects, indent + 1, depth + 1);
      Extends(printed, a + b, c);
      assert lines == printed + Lines(a + b + c);
      Print(CloseLine(indent));
      Extends(printed, a + b + c, d);
      assert lines == printed + Lines(a + b + c + d);
      NodeSlots(o, indent, depth);
    }

    method RenderTask(t: TaskDiff<FieldDiff>, indent: nat)
      requires SolidTask(Some(t))
      modifies this
      ensures lines == old(lines) + Lines(TaskSlot(Some(t), indent))
    {
      hide *;
      SolidParts(t);
      ghost var printed := lines;
      ghost var a := [Fixed(TaskLine(indent, DiffSymbol(t.kind), t.name, t.annotations))];
      ghost var b, c := FieldSlots(t.fields, indent + 1), ObjectSlots(t.objects, indent + 1, 1);
      Print(TaskLine(indent, DiffSymbol(t.kind), t.name, t.annotations));
      RenderFields(t.fields, indent + 1);
      Extends(printed, a, b);
      assert lines == printed + Lines(a + b);
      RenderObjects(t.objects, indent + 1, 1);
      Extends(printed, a + b, c);
      assert lines == printed + Lines(a + b + c);
      TaskPieces(t, indent);
    }

    method RenderTasks(tasks: seq<Option<TaskDiff<FieldDiff>>>, indent: nat)
      requires forall t :: t in tasks ==> SolidTask(t)
      modifies this
      ensures lines == old(lines) + Lines(TaskSlots(tasks, indent))
    {
      hide *;
      ghost var printed := lines;
      Empties([], indent, 0);
      Nothing(printed);
      for i := 0 to |tasks|
        invariant lines == printed + Lines(TaskSlots(tasks[..i], indent))
      {
        TaskComesNext(tasks, i, indent);
        SolidIsThere(tasks[i], None);
        ghost var sofar := Lines(TaskSlots(tasks[..i], indent));
        RenderTask(tasks[i].value, indent);
        assert Lines(TaskSlots(tasks[..i], indent)) == sofar;
        Extends(printed, TaskSlots(tasks[..i], indent), TaskSlot(tasks[i], indent));
      }
      assert tasks[..|tasks|] == tasks;
    }

    method RenderGroup(g: GroupDiff<FieldDiff>, indent: nat)
      requires SolidGroup(Some(g))
      modifies this
      ensures lines == old(lines) + Lines(GroupSlot(Some(g), indent))
    {
      hide *;
      SolidGroupParts(g);
      ghost var printed := lines;
      ghost var a := [Fixed(GroupLine(indent, DiffSymbol(g.kind), g.name, CountParts(g.updates)))];
      ghost var b := FieldSlots(g.fields, indent + 1);
      ghost var c, d := ObjectSlots(g.objects, indent + 1, 1), TaskSlots(g.tasks, indent + 1);
      var counts := CollectParts(g.updates);
      Print(GroupLine(indent, DiffSymbol(g.kind), g.name, counts));
      RenderFields(g.fields, indent + 1);
      Extends(printed, a, b);
      assert lines == printed + Lines(a + b);
      RenderObjects(g.objects, indent + 1, 1);
      Extends(printed, a + b, c);
      assert lines == printed + Lines(a + b + c);
      RenderTasks(g.tasks, indent + 1);
      Extends(printed, a + b + c, d);
      assert lines == printed + Lines(a + b + c + d);
      GroupPieces(g, indent);
    }

    method RenderGroups(groups: seq<Option<GroupDiff<FieldDiff>>>, indent: nat)
      requires forall g :: g in groups ==> SolidGroup(g)
      modifies this
      ensures lines == old(lines) + Lines(GroupSlots(groups, indent))
    {
      hide *;
      ghost var printed := lines;
      Empties([], indent, 0);
      Nothing(printed);
      for i := 0 to |groups|
        invariant lines == printed + Lines(GroupSlots(groups[..i], indent))
      {
        GroupComesNext(groups, i, indent);
        SolidIsThere(None, groups[i]);
        ghost var sofar := Lines(GroupSlots(groups[..i], indent));
        RenderGroup(groups[i].value, indent);
        assert Lines(GroupSlots(groups[..i], indent)) == sofar;
        Extends(printed, GroupSlots(groups[..i], indent), GroupSlot(groups[i], indent));
      }
      assert groups[..|groups|] == groups;
    }

    /** Appends the report of a diff. */
    method RenderJobDiff(d: JobDiff<FieldDiff>, file: string)
      requires SolidJob(d)
      modifies this
      ensures lines == old(lines) + Lines(JobSlots(d, file))
    {
      hide *;
      SolidJobParts(d);
      ghost var printed := lines;
      ghost var a, b := [Fixed(JobLine(DiffSymbol(d.kind), d.id, file))], FieldSlots(d.fields, 1);
      ghost var c, e := ObjectSlots(d.objects, 1, 1), GroupSlots(d.groups, 1);
      Print(JobLine(DiffSymbol(d.kind), d.id, file));
      RenderFields(d.fields, 1);
      Extends(printed, a, b);
      assert lines == printed + Lines(a + b);
      RenderObjects(d.objects, 1, 1);
      Extends(printed, a + b, c);
      assert lines == printed + Lines(a + b + c);
      RenderGroups(d.groups, 1);
      Extends(printed, a + b + c, e);
      assert lines == printed + Lines(a + b + c + e);
      JobPieces(d, file);
    }
  }

  // ---- What the report shows ----

  /** The fields shown are those the redaction walk visits, exactly as far as they changed. */
  ghost predicate ShowsChanged(slots: seq<Slot>, fs: seq<FieldDiff>) {
    (forall s :: s in slots ==> if s.Shows? then s.field in fs else !s.line.FieldLine?)
    && forall f :: f in fs && FieldChanged(f.kind) ==> exists s :: s in slots && s.Shows? && s.field == f
  }

  lemma ShownConcat(a: seq<Slot>, b: seq<Slot>, fs: seq<FieldDiff>, gs: seq<FieldDiff>)
    requires ShowsChanged(a, fs) && ShowsChanged(b, gs)
    ensures ShowsChanged(a + b, fs + gs)
  {
    forall f | f in fs + gs && FieldChanged(f.kind) ensures exists s :: s in a + b && s.Shows? && s.field == f {
      if f in fs {
        var s :| s in a && s.Shows? && s.field == f;
        assert s in a + b;
      } else {
        var s :| s in b && s.Shows? && s.field == f;
        assert s in a + b;
      }
    }
  }

  /** A fixed line that is not a field's, in front or behind. */
  lemma ShownFramed(line: Line, slots: seq<Slot>, fs: seq<FieldDiff>)
    requires ShowsChanged(slots, fs) && !line.FieldLine?
    ensures ShowsChanged([Fixed(line)] + slots, fs) && ShowsChanged(slots + [Fixed(line)], fs)
  {
    assert ShowsChanged([Fixed(line)], []);
    ShownConcat([Fixed(line)], slots, [], fs);
    ShownConcat(slots, [Fixed(line)], fs, []);
    assert [] + fs == fs == fs + [];
  }

  lemma FieldShown(f: Option<FieldDiff>, indent: nat)
    ensures ShowsChanged(FieldSlot(f, indent), if f.Some? then [f.value] else [])
  {
    if f.Some? && FieldChanged(f.value.kind) {
      assert Shows(indent, f.value) in FieldSlot(f, indent);
    }
  }

  lemma {:induction false} FieldsShown(fields: seq<Option<FieldDiff>>, indent: nat)
    ensures ShowsChanged(FieldSlots(fields, indent), FieldsOf(fields))
  {
    if fields != [] {
      var front, last := fields[..|fields| - 1], fields[|fields| - 1];
      FieldsShown(front, indent);
      FieldShown(last, indent);
      hide ShowsChanged;
      ShownConcat(FieldSlots(front, indent), FieldSlot(last, indent), FieldsOf(front), if last.Some? then [last.value] else []);
    }
  }

  lemma {:induction false} ObjectsShown(objs: seq<ObjectDiff<FieldDiff>>, indent: nat, depth: nat)
    ensures ShowsChanged(ObjectSlots(objs, indent, depth), Covered(objs, depth))
    decreases objs
  {
    if depth <= MAX_DEPTH && objs != [] {
      var front, last := objs[..|objs| - 1], objs[|objs| - 1];
      ObjectsShown(front, indent, depth);
      ObjectShown(last, indent, depth);
      hide ShowsChanged;
      ShownConcat(ObjectSlots(front, indent, depth), ObjectSlot(last, indent, depth), Covered(front, depth), CoveredBy(last, depth));
    }
  }

  lemma {:induction false} ObjectShown(o: ObjectDiff<FieldDiff>, indent: nat, depth: nat)
    ensures ShowsChanged(ObjectSlot(o, indent, depth), CoveredBy(o, depth))
    decreases o
  {
    if o.ObjectDiff? {
      FieldsShown(o.fields, indent + 1);
      ObjectsShown(o.objects, indent + 1, depth + 1);
      hide ShowsChanged;
      var fields, objects := FieldSlots(o.fields, indent + 1), ObjectSlots(o.objects, indent + 1, depth + 1);
      var open := OpenLine(indent, DiffSymbol(o.kind), o.name);
      ShownFramed(open, fields, FieldsOf(o.fields));
      ShownConcat([Fixed(open)] + fields, objects, FieldsOf(o.fields), Covered(o.objects, depth + 1));
      ShownFramed(CloseLine(indent), [Fixed(open)] + fields + objects, CoveredBy(o, depth));
    }
  }

  /** The fields and objects of a job, a group or a task, after its own line. */
  lemma BodyShown(line: Line, fields: seq<Option<FieldDiff>>, objs: seq<ObjectDiff<FieldDiff>>, indent: nat)
    requires !line.FieldLine?
    ensures ShowsChanged([Fixed(line)] + FieldSlots(fields, indent) + ObjectSlots(objs, indent, 1),
                         FieldsOf(fields) + Covered(objs, 1))
  {
    FieldsShown(fields, indent);
    ObjectsShown(objs, indent, 1);
    hide *;
    ShownFramed(line, FieldSlots(fields, indent), FieldsOf(fields));
    ShownConcat([Fixed(line)] + FieldSlots(fields, indent), ObjectSlots(objs, indent, 1), FieldsOf(fields), Covered(objs, 1));
  }

  lemma TaskShown(t: Option<TaskDiff<FieldDiff>>, indent: nat)
    ensures ShowsChanged(TaskSlot(t, indent), CoveredTask(t))
  {
    if t.Some? {
      BodyShown(TaskLine(indent, DiffSymbol(t.value.kind), t.value.name, t.value.annotations), t.value.fields, t.value.objects,
                indent + 1);
      hide ShowsChanged;
    }
  }

  lemma {:induction false} TasksShown(tasks: seq<Option<TaskDiff<FieldDiff>>>, indent: nat)
    ensures ShowsChanged(TaskSlots(tasks, indent), CoveredTasks(tasks))
  {
    if tasks != [] {
      var front, last := tasks[..|tasks| - 1], tasks[|tasks| - 1];
      TasksShown(front, indent);
      TaskShown(last, indent);
      hide ShowsChanged;
      ShownConcat(TaskSlots(front, indent), TaskSlot(last, indent), CoveredTasks(front), CoveredTask(last));
    }
  }

  lemma GroupShown(g: Option<GroupDiff<FieldDiff>>, indent: nat)
    ensures ShowsChanged(GroupSlot(g, indent), CoveredGroup(g))
  {
    if g.Some? {
      var line := GroupLine(indent, DiffSymbol(g.value.kind), g.value.name, CountParts(g.value.updates));
      BodyShown(line, g.value.fields, g.value.objects, indent + 1);
      TasksShown(g.value.tasks, indent + 1);
      hide ShowsChanged;
      ShownConcat([Fixed(line)] + FieldSlots(g.value.fields, indent + 1) + ObjectSlots(g.value.objects, indent + 1, 1),
                  TaskSlots(g.value.tasks, indent + 1), FieldsOf(g.value.fields) + Covered(g.value.objects, 1),
                  CoveredTasks(g.value.tasks));
    }
  }

  lemma {:induction false} GroupsShown(groups: seq<Option<GroupDiff<FieldDiff>>>, indent: nat)
    ensures ShowsChanged(GroupSlots(groups, indent), CoveredGroups(groups))
  {
    if groups != [] {
      var front, last := groups[..|groups| - 1], groups[|groups| - 1];
      GroupsShown(front, indent);
      GroupShown(last, indent);
      hide ShowsChanged;
      ShownConcat(GroupSlots(front, indent), GroupSlot(last, indent), CoveredGroups(front), CoveredGroup(last));
    }
  }

  /** The report shows of all the fields redaction visits exactly those that changed. */
  lemma JobShown(d: JobDiff<FieldDiff>, file: string)
    ensures ShowsChanged(JobSlots(d, file), CoveredJob(d))
  {
    var line := JobLine(DiffSymbol(d.kind), d.id, file);
    BodyShown(line, d.fields, d.objects, 1);
    GroupsShown(d.groups, 1);
    hide ShowsChanged;
    ShownConcat([Fixed(line)] + FieldSlots(d.fields, 1) + ObjectSlots(d.objects, 1, 1), GroupSlots(d.groups, 1),
                FieldsOf(d.fields) + Covered(d.objects, 1), CoveredGroups(d.groups));
  }

  /** What a line says of a changed field: the kind of the change, the old value unless it was added, the new
      one unless it was deleted. */
  lemma LineSays(f: Field, indent: nat)
    requires f.kind in {"Added", "Deleted", "Edited"}
    ensures var line := LineOf(f, indent);
            line.FieldLine? && line.indent == indent && line.name == f.name && line.annotations == f.annotations
            && line.sign == (match DiffSymbol(f.kind) case "+" => '+' case "-" => '-' case _ => '~')
            && line.shown == (if DiffSymbol(f.kind) == "+" then [] else [f.oldValue])
                             + (if DiffSymbol(f.kind) == "-" then [] else [f.newValue])
    ensures DiffSymbol("Added") == "+" && DiffSymbol("Deleted") == "-" && DiffSymbol("Edited") == "+/-"
    ensures forall kind :: DiffSymbol(kind) == "?" <==> kind !in {"Added", "Deleted", "Edited"}
  {
  }

  /** The line of a redacted field. */
  lemma RedactedLine(f: Field, indent: nat)
    requires FieldChanged(f.kind)
    ensures var line := LineOf(RedactedField(f), indent);
            line.FieldLine? && line.indent == indent && line.name == f.name
            && (IsSensitiveFieldName(f.name) ==> forall s :: s in line.shown ==> s == "" || s == REDACTED)
            && (!IsSensitiveFieldName(f.name) ==> line == LineOf(f, indent))
  {
    hide IsSensitiveFieldName;
  }

  /** A field line prints a field the redaction walk visited. */
  lemma LineSource(d: JobDiff<FieldDiff>, file: string, line: Line) returns (k: nat, indent: nat)
    requires line in Lines(JobSlots(d, file)) && line.FieldLine?
    ensures k < |CoveredJob(d)| && FieldChanged(CoveredJob(d)[k].kind)
    ensures line == LineOf(Vals(CoveredJob(d))[k], indent)
  {
    hide CoveredJob;
    hide JobSlots;
    hide LineOf;
    var slots, fs := JobSlots(d, file), CoveredJob(d);
    var i :| 0 <= i < |slots| && Lines(slots)[i] == line;
    JobShown(d, file);
    assert slots[i] in slots;
    hide FieldChanged;
    k :| 0 <= k < |fs| && fs[k] == slots[i].field;
    indent := slots[i].indent;
  }

  /** Everything rendered was redacted: once redaction has run, a field line of the report shows, for
      a sensitive name, nothing but empty and withheld values, and for any other name exactly what
      the plan said. Neither the depth of the tree nor its size matters. */
  lemma RenderedWasRedacted(d: JobDiff<FieldDiff>, file: string, was: seq<Field>, line: Line)
    requires Vals(CoveredJob(d)) == RedactedFields(was)
    requires line in Lines(JobSlots(d, file)) && line.FieldLine?
    ensures IsSensitiveFieldName(line.name) ==> forall s :: s in line.shown ==> s == "" || s == REDACTED
    ensures !IsSensitiveFieldName(line.name) ==>
              exists f :: f in was && f.name == line.name && FieldChanged(f.kind) && line == LineOf(f, line.indent)
  {
    var k, indent := LineSource(d, file, line);
    hide *;
    var f := was[k];
    assert Vals(CoveredJob(d))[k] == RedactedField(f);
    RedactedLine(f, indent);
    assert f in was;
  }

  /** And nothing that changed is left out: every changed field the walk visited has its line, which for a name that
      is not sensitive says exactly what the plan said. */
  lemma ChangedIsRendered(d: JobDiff<FieldDiff>, file: string, was: seq<Field>, k: nat)
    requires Vals(CoveredJob(d)) == RedactedFields(was)
    requires k < |was| && was[k].kind in {"Added", "Deleted", "Edited"}
    ensures exists line :: line in Lines(JobSlots(d, file)) && line.FieldLine? && line.name == was[k].name
                           && (!IsSensitiveFieldName(was[k].name) ==> line == LineOf(was[k], line.indent))
  {
    var slots, fs := JobSlots(d, file), CoveredJob(d);
    JobShown(d, file);
    assert Vals(fs)[k] == RedactedField(was[k]) && fs[k] in fs && FieldChanged(fs[k].kind);
    var s :| s in slots && s.Shows? && s.field == fs[k];
    var i :| 0 <= i < |slots| && slots[i] == s;
    RedactedLine(was[k], s.indent);
    hide *;
    assert Lines(slots)[i] in Lines(slots);
    assert Lines(slots)[i] == LineAt(slots[i]);
    ShowsAt(slots[i]);
  }

  lemma ShowsAt(s: Slot)
    requires s.Shows? && FieldChanged(s.field.kind)
    ensures LineAt(s) == LineOf(s.field.View(), s.indent)
  {
  }
}
