/** Redaction of a plan diff in place. The nodes of the tree are values, only its fields are objects:
    redaction writes to nothing else. */
module Redaction {
  import opened Wrappers
  import opened Text
  import opened PlanDiffs

  const REDACTED := "[REDACTED]"
  const REDACTED_NOTE := "value redacted"

  const SECRET_WORDS: seq<string> := ["secret", "password", "passwd", "token", "credential",
                                      "api_key", "apikey", "private_key", "access_key"]

  predicate IsSensitiveFieldName(name: string) {
    var n := ToLower(name);
    HasPrefix(n, "env[") || n == "embeddedtmpl" || exists i :: 0 <= i < |SECRET_WORDS| && Contains(n, SECRET_WORDS[i])
  }

  /** Sensitive are environment variables, template bodies and whatever has one of the words anywhere in
      its name, in upper or lower case. */
  lemma SensitiveExactly(name: string)
    ensures IsSensitiveFieldName(name)
            <==> WordAt(name, 0, "env[") || (|name| == 12 && WordAt(name, 0, "embeddedtmpl"))
                 || exists at, w :: WordAt(name, at, w)
                                    && w in {"secret", "password", "passwd", "token", "credential", "api_key", "apikey",
                                             "private_key", "access_key"}
  {
    LowerWordAt(name, 0, "env[");
    LowerWordAt(name, 0, "embeddedtmpl");
    hide WordAt;
    hide ToLower;
    hide Contains;
    forall i | 0 <= i < |SECRET_WORDS|
      ensures Contains(ToLower(name), SECRET_WORDS[i]) <==> exists at :: WordAt(name, at, SECRET_WORDS[i])
    {
      assert IsPlain(SECRET_WORDS[i]);
      LowerContains(name, SECRET_WORDS[i]);
    }
    if at, w :| WordAt(name, at, w) && w in {"secret", "password", "passwd", "token", "credential", "api_key", "apikey",
                                             "private_key", "access_key"} {
      assert w in SECRET_WORDS by {
        assert SECRET_WORDS[0] == "secret" && SECRET_WORDS[1] == "password" && SECRET_WORDS[2] == "passwd"
               && SECRET_WORDS[3] == "token" && SECRET_WORDS[4] == "credential" && SECRET_WORDS[5] == "api_key"
               && SECRET_WORDS[6] == "apikey" && SECRET_WORDS[7] == "private_key" && SECRET_WORDS[8] == "access_key";
      }
    }
  }

  class FieldDiff {
    const kind: string
    const name: string
    var oldValue: string
    var newValue: string
    var annotations: seq<string>

    function View(): Field
      reads this
    {
      Field(kind, name, oldValue, newValue, annotations)
    }

    constructor (f: Field)
      ensures View() == f
    {
      kind, name, oldValue, newValue, annotations := f.kind, f.name, f.oldValue, f.newValue, f.annotations;
    }
  }

  predicate NeedsRedaction(f: Field) {
    IsSensitiveFieldName(f.name) && !(f.oldValue == "" && f.newValue == "")
  }

  function Masked(value: string): string {
    if value == "" then "" else REDACTED
  }

  function RedactedField(f: Field): Field {
    if NeedsRedaction(f)
    then f.(oldValue := Masked(f.oldValue), newValue := Masked(f.newValue), annotations := f.annotations + [REDACTED_NOTE])
    else f
  }

  /** Of a field with a sensitive name every value there is is withheld, and a note says so when there was one;
      all else, and every other field, is as it was. */
  lemma RedactedExactly(f: Field)
    ensures var r := RedactedField(f);
            r == f.(oldValue := r.oldValue, newValue := r.newValue, annotations := r.annotations)
            && if IsSensitiveFieldName(f.name) && (f.oldValue != "" || f.newValue != "") then
                 r.oldValue == (if f.oldValue == "" then "" else "[REDACTED]")
                 && r.newValue == (if f.newValue == "" then "" else "[REDACTED]")
                 && r.annotations == f.annotations + ["value redacted"]
               else r == f
  {
    hide IsSensitiveFieldName;
  }

  // ---- The fields a walk visits ----

  function FieldsOf(fields: seq<Option<FieldDiff>>): seq<FieldDiff> {
    if fields == [] then []
    else FieldsOf(fields[..|fields| - 1])
         + if fields[|fields| - 1].Some? then [fields[|fields| - 1].value] else []
  }

  /** Fields of the objects down to the capped depth. */
  function Covered(objs: seq<ObjectDiff<FieldDiff>>, depth: nat): seq<FieldDiff>
    decreases objs
  {
    if objs == [] || depth > MAX_DEPTH then []
    else Covered(objs[..|objs| - 1], depth) + CoveredBy(objs[|objs| - 1], depth)
  }

  function CoveredBy(o: ObjectDiff<FieldDiff>, depth: nat): seq<FieldDiff>
    decreases o
  {
    if o.NilObject? then [] else FieldsOf(o.fields) + Covered(o.objects, depth + 1)
  }

  function CoveredTasks(tasks: seq<Option<TaskDiff<FieldDiff>>>): seq<FieldDiff> {
    if tasks == [] then []
    else CoveredTasks(tasks[..|tasks| - 1]) + CoveredTask(tasks[|tasks| - 1])
  }

  function CoveredTask(t: Option<TaskDiff<FieldDiff>>): seq<FieldDiff> {
    if t.None? then [] else FieldsOf(t.value.fields) + Covered(t.value.objects, 1)
  }

  function CoveredGroups(groups: seq<Option<GroupDiff<FieldDiff>>>): seq<FieldDiff> {
    if groups == [] then []
    else CoveredGroups(groups[..|groups| - 1]) + CoveredGroup(groups[|groups| - 1])
  }

  function CoveredGroup(g: Option<GroupDiff<FieldDiff>>): seq<FieldDiff> {
    if g.None? then []
    else FieldsOf(g.value.fields) + Covered(g.value.objects, 1) + CoveredTasks(g.value.tasks)
  }

  function CoveredJob(d: JobDiff<FieldDiff>): seq<FieldDiff> {
    FieldsOf(d.fields) + Covered(d.objects, 1) + CoveredGroups(d.groups)
  }

  // ---- The redacting walk ----

  ghost predicate Apart(fs: seq<FieldDiff>) {
    forall i, j :: 0 <= i < j < |fs| ==> fs[i] != fs[j]
  }

  ghost function Elems(fs: seq<FieldDiff>): set<FieldDiff> {
    set f | f in fs
  }

  ghost function Vals(fs: seq<FieldDiff>): (vals: seq<Field>)
    reads fs
    ensures |vals| == |fs|
    ensures forall i :: 0 <= i < |fs| ==> vals[i] == fs[i].View()
  {
    seq(|fs|, i requires 0 <= i < |fs| reads fs => fs[i].View())
  }

  /** What redaction makes of a list of fields. */
  function RedactedFields(vals: seq<Field>): (r: seq<Field>)
    ensures |r| == |vals|
    ensures forall i :: 0 <= i < |r| ==> r[i] == RedactedField(vals[i])
  {
    seq(|vals|, i requires 0 <= i < |vals| => RedactedField(vals[i]))
  }

  /** How many of the fields redaction changes. */
  function NeedCount(vals: seq<Field>): nat {
    if vals == [] then 0 else NeedCount(vals[..|vals| - 1]) + if NeedsRedaction(vals[|vals| - 1]) then 1 else 0
  }

  lemma {:induction false} NeedConcat(a: seq<Field>, b: seq<Field>)
    ensures NeedCount(a + b) == NeedCount(a) + NeedCount(b)
  {
    if b == [] {
      assert a + b == a;
    } else {
      assert (a + b)[..|a + b| - 1] == a + b[..|b| - 1];
      NeedConcat(a, b[..|b| - 1]);
    }
  }

  method RedactField(f: FieldDiff) returns (n: nat)
    modifies f
    ensures f.View() == RedactedField(old(f.View()))
    ensures n == if NeedsRedaction(old(f.View())) then 1 else 0
  {
    if !IsSensitiveFieldName(f.name) {
      return 0;
    }
    if f.oldValue == "" && f.newValue == "" {
      return 0;
    }
    if f.oldValue != "" {
      f.oldValue := REDACTED;
    }
    if f.newValue != "" {
      f.newValue := REDACTED;
    }
    f.annotations := f.annotations + [REDACTED_NOTE];
    return 1;
  }

  method RedactFields(fields: seq<Option<FieldDiff>>) returns (n: nat)
    requires Apart(FieldsOf(fields))
    modifies Elems(FieldsOf(fields))
    ensures Vals(FieldsOf(fields)) == RedactedFields(old(Vals(FieldsOf(fields))))
    ensures n == NeedCount(old(Vals(FieldsOf(fields))))
  {
    hide RedactedField;
    hide NeedsRedaction;
    hide FieldsOf;
    n := 0;
    NoFields();
    ghost var fs := FieldsOf(fields);
    ghost var was := Vals(fs);
    ghost var k := 0;
    for i := 0 to |fields|
      invariant k <= |fs| && fs[..k] == FieldsOf(fields[..i])
      invariant n == NeedCount(was[..k])
      invariant forall j :: 0 <= j < k ==> fs[j].View() == RedactedField(was[j])
      invariant forall j :: k <= j < |fs| ==> fs[j].View() == was[j]
    {
      NextField(fields, i);
      if fields[i].None? {
        continue;
      }
      assert fs[k] == FieldsOf(fields[..i + 1])[k] == fields[i].value;
      var m := RedactField(fields[i].value);
      n := n + m;
      assert was[..k + 1][..k] == was[..k];
      k := k + 1;
    }
    assert fields[..|fields|] == fields && was[..|fs|] == was;
  }

  lemma NoFields()
    ensures FieldsOf([]) == []
  {
  }

  lemma NextField(fields: seq<Option<FieldDiff>>, i: nat)
    requires i < |fields|
    ensures FieldsOf(fields[..i + 1]) == FieldsOf(fields[..i]) + if fields[i].Some? then [fields[i].value] else []
    ensures FieldsOf(fields[..i + 1]) <= FieldsOf(fields)
  {
    assert fields[..i + 1][..i] == fields[..i];
    FieldsPrefix(fields, i + 1);
  }

  lemma {:induction false} FieldsPrefix(fields: seq<Option<FieldDiff>>, i: nat)
    requires i <= |fields|
    ensures FieldsOf(fields[..i]) <= FieldsOf(fields)
  {
    if i == |fields| {
      assert fields[..i] == fields;
    } else {
      FieldsPrefix(fields[..|fields| - 1], i);
      assert fields[..|fields| - 1][..i] == fields[..i];
    }
  }

  /** The fields of a node, then its objects. */
  method RedactBody(fields: seq<Option<FieldDiff>>, objs: seq<ObjectDiff<FieldDiff>>, depth: nat) returns (n: nat)
    requires Apart(FieldsOf(fields) + Covered(objs, depth))
    modifies Elems(FieldsOf(fields)), Elems(Covered(objs, depth))
    ensures Vals(FieldsOf(fields)) == RedactedFields(old(Vals(FieldsOf(fields))))
    ensures Vals(Covered(objs, depth)) == RedactedFields(old(Vals(Covered(objs, depth))))
    ensures n == NeedCount(old(Vals(FieldsOf(fields)))) + NeedCount(old(Vals(Covered(objs, depth))))
    decreases objs, 2
  {
    ghost var a, b := FieldsOf(fields), Covered(objs, depth);
    ApartParts(a, b);
    n := RedactFields(fields);
    assert Vals(b) == old(Vals(b));
    ghost var doneA := Vals(a);
    var m := RedactObjects(objs, depth);
    assert Vals(a) == doneA;
    n := n + m;
  }

  /** The same, seen as one list. */
  method RedactNode(fields: seq<Option<FieldDiff>>, objs: seq<ObjectDiff<FieldDiff>>, depth: nat) returns (n: nat)
    requires Apart(FieldsOf(fields) + Covered(objs, depth))
    modifies Elems(FieldsOf(fields)), Elems(Covered(objs, depth))
    ensures Vals(FieldsOf(fields) + Covered(objs, depth)) == RedactedFields(old(Vals(FieldsOf(fields) + Covered(objs, depth))))
    ensures n == NeedCount(old(Vals(FieldsOf(fields) + Covered(objs, depth))))
    decreases objs, 3
  {
    ghost var a, b := FieldsOf(fields), Covered(objs, depth);
    ValsConcat(a, b);
    NeedConcat(Vals(a), Vals(b));
    n := RedactBody(fields, objs, depth);
    ValsConcat(a, b);
    RedactedConcat(old(Vals(a)), old(Vals(b)));
  }

  lemma ValsConcat(a: seq<FieldDiff>, b: seq<FieldDiff>)
    ensures Vals(a + b) == Vals(a) + Vals(b)
  {
  }

  lemma RedactedConcat(a: seq<Field>, b: seq<Field>)
    ensures RedactedFields(a + b) == RedactedFields(a) + RedactedFields(b)
  {
  }

  lemma ApartParts(a: seq<FieldDiff>, b: seq<FieldDiff>)
    requires Apart(a + b)
    ensures Apart(a) && Apart(b)
    ensures forall j :: 0 <= j < |a| ==> a[j] !in b
    ensures forall j :: 0 <= j < |b| ==> b[j] !in a
  {
    var c := a + b;
    assert forall i :: 0 <= i < |a| ==> c[i] == a[i];
    assert forall i :: 0 <= i < |b| ==> c[|a| + i] == b[i];
  }

  method RedactObjects(objs: seq<ObjectDiff<FieldDiff>>, depth: nat) returns (n: nat)
    requires Apart(Covered(objs, depth))
    modifies Elems(Covered(objs, depth))
    ensures Vals(Covered(objs, depth)) == RedactedFields(old(Vals(Covered(objs, depth))))
    ensures n == NeedCount(old(Vals(Covered(objs, depth))))
    decreases objs, 1
  {
    hide *;
    ghost var fs := Covered(objs, depth);
    ghost var was := Vals(fs);
    MidwayStart(fs, was);
    if depth > MAX_DEPTH {
      n := 0;
      TooDeep(objs, depth);
    } else {
      n := RedactLevel(objs, depth, fs, was);
    }
    MidwayDone(fs, was, n);
  }

  lemma TooDeep(objs: seq<ObjectDiff<FieldDiff>>, depth: nat)
    ensures depth > MAX_DEPTH ==> Covered(objs, depth) == []
    ensures Covered([], depth) == []
  {
  }

  /** The objects of one level, each with what is nested in it. */
  method RedactLevel(objs: seq<ObjectDiff<FieldDiff>>, depth: nat, ghost fs: seq<FieldDiff>, ghost was: seq<Field>)
      returns (n: nat)
    requires depth <= MAX_DEPTH && fs == Covered(objs, depth)
    requires Apart(fs) && Midway(fs, was, 0, 0)
    modifies Elems(fs)
    ensures Midway(fs, was, |fs|, n)
    decreases objs, 0
  {
    hide *;
    n := 0;
    TooDeep(objs, depth);
    for i := 0 to |objs|
      invariant Midway(fs, was, |Covered(objs[..i], depth)|, n)
    {
      NextCovered(objs, i, depth);
      NodeParts(objs[i], depth);
      ghost var done := Covered(objs[..i], depth);
      PartFollows(fs, done, CoveredBy(objs[i], depth));
      if objs[i].NilObject? {
        continue;
      }
      n := RedactPart(objs[i].fields, objs[i].objects, depth + 1, fs, was, |done|, n);
    }
    assert objs[..|objs|] == objs;
  }

  lemma PartFollows(fs: seq<FieldDiff>, done: seq<FieldDiff>, part: seq<FieldDiff>)
    requires done + part <= fs
    ensures fs[..|done|] + part <= fs
  {
    assert fs[..|done|] == (done + part)[..|done|] == done;
  }

  /** One node, seen from the whole list of fields it belongs to. */
  method RedactPart(fields: seq<Option<FieldDiff>>, objs: seq<ObjectDiff<FieldDiff>>, depth: nat,
                    ghost fs: seq<FieldDiff>, ghost was: seq<Field>, ghost k: nat, sofar: nat)
      returns (n: nat)
    requires Apart(fs) && Midway(fs, was, k, sofar)
    requires fs[..k] + (FieldsOf(fields) + Covered(objs, depth)) <= fs
    modifies Elems(fs)
    ensures Midway(fs, was, k + |FieldsOf(fields) + Covered(objs, depth)|, n)
    decreases objs, 4
  {
    hide *;
    ghost var a, b := FieldsOf(fields), Covered(objs, depth);
    ghost var before, after := PartOf(fs, was, k, sofar, a + b);
    PartFrame(fs, before, a, b, after);
    var m := RedactNode(fields, objs, depth);
    PartDone(fs, was, k, sofar, before, a + b, after, m);
    n := sofar + m;
  }

  /** The first `k` fields were redacted, `n` of them changed, the rest is as it was. */
  ghost predicate Midway(fs: seq<FieldDiff>, was: seq<Field>, k: nat, n: nat)
    reads fs
  {
    k <= |fs| == |was| && n == NeedCount(was[..k])
    && forall j :: 0 <= j < |fs| ==> fs[j].View() == if j < k then RedactedField(was[j]) else was[j]
  }

  /** The next part of a list of fields is as it was. */
  lemma PartOf(fs: seq<FieldDiff>, was: seq<Field>, k: nat, n: nat, part: seq<FieldDiff>)
      returns (before: seq<FieldDiff>, after: seq<FieldDiff>)
    requires Apart(fs) && Midway(fs, was, k, n) && fs[..k] + part <= fs
    ensures fs == before + part + after && k == |before| && |fs| == |was| && n == NeedCount(was[..k])
    ensures Vals(before) == RedactedFields(was[..k]) && Vals(part) == was[k..k + |part|]
    ensures Vals(after) == was[k + |part|..]
    ensures Apart(part)
  {
    hide RedactedField;
    hide NeedCount;
    before, after := fs[..k], fs[k + |part|..];
    assert fs == before + part + after == before + (part + after);
    ApartParts(before, part + after);
    ApartParts(part, after);
    forall j | 0 <= j < |part| ensures Vals(part)[j] == was[k + j] {
      assert part[j] == (before + part)[k + j] == fs[k + j];
    }
  }

  /** What redacting the part may write to, and what it leaves. */
  lemma PartFrame(fs: seq<FieldDiff>, before: seq<FieldDiff>, a: seq<FieldDiff>, b: seq<FieldDiff>, after: seq<FieldDiff>)
    requires Apart(fs) && fs == before + (a + b) + after
    ensures Elems(a) <= Elems(fs) && Elems(b) <= Elems(fs)
    ensures forall x :: x in before || x in after ==> x !in Elems(a) && x !in Elems(b)
  {
    ApartParts(before + (a + b), after);
    ApartParts(before, a + b);
    assert forall x :: x in a || x in b ==> x in a + b;
  }

  lemma PartDone(fs: seq<FieldDiff>, was: seq<Field>, k: nat, n: nat,
                 before: seq<FieldDiff>, part: seq<FieldDiff>, after: seq<FieldDiff>, m: nat)
    requires fs == before + part + after && k == |before| && |fs| == |was|
    requires n == NeedCount(was[..k]) && m == NeedCount(was[k..k + |part|])
    requires Vals(before) == RedactedFields(was[..k])
    requires Vals(part) == RedactedFields(was[k..k + |part|])
    requires Vals(after) == was[k + |part|..]
    ensures Midway(fs, was, k + |part|, n + m)
  {
    hide RedactedField;
    hide NeedCount;
    assert was[..k + |part|] == was[..k] + was[k..k + |part|];
    NeedConcat(was[..k], was[k..k + |part|]);
    forall j | 0 <= j < |fs| ensures fs[j].View() == if j < k + |part| then RedactedField(was[j]) else was[j] {
      if j < k {
        assert Vals(before)[j] == RedactedField(was[..k][j]);
      } else if j < k + |part| {
        assert Vals(part)[j - k] == RedactedField(was[k..k + |part|][j - k]);
      } else {
        assert Vals(after)[j - k - |part|] == was[k + |part|..][j - k - |part|];
      }
    }
  }

  lemma NodeParts(o: ObjectDiff<FieldDiff>, depth: nat)
    ensures CoveredBy(o, depth) == if o.NilObject? then [] else FieldsOf(o.fields) + Covered(o.objects, depth + 1)
  {
  }

  lemma NextCovered(objs: seq<ObjectDiff<FieldDiff>>, i: nat, depth: nat)
    requires i < |objs| && depth <= MAX_DEPTH
    ensures Covered(objs[..i + 1], depth) == Covered(objs[..i], depth) + CoveredBy(objs[i], depth)
    ensures Covered(objs[..i + 1], depth) <= Covered(objs, depth)
  {
    assert objs[..i + 1][..i] == objs[..i];
    CoveredPrefix(objs, i + 1, depth);
  }

  lemma {:induction false} CoveredPrefix(objs: seq<ObjectDiff<FieldDiff>>, i: nat, depth: nat)
    requires i <= |objs| && depth <= MAX_DEPTH
    ensures Covered(objs[..i], depth) <= Covered(objs, depth)
  {
    if i == |objs| {
      assert objs[..i] == objs;
    } else {
      CoveredPrefix(objs[..|objs| - 1], i, depth);
      assert objs[..|objs| - 1][..i] == objs[..i];
    }
  }

  lemma NextTask(tasks: seq<Option<TaskDiff<FieldDiff>>>, i: nat)
    requires i < |tasks|
    ensures CoveredTasks(tasks[..i + 1]) == CoveredTasks(tasks[..i]) + CoveredTask(tasks[i])
    ensures CoveredTasks(tasks[..i]) + CoveredTask(tasks[i]) <= CoveredTasks(tasks)
  {
    assert tasks[..i + 1][..i] == tasks[..i];
    TasksPrefix(tasks, i);
  }

  lemma {:induction false} TasksPrefix(tasks: seq<Option<TaskDiff<FieldDiff>>>, i: nat)
    requires i <= |tasks|
    ensures CoveredTasks(tasks[..i]) <= CoveredTasks(tasks)
    ensures i < |tasks| ==> CoveredTasks(tasks[..i]) + CoveredTask(tasks[i]) <= CoveredTasks(tasks)
  {
    if i == |tasks| {
      assert tasks[..i] == tasks;
    } else {
      assert tasks[..|tasks| - 1][..i] == tasks[..i];
      TasksPrefix(tasks[..|tasks| - 1], i);
    }
  }

  lemma TaskParts(t: Option<TaskDiff<FieldDiff>>)
    ensures t.None? ==> CoveredTask(t) == []
    ensures t.Some? ==> t == Some(t.value) && CoveredTask(t) == FieldsOf(t.value.fields) + Covered(t.value.objects, 1)
  {
  }

  lemma NoTasks(fs: seq<FieldDiff>, was: seq<Field>, k: nat, n: nat)
    requires Midway(fs, was, k, n)
    ensures k <= |fs| && CoveredTasks([]) == [] && CoveredGroups([]) == []
  {
  }

  method RedactTasks(tasks: seq<Option<TaskDiff<FieldDiff>>>,
                     ghost fs: seq<FieldDiff>, ghost was: seq<Field>, ghost k: nat, sofar: nat) returns (n: nat)
    requires Apart(fs) && Midway(fs, was, k, sofar)
    requires fs[..k] + CoveredTasks(tasks) <= fs
    modifies Elems(fs)
    ensures Midway(fs, was, k + |CoveredTasks(tasks)|, n)
  {
    hide *;
    n := sofar;
    NoTasks(fs, was, k, n);
    for i := 0 to |tasks|
      invariant Midway(fs, was, k + |CoveredTasks(tasks[..i])|, n)
    {
      NextTask(tasks, i);
      ghost var done := CoveredTasks(tasks[..i]);
      Advance(fs, k, done, CoveredTask(tasks[i]), CoveredTasks(tasks));
      TaskParts(tasks[i]);
      if tasks[i].None? {
        continue;
      }
      n := RedactTask(tasks[i].value, fs, was, k + |done|, n);
    }
    assert tasks[..|tasks|] == tasks;
  }

  method RedactTask(t: TaskDiff<FieldDiff>,
                    ghost fs: seq<FieldDiff>, ghost was: seq<Field>, ghost k: nat, sofar: nat) returns (n: nat)
    requires Apart(fs) && Midway(fs, was, k, sofar)
    requires fs[..k] + CoveredTask(Some(t)) <= fs
    modifies Elems(fs)
    ensures Midway(fs, was, k + |CoveredTask(Some(t))|, n)
  {
    hide *;
    TaskParts(Some(t));
    n := RedactPart(t.fields, t.objects, 1, fs, was, k, sofar);
  }

  /** What comes after the part of a list that is done. */
  lemma Advance(fs: seq<FieldDiff>, k: nat, done: seq<FieldDiff>, next: seq<FieldDiff>, all: seq<FieldDiff>)
    requires k <= |fs| && fs[..k] + all <= fs && done + next <= all
    ensures k + |done| + |next| <= |fs| && fs[..k + |done|] + next <= fs
  {
    var whole := fs[..k] + all;
    assert fs[..k + |done|] == whole[..k + |done|] == fs[..k] + done;
    assert fs[..k + |done|] + next == fs[..k] + (done + next);
    assert (fs[..k] + all)[..k + |done + next|] == fs[..k] + all[..|done + next|];
  }

  lemma {:induction false} GroupsPrefix(groups: seq<Option<GroupDiff<FieldDiff>>>, i: nat)
    requires i <= |groups|
    ensures CoveredGroups(groups[..i]) <= CoveredGroups(groups)
    ensures i < |groups| ==> CoveredGroups(groups[..i]) + CoveredGroup(groups[i]) <= CoveredGroups(groups)
  {
    if i == |groups| {
      assert groups[..i] == groups;
    } else {
      assert groups[..|groups| - 1][..i] == groups[..i];
      GroupsPrefix(groups[..|groups| - 1], i);
    }
  }

  lemma NextGroup(groups: seq<Option<GroupDiff<FieldDiff>>>, i: nat)
    requires i < |groups|
    ensures CoveredGroups(groups[..i + 1]) == CoveredGroups(groups[..i]) + CoveredGroup(groups[i])
    ensures CoveredGroups(groups[..i]) + CoveredGroup(groups[i]) <= CoveredGroups(groups)
  {
    assert groups[..i + 1][..i] == groups[..i];
    GroupsPrefix(groups, i);
  }

  /** The fields of a group: its own, then those of its tasks. */
  lemma GroupParts(g: Option<GroupDiff<FieldDiff>>)
    ensures g.None? ==> CoveredGroup(g) == []
    ensures g.Some? ==> CoveredGroup(g) == (FieldsOf(g.value.fields) + Covered(g.value.objects, 1)) + CoveredTasks(g.value.tasks)
  {
  }

  method RedactGroups(groups: seq<Option<GroupDiff<FieldDiff>>>,
                      ghost fs: seq<FieldDiff>, ghost was: seq<Field>, ghost k: nat, sofar: nat) returns (n: nat)
    requires Apart(fs) && Midway(fs, was, k, sofar)
    requires fs[..k] + CoveredGroups(groups) <= fs
    modifies Elems(fs)
    ensures Midway(fs, was, k + |CoveredGroups(groups)|, n)
  {
    hide *;
    n := sofar;
    NoTasks(fs, was, k, n);
    for i := 0 to |groups|
      invariant Midway(fs, was, k + |CoveredGroups(groups[..i])|, n)
    {
      NextGroup(groups, i);
      ghost var done := CoveredGroups(groups[..i]);
      Advance(fs, k, done, CoveredGroup(groups[i]), CoveredGroups(groups));
      GroupParts(groups[i]);
      if groups[i].None? {
        continue;
      }
      n := RedactGroup(groups[i].value, fs, was, k + |done|, n);
    }
    assert groups[..|groups|] == groups;
  }

  method RedactGroup(g: GroupDiff<FieldDiff>,
                     ghost fs: seq<FieldDiff>, ghost was: seq<Field>, ghost k: nat, sofar: nat) returns (n: nat)
    requires Apart(fs) && Midway(fs, was, k, sofar)
    requires fs[..k] + CoveredGroup(Some(g)) <= fs
    modifies Elems(fs)
    ensures Midway(fs, was, k + |CoveredGroup(Some(g))|, n)
  {
    hide *;
    NoTasks(fs, was, k, sofar);
    GroupParts(Some(g));
    ghost var own, all := FieldsOf(g.fields) + Covered(g.objects, 1), CoveredGroup(Some(g));
    Advance(fs, k, [], own, all);
    Advance(fs, k, own, CoveredTasks(g.tasks), all);
    n := RedactPart(g.fields, g.objects, 1, fs, was, k, sofar);
    n := RedactTasks(g.tasks, fs, was, k + |own|, n);
  }

  /** A list seen as a first part and the rest. */
  lemma TwoParts(fs: seq<FieldDiff>, own: seq<FieldDiff>, rest: seq<FieldDiff>)
    requires fs == own + rest
    ensures |fs| == |own| + |rest| && fs[..0] + own <= fs && fs[..|own|] + rest <= fs
  {
    assert fs[..0] + own == own;
    assert fs[..|own|] == own;
  }

  /** Redacts a diff in place. Afterwards every field down to the capped depth, at every level, is
      what redaction makes of it, and the result counts exactly the fields that changed. */
  method RedactJobDiff(d: Option<JobDiff<FieldDiff>>) returns (n: nat)
    requires d.Some? ==> Apart(CoveredJob(d.value))
    modifies if d.Some? then Elems(CoveredJob(d.value)) else {}
    ensures d.None? ==> n == 0
    ensures d.Some? ==> Vals(CoveredJob(d.value)) == RedactedFields(old(Vals(CoveredJob(d.value))))
                        && n == ChangedCount(old(Vals(CoveredJob(d.value))), Vals(CoveredJob(d.value)))
  {
    hide *;
    if d.None? {
      return 0;
    }
    ghost var fs := CoveredJob(d.value);
    ghost var was := Vals(fs);
    JobParts(d.value);
    MidwayStart(fs, was);
    n := RedactJob(d.value, fs, was);
    MidwayDone(fs, was, n);
    CountIsChanged(was);
  }

  lemma JobParts(d: JobDiff<FieldDiff>)
    ensures CoveredJob(d) == (FieldsOf(d.fields) + Covered(d.objects, 1)) + CoveredGroups(d.groups)
  {
  }

  method RedactJob(d: JobDiff<FieldDiff>, ghost fs: seq<FieldDiff>, ghost was: seq<Field>) returns (n: nat)
    requires fs == (FieldsOf(d.fields) + Covered(d.objects, 1)) + CoveredGroups(d.groups)
    requires Apart(fs) && Midway(fs, was, 0, 0)
    modifies Elems(fs)
    ensures Midway(fs, was, |fs|, n)
  {
    hide *;
    ghost var own := FieldsOf(d.fields) + Covered(d.objects, 1);
    TwoParts(fs, own, CoveredGroups(d.groups));
    n := RedactPart(d.fields, d.objects, 1, fs, was, 0, 0);
    n := RedactGroups(d.groups, fs, was, |own|, n);
  }

  lemma MidwayStart(fs: seq<FieldDiff>, was: seq<Field>)
    requires was == Vals(fs)
    ensures Midway(fs, was, 0, 0)
  {
  }

  lemma MidwayDone(fs: seq<FieldDiff>, was: seq<Field>, n: nat)
    requires Midway(fs, was, |fs|, n)
    ensures Vals(fs) == RedactedFields(was) && n == NeedCount(was)
  {
    assert was[..|fs|] == was;
  }

  /** In how many places two equally long lists of fields differ. */
  function ChangedCount(a: seq<Field>, b: seq<Field>): nat
    requires |a| == |b|
  {
    if a == [] then 0
    else ChangedCount(a[..|a| - 1], b[..|b| - 1]) + if a[|a| - 1] != b[|b| - 1] then 1 else 0
  }

  lemma {:induction false} CountIsChanged(was: seq<Field>)
    ensures NeedCount(was) == ChangedCount(was, RedactedFields(was))
  {
    if was != [] {
      var front := was[..|was| - 1];
      CountIsChanged(front);
      assert RedactedFields(was)[..|was| - 1] == RedactedFields(front);
      var f := was[|was| - 1];
      assert NeedsRedaction(f) ==> |RedactedField(f).annotations| != |f.annotations|;
    }
  }
}
