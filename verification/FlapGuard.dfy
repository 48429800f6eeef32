/** The flap guard: does a definition match one whose deployment failed? And the poll that queues
    active rollbacks. */
module FlapGuards {
  import opened Wrappers
  import opened Text
  import opened Identity
  import opened Jobs
  import opened Updates
  import opened Decisions
  import opened Rollbacks

  // ---- Fingerprints ----

  // Job meta as JSON: a missing map is null, an object left empty is dropped altogether.
  datatype MetaForm = NullMeta | NoMeta | MetaObject(entries: map<string, string>)

  // A group without what the autoscaler owns. Null entries stay null.
  datatype GroupForm = NullGroup | GroupForm(name: Option<string>, count: Option<int>, scaling: Option<Option<Scaling>>,
                                             autoRevert: Option<bool>, body: string)

  datatype JobForm = JobForm(id: string, meta: MetaForm, stop: bool, autoRevert: Option<bool>, groups: seq<GroupForm>, body: string)

  predicate OwnMetaKey(k: string, prefix: string) {
    prefix != "" && (HasPrefix(k, prefix + "_") || HasPrefix(k, prefix + "."))
  }

  function MetaFormOf(meta: Option<map<string, string>>, prefix: string): MetaForm {
    match meta
    case None => NullMeta
    case Some(m) =>
      var rest := map k | k in m && !OwnMetaKey(k, prefix) :: m[k];
      if rest == map[] then NoMeta else MetaObject(rest)
  }

  function GroupFormOf(g: Option<TaskGroup>, autoscaled: set<string>): GroupForm {
    match g
    case None => NullGroup
    case Some(tg) =>
      if tg.name.GetOr("") in autoscaled then GroupForm(tg.name, None, None, tg.autoRevert, tg.body)
      else GroupForm(tg.name, Some(tg.count), Some(tg.scaling), tg.autoRevert, tg.body)
  }

  function GroupForms(groups: seq<Option<TaskGroup>>, autoscaled: set<string>): (r: seq<GroupForm>)
    ensures |r| == |groups|
    ensures forall i :: 0 <= i < |r| ==> r[i] == GroupFormOf(groups[i], autoscaled)
  {
    seq(|groups|, i requires 0 <= i < |groups| => GroupFormOf(groups[i], autoscaled))
  }

  /** What a fingerprint is computed from: everything but Nomad's bookkeeping, the engine's own meta
      keys and what the autoscaler owns. */
  function FormOf(job: Job, prefix: string): JobForm {
    JobForm(job.id, MetaFormOf(job.meta, prefix), job.stop, job.autoRevert, GroupForms(job.groups, AutoscaledGroups(job)), job.body)
  }

  // The hash of the normalised definition.
  type Hash = JobForm -> string

  ghost predicate Injective(hash: Hash) {
    forall a, b :: hash(a) == hash(b) ==> a == b
  }

  /** The same intent, registered at another time, tagged or scaled otherwise, has the same form. */
  lemma FormIgnores(job: Job, prefix: string, bookkeeping: string, key: string, value: string, i: nat, count: int)
    requires job.meta.Some? && OwnMetaKey(key, prefix)
    requires i < |job.groups| && Autoscaled(job.groups[i])
    ensures FormOf(job.(bookkeeping := bookkeeping), prefix) == FormOf(job, prefix)
    ensures FormOf(job.(meta := Some(job.meta.value[key := value])), prefix) == FormOf(job, prefix)
    ensures FormOf(job.(groups := job.groups[i := Some(job.groups[i].value.(count := count))]), prefix) == FormOf(job, prefix)
  {
    var m, m' := job.meta.value, job.meta.value[key := value];
    assert (map k | k in m && !OwnMetaKey(k, prefix) :: m[k]) == (map k | k in m' && !OwnMetaKey(k, prefix) :: m'[k]);
    var scaled := job.(groups := job.groups[i := Some(job.groups[i].value.(count := count))]);
    SameAutoscaled(job, i, count);
    assert job.groups[i] in job.groups;
    assert FormOf(scaled, prefix).groups == FormOf(job, prefix).groups;
  }

  lemma SameAutoscaled(job: Job, i: nat, count: int)
    requires i < |job.groups| && Autoscaled(job.groups[i])
    ensures AutoscaledGroups(job.(groups := job.groups[i := Some(job.groups[i].value.(count := count))])) == AutoscaledGroups(job)
  {
    var after := job.groups[i := Some(job.groups[i].value.(count := count))];
    forall g | g in job.groups && Autoscaled(g) ensures exists h :: h in after && Autoscaled(h) && h.value.name == g.value.name {
      var k :| 0 <= k < |job.groups| && job.groups[k] == g;
      assert after[k] in after;
    }
    forall h | h in after && Autoscaled(h) ensures exists g :: g in job.groups && Autoscaled(g) && h.value.name == g.value.name {
      var k :| 0 <= k < |after| && after[k] == h;
      assert job.groups[k] in job.groups;
    }
  }

  /** A job without a meta map and one whose meta holds nothing but the engine's own keys do not match,
      though both mean the same: a failed definition may be tried once more when the map appears. With
      a meta map on both sides, any own keys and no own keys match. */
  lemma NullMetaDiffers(job: Job, prefix: string, own: map<string, string>)
    requires forall k :: k in own ==> OwnMetaKey(k, prefix)
    ensures FormOf(job.(meta := None), prefix) != FormOf(job.(meta := Some(own)), prefix)
    ensures FormOf(job.(meta := Some(map[])), prefix) == FormOf(job.(meta := Some(own)), prefix)
  {
    assert (map k | k in own && !OwnMetaKey(k, prefix) :: own[k]) == map[];
  }

  /** The autoscaler owns what goes by that name in the job; a group without a name goes by none. */
  ghost predicate OwnedByAutoscaler(job: Job, name: Option<string>) {
    exists g :: g in job.groups && g.Some? && g.value.name.Some? && g.value.name.value == name.GetOr("")
                && g.value.scaling.Some? && g.value.scaling.value.enabled != Some(false)
  }

  /** Both lack the map, or the entries that are not the engine's agree. */
  ghost predicate SameMeta(a: Option<map<string, string>>, b: Option<map<string, string>>, prefix: string) {
    (a.None? <==> b.None?)
    && (a.Some? && b.Some? ==>
          forall k :: !ReservedKey(k, prefix) ==> (k in a.value <==> k in b.value) && (k in a.value ==> a.value[k] == b.value[k]))
  }

  /** The groups agree, but for the count and the scaling where the autoscaler owns both. */
  ghost predicate SameGroup(a: Job, g: Option<TaskGroup>, b: Job, h: Option<TaskGroup>) {
    (g.None? <==> h.None?)
    && (g.Some? && h.Some? ==>
          g.value.name == h.value.name && g.value.autoRevert == h.value.autoRevert && g.value.body == h.value.body
          && (OwnedByAutoscaler(a, g.value.name) <==> OwnedByAutoscaler(b, h.value.name))
          && (!OwnedByAutoscaler(a, g.value.name) ==> g.value.count == h.value.count && g.value.scaling == h.value.scaling))
  }

  /** Two definitions mean the same to the guard. */
  ghost predicate SameDefinition(a: Job, b: Job, prefix: string) {
    a.id == b.id && a.stop == b.stop && a.autoRevert == b.autoRevert && a.body == b.body && SameMeta(a.meta, b.meta, prefix)
    && |a.groups| == |b.groups| && forall i :: 0 <= i < |a.groups| ==> SameGroup(a, a.groups[i], b, b.groups[i])
  }

  lemma MetaFormsAgree(a: Option<map<string, string>>, b: Option<map<string, string>>, prefix: string)
    ensures MetaFormOf(a, prefix) == MetaFormOf(b, prefix) <==> SameMeta(a, b, prefix)
  {
    forall k ensures OwnMetaKey(k, prefix) <==> ReservedKey(k, prefix) {
      ReservedExactly(k, prefix);
    }
    hide OwnMetaKey;
    hide ReservedKey;
    if a.Some? && b.Some? {
      var m, n := a.value, b.value;
      var rest := map k | k in m && !OwnMetaKey(k, prefix) :: m[k];
      var rest' := map k | k in n && !OwnMetaKey(k, prefix) :: n[k];
      assert MetaFormOf(a, prefix) == MetaFormOf(b, prefix) <==> rest == rest';
      if rest == rest' {
        forall k | !ReservedKey(k, prefix) ensures (k in m <==> k in n) && (k in m ==> m[k] == n[k]) {
          assert k in rest <==> k in rest';
        }
      }
    }
  }

  lemma GroupFormsAgree(a: Job, g: Option<TaskGroup>, b: Job, h: Option<TaskGroup>)
    ensures GroupFormOf(g, AutoscaledGroups(a)) == GroupFormOf(h, AutoscaledGroups(b)) <==> SameGroup(a, g, b, h)
  {
    if g.Some? {
      AutoscaledExactly(a, g.value.name.GetOr(""));
    }
    if h.Some? {
      AutoscaledExactly(b, h.value.name.GetOr(""));
    }
    hide AutoscaledGroups;
  }

  /** The guard takes two definitions for the same exactly if they agree in everything but Nomad's bookkeeping,
      the engine's own meta keys and what the autoscaler owns. */
  lemma FormsAgree(a: Job, b: Job, prefix: string)
    ensures FormOf(a, prefix) == FormOf(b, prefix) <==> SameDefinition(a, b, prefix)
  {
    MetaFormsAgree(a.meta, b.meta, prefix);
    var fa, fb := GroupForms(a.groups, AutoscaledGroups(a)), GroupForms(b.groups, AutoscaledGroups(b));
    hide MetaFormOf;
    hide SameMeta;
    hide GroupFormOf;
    hide SameGroup;
    hide AutoscaledGroups;
    forall i | 0 <= i < |a.groups| && i < |b.groups| ensures fa[i] == fb[i] <==> SameGroup(a, a.groups[i], b, b.groups[i]) {
      GroupFormsAgree(a, a.groups[i], b, b.groups[i]);
    }
  }

  // ---- Tags ----

  function FailedTagName(prefix: string, fingerprint: string): string {
    prefix + "-failed-" + fingerprint
  }

  function ParseFailedTag(prefix: string, tag: string): Option<string> {
    if prefix == "" || !HasPrefix(tag, prefix + "-failed-") then None else Some(tag[|prefix + "-failed-"|..])
  }

  /** A tag name parses back to its fingerprint, unless the prefix is empty, when no tag is read. */
  lemma TagRoundTrip(prefix: string, fingerprint: string)
    ensures ParseFailedTag(prefix, FailedTagName(prefix, fingerprint)) == if prefix == "" then None else Some(fingerprint)
    ensures forall tag :: ParseFailedTag(prefix, tag) == Some(fingerprint) ==> tag == FailedTagName(prefix, fingerprint)
  {
    var p := prefix + "-failed-";
    assert (p + fingerprint)[..|p|] == p && (p + fingerprint)[|p|..] == fingerprint;
    forall tag | ParseFailedTag(prefix, tag) == Some(fingerprint) ensures tag == FailedTagName(prefix, fingerprint) {
      assert tag == tag[..|p|] + tag[|p|..];
    }
  }

  // ---- The guard ----

  datatype Deployment = Deployment(failed: bool, version: nat)

  function FailedVersions(deployments: seq<Option<Deployment>>): set<nat> {
    set d | d in deployments && d.Some? && d.value.failed :: d.value.version
  }

  /** The retained version with a number; the last one listed should there be several. */
  function VersionAt(versions: seq<Option<JobVersion>>, n: nat): Option<JobVersion> {
    if versions == [] then None
    else
      var v := versions[|versions| - 1];
      if v.Some? && v.value.number == Some(n) then v else VersionAt(versions[..|versions| - 1], n)
  }

  /** The last listed version with the number. */
  ghost predicate LastListed(versions: seq<Option<JobVersion>>, n: nat, v: JobVersion) {
    exists i :: 0 <= i < |versions| && versions[i] == Some(v) && v.number == Some(n)
                && forall k :: i < k < |versions| && versions[k].Some? ==> versions[k].value.number != Some(n)
  }

  lemma LastListedOrBefore(versions: seq<Option<JobVersion>>, n: nat, v: JobVersion)
    requires versions != []
    ensures var front, last := versions[..|versions| - 1], versions[|versions| - 1];
            LastListed(versions, n, v)
            <==> if last.Some? && last.value.number == Some(n) then last == Some(v) else LastListed(front, n, v)
  {
    var front, last := versions[..|versions| - 1], versions[|versions| - 1];
    if last.Some? && last.value.number == Some(n) {
      assert versions[|versions| - 1] == last;
    } else {
      if i :| 0 <= i < |front| && front[i] == Some(v) && v.number == Some(n)
              && forall k :: i < k < |front| && front[k].Some? ==> front[k].value.number != Some(n) {
        assert versions[i] == Some(v);
      }
      if i :| 0 <= i < |versions| && versions[i] == Some(v) && v.number == Some(n)
              && forall k :: i < k < |versions| && versions[k].Some? ==> versions[k].value.number != Some(n) {
        assert front[i] == Some(v);
      }
    }
  }

  lemma {:induction false} VersionAtExactly(versions: seq<Option<JobVersion>>, n: nat, v: JobVersion)
    ensures VersionAt(versions, n) == Some(v) <==> LastListed(versions, n, v)
  {
    if versions != [] {
      LastListedOrBefore(versions, n, v);
      VersionAtExactly(versions[..|versions| - 1], n, v);
      hide LastListed;
    }
  }

  function TaggedFingerprints(prefix: string, versions: seq<Option<JobVersion>>): set<string> {
    set v | v in versions && v.Some? && v.value.tag.Some? && ParseFailedTag(prefix, v.value.tag.value).Some?
      :: ParseFailedTag(prefix, v.value.tag.value).value
  }

  function Fingerprint(hash: Hash, prefix: string, job: Job): string {
    hash(FormOf(job, prefix))
  }

  /** The fingerprints of the retained versions whose deployment failed. */
  function HistoryFingerprints(hash: Hash, prefix: string, failed: set<nat>, versions: seq<Option<JobVersion>>): set<string> {
    set n | n in failed && VersionAt(versions, n).Some? :: Fingerprint(hash, prefix, VersionAt(versions, n).value.spec)
  }

  function FailedFingerprints(hash: Hash, prefix: string, mode: FlapMode, deployments: seq<Option<Deployment>>,
                              versions: seq<Option<JobVersion>>): set<string> {
    (if mode.TagMode? then TaggedFingerprints(prefix, versions) else {})
    + HistoryFingerprints(hash, prefix, FailedVersions(deployments), versions)
  }

  // A version that was tagged, and with which name.
  datatype TagCall = TagCall(version: nat, name: string)

  /** The versions tag mode marks: failed, retained and without a tag of any kind. */
  function ToTag(hash: Hash, prefix: string, failed: set<nat>, versions: seq<Option<JobVersion>>): set<TagCall> {
    set n | n in failed && VersionAt(versions, n).Some? && VersionAt(versions, n).value.tag.None?
      :: TagCall(n, FailedTagName(prefix, Fingerprint(hash, prefix, VersionAt(versions, n).value.spec)))
  }

  method CollectFailed(deployments: seq<Option<Deployment>>) returns (failed: set<nat>)
    ensures failed == FailedVersions(deployments)
  {
    failed := {};
    for i := 0 to |deployments|
      invariant failed == FailedVersions(deployments[..i])
    {
      assert deployments[..i + 1] == deployments[..i] + [deployments[i]];
      if deployments[i].Some? && deployments[i].value.failed {
        failed := failed + {deployments[i].value.version};
      }
    }
    assert deployments[..|deployments|] == deployments;
  }

  method IndexVersions(versions: seq<Option<JobVersion>>) returns (byVersion: map<nat, JobVersion>)
    ensures forall n :: n in byVersion <==> VersionAt(versions, n).Some?
    ensures forall n :: n in byVersion ==> byVersion[n] == VersionAt(versions, n).value
  {
    byVersion := map[];
    for i := 0 to |versions|
      invariant forall n :: n in byVersion <==> VersionAt(versions[..i], n).Some?
      invariant forall n :: n in byVersion ==> byVersion[n] == VersionAt(versions[..i], n).value
    {
      assert versions[..i + 1][..i] == versions[..i];
      var v := versions[i];
      if v.Some? && v.value.number.Some? {
        byVersion := byVersion[v.value.number.value := v.value];
      }
    }
    assert versions[..|versions|] == versions;
  }

  method CollectTags(prefix: string, versions: seq<Option<JobVersion>>) returns (tagged: set<string>)
    ensures tagged == TaggedFingerprints(prefix, versions)
  {
    tagged := {};
    for i := 0 to |versions|
      invariant tagged == TaggedFingerprints(prefix, versions[..i])
    {
      assert versions[..i + 1] == versions[..i] + [versions[i]];
      var v := versions[i];
      if v.None? || v.value.tag.None? {
        continue;
      }
      var fp := ParseFailedTag(prefix, v.value.tag.value);
      if fp.Some? {
        tagged := tagged + {fp.value};
      }
    }
    assert versions[..|versions|] == versions;
  }

  lemma OneMoreVersion(hash: Hash, prefix: string, done: set<nat>, n: nat, versions: seq<Option<JobVersion>>)
    ensures HistoryFingerprints(hash, prefix, done + {n}, versions)
            == HistoryFingerprints(hash, prefix, done, versions)
               + if VersionAt(versions, n).Some? then {Fingerprint(hash, prefix, VersionAt(versions, n).value.spec)} else {}
    ensures ToTag(hash, prefix, done + {n}, versions)
            == ToTag(hash, prefix, done, versions)
               + if VersionAt(versions, n).Some? && VersionAt(versions, n).value.tag.None?
                 then {TagCall(n, FailedTagName(prefix, Fingerprint(hash, prefix, VersionAt(versions, n).value.spec)))} else {}
  {
    hide VersionAt;
    hide FormOf;
    hide FailedTagName;
  }

  lemma NoVersion(hash: Hash, prefix: string, versions: seq<Option<JobVersion>>)
    ensures HistoryFingerprints(hash, prefix, {}, versions) == {} && ToTag(hash, prefix, {}, versions) == {}
  {
  }

  /** The fingerprints of the failed versions that are retained, and the tags for those without one. */
  method FingerprintVersions(hash: Hash, prefix: string, mode: FlapMode, failed: set<nat>, versions: seq<Option<JobVersion>>)
      returns (out: set<string>, tagged: set<TagCall>)
    ensures out == HistoryFingerprints(hash, prefix, failed, versions)
    ensures tagged == if mode.TagMode? then ToTag(hash, prefix, failed, versions) else {}
  {
    hide *;
    var byVersion := IndexVersions(versions);
    out, tagged := {}, {};
    var left := failed;
    NoVersion(hash, prefix, versions);
    assert failed - left == {};
    while left != {}
      invariant left <= failed
      invariant out == HistoryFingerprints(hash, prefix, failed - left, versions)
      invariant tagged == if mode.TagMode? then ToTag(hash, prefix, failed - left, versions) else {}
      decreases |left|
    {
      var n :| n in left;
      OneMoreVersion(hash, prefix, failed - left, n, versions);
      assert failed - (left - {n}) == failed - left + {n};
      left := left - {n};
      if n !in byVersion {
        continue;
      }
      var fp := Fingerprint(hash, prefix, byVersion[n].spec);
      out := out + {fp};
      if mode.TagMode? && byVersion[n].tag.None? {
        tagged := tagged + {TagCall(n, FailedTagName(prefix, fp))};
      }
    }
    assert failed - left == failed;
  }

  /** The fingerprints of failed definitions, None when Nomad could not be read. In tag mode every newly
      seen failed version is tagged on the way. Without a failed deployment, history mode does not even
      ask for the versions. */
  method FailedVersionFingerprints(hash: Hash, prefix: string, mode: FlapMode, deployments: Option<seq<Option<Deployment>>>,
                                   versions: Option<seq<Option<JobVersion>>>)
      returns (failed: Option<set<string>>, tagged: set<TagCall>)
    ensures deployments.None? ==> failed.None?
    ensures failed.Some? ==> versions.Some? || failed == Some({})
    ensures deployments.Some? && versions.Some? ==>
              failed == Some(FailedFingerprints(hash, prefix, mode, deployments.value, versions.value))
              && tagged == if mode.TagMode? then ToTag(hash, prefix, FailedVersions(deployments.value), versions.value) else {}
    ensures failed.None? ==> tagged == {}
  {
    tagged := {};
    if deployments.None? {
      return None, {};
    }
    var failedVersions := CollectFailed(deployments.value);
    if failedVersions == {} && !mode.TagMode? {
      NoVersion(hash, prefix, versions.GetOr([]));
      assert versions.Some? ==> FailedFingerprints(hash, prefix, mode, deployments.value, versions.value) == {};
      return Some({}), {};
    }
    if versions.None? {
      return None, {};
    }
    var fingerprints;
    fingerprints, tagged := FingerprintVersions(hash, prefix, mode, failedVersions, versions.value);
    var fromTags: set<string> := {};
    if mode.TagMode? {
      fromTags := CollectTags(prefix, versions.value);
    }
    return Some(fromTags + fingerprints), tagged;
  }

  /** Whether applying the definition would re-enter a failure that is known. When Nomad cannot be
      read the guard lets the update through. */
  method FlapGuardBlocks(hash: Hash, prefix: string, mode: FlapMode, job: Job, deployments: Option<seq<Option<Deployment>>>,
                         versions: Option<seq<Option<JobVersion>>>) returns (blocked: bool)
    ensures deployments.None? ==> !blocked
    ensures versions.None? ==> !blocked
    ensures deployments.Some? && versions.Some? ==>
              blocked == (Fingerprint(hash, prefix, job)
                          in FailedFingerprints(hash, prefix, mode, deployments.value, versions.value))
  {
    var want := Fingerprint(hash, prefix, job);
    var failed, tagged := FailedVersionFingerprints(hash, prefix, mode, deployments, versions);
    return failed.Some? && want in failed.value;
  }

  /** A deployment of the version failed, and the version is still listed. */
  ghost predicate FailedAndListed(deployments: seq<Option<Deployment>>, versions: seq<Option<JobVersion>>, v: JobVersion) {
    exists n :: Some(Deployment(true, n)) in deployments && LastListed(versions, n, v)
  }

  lemma HistoryMeans(hash: Hash, prefix: string, deployments: seq<Option<Deployment>>, versions: seq<Option<JobVersion>>, fp: string)
    ensures fp in HistoryFingerprints(hash, prefix, FailedVersions(deployments), versions)
            <==> exists v :: FailedAndListed(deployments, versions, v) && fp == Fingerprint(hash, prefix, v.spec)
  {
    hide Fingerprint;
    hide VersionAt;
    hide LastListed;
    if n :| n in FailedVersions(deployments) && VersionAt(versions, n).Some?
            && fp == Fingerprint(hash, prefix, VersionAt(versions, n).value.spec) {
      var v := VersionAt(versions, n).value;
      VersionAtExactly(versions, n, v);
      assert Some(Deployment(true, n)) in deployments;
      assert FailedAndListed(deployments, versions, v);
    }
    if v :| FailedAndListed(deployments, versions, v) && fp == Fingerprint(hash, prefix, v.spec) {
      var n :| Some(Deployment(true, n)) in deployments && LastListed(versions, n, v);
      VersionAtExactly(versions, n, v);
      assert Some(Deployment(true, n)).value.version in FailedVersions(deployments);
    }
  }

  /** Exactness in history mode: with a hash that does not collide, a definition is held exactly when
      some failed deployment's version is still retained and holds the same definition. */
  lemma HistoryExactly(hash: Hash, prefix: string, job: Job, deployments: seq<Option<Deployment>>,
                       versions: seq<Option<JobVersion>>)
    requires Injective(hash)
    ensures Fingerprint(hash, prefix, job) in FailedFingerprints(hash, prefix, HistoryMode, deployments, versions)
            <==> exists v :: FailedAndListed(deployments, versions, v) && SameDefinition(v.spec, job, prefix)
  {
    HistoryMeans(hash, prefix, deployments, versions, Fingerprint(hash, prefix, job));
    forall spec: Job ensures FormOf(spec, prefix) == FormOf(job, prefix) <==> SameDefinition(spec, job, prefix) {
      FormsAgree(spec, job, prefix);
    }
    hide FormOf;
    hide SameDefinition;
    hide FailedAndListed;
    hide HistoryFingerprints;
  }

  /** In tag mode a definition is held besides exactly by a listed version that carries the engine's tag with
      its fingerprint. */
  lemma TagModeExactly(hash: Hash, prefix: string, job: Job, deployments: seq<Option<Deployment>>,
                       versions: seq<Option<JobVersion>>)
    ensures Fingerprint(hash, prefix, job) in FailedFingerprints(hash, prefix, TagMode, deployments, versions)
            <==> Fingerprint(hash, prefix, job) in FailedFingerprints(hash, prefix, HistoryMode, deployments, versions)
                 || (prefix != ""
                     && exists v :: Some(v) in versions && v.tag == Some(prefix + "-failed-" + Fingerprint(hash, prefix, job)))
  {
    var fp := Fingerprint(hash, prefix, job);
    TagRoundTrip(prefix, fp);
    hide FormOf;
    hide HistoryFingerprints;
    if v :| Some(v) in versions && v.tag == Some(prefix + "-failed-" + fp) {
      assert Some(v).value == v;
    }
  }

  /** Durability in tag mode: once a failed version carries the engine's tag, its definition stays held
      in every later look at Nomad that still lists that version, whatever deployments are left. With
      an empty prefix tags hold nothing. */
  lemma TagsAreDurable(hash: Hash, prefix: string, job: Job, deployments: seq<Option<Deployment>>,
                       versions: seq<Option<JobVersion>>, v: JobVersion)
    requires Some(v) in versions && v.tag == Some(FailedTagName(prefix, Fingerprint(hash, prefix, job)))
    ensures prefix != "" ==> Fingerprint(hash, prefix, job) in FailedFingerprints(hash, prefix, TagMode, deployments, versions)
    ensures prefix == "" ==> TaggedFingerprints(prefix, versions) == {}
  {
    TagRoundTrip(prefix, Fingerprint(hash, prefix, job));
    hide FormOf;
    assert Some(v).value == v;
  }

  /** What tag mode writes is what durability needs: exactly the retained failed versions without a tag of any
      kind get one, and it names their own fingerprint. */
  lemma TagsNameTheirVersion(hash: Hash, prefix: string, deployments: seq<Option<Deployment>>,
                             versions: seq<Option<JobVersion>>, n: nat, name: string)
    ensures TagCall(n, name) in ToTag(hash, prefix, FailedVersions(deployments), versions)
            <==> Some(Deployment(true, n)) in deployments
                 && exists v :: LastListed(versions, n, v) && v.tag.None?
                                && name == prefix + "-failed-" + Fingerprint(hash, prefix, v.spec)
  {
    hide FormOf;
    hide VersionAt;
    hide LastListed;
    if VersionAt(versions, n).Some? {
      VersionAtExactly(versions, n, VersionAt(versions, n).value);
    }
    forall v ensures LastListed(versions, n, v) <==> VersionAt(versions, n) == Some(v) {
      VersionAtExactly(versions, n, v);
    }
    assert Some(Deployment(true, n)) in deployments ==> Some(Deployment(true, n)).value.version in FailedVersions(deployments);
  }

  // ---- The rollback poll ----

  // What Nomad answers about one job; None stands for an error.
  datatype JobAnswers = JobAnswers(latest: Option<Option<Deployment>>, live: Option<Job>,
                                   versions: Option<seq<Option<JobVersion>>>)

  datatype Rollback = Rollback(failed: nat, target: nat)

  /** The rollback a job gets: it is wanted, nothing freezes the job, its latest deployment failed,
      Nomad does not revert by itself, and there is an earlier stable version. */
  function RollbackOf(cfg: Config, meta: map<string, string>, frozen: bool, a: JobAnswers): Option<Rollback> {
    if !EffectiveRollback(cfg, meta) || frozen then None
    else if a.latest.None? || a.latest.value.None? || !a.latest.value.value.failed then None
    else if a.live.None? || JobHasAutoRevert(a.live.value) || a.versions.None? then None
    else
      var failed := a.latest.value.value.version;
      var target := LastStable(a.versions.value, failed);
      if target.None? then None else Some(Rollback(failed, target.value))
  }

  /** A rollback is queued exactly when every condition holds, and then to the greatest stable version
      below the failed one. */
  lemma RollbackExactly(cfg: Config, meta: map<string, string>, frozen: bool, a: JobAnswers, r: Rollback)
    ensures RollbackOf(cfg, meta, frozen, a) == Some(r)
            <==> WantsRollback(cfg, meta) && !frozen && a.latest == Some(Some(Deployment(true, r.failed)))
                 && a.live.Some? && !RevertsItself(a.live.value)
                 && a.versions.Some? && GreatestStable(a.versions.value, r.failed, r.target)
  {
    WantsRollbackExactly(cfg, meta);
    hide WantsRollback;
    hide EffectiveRollback;
    if a.versions.Some? {
      GreatestStableExactly(a.versions.value, r.failed, r.target);
    }
    hide GreatestStable;
    hide LastStable;
  }

  /** Nomad is told to revert the job by itself, for the whole job or for some group of it. */
  ghost predicate RevertsItself(job: Job) {
    job.autoRevert == Some(true) || exists g :: g in job.groups && g.Some? && g.value.autoRevert == Some(true)
  }

  /** The version listed as stable below the failed one, with none such above it. */
  ghost predicate GreatestStable(versions: seq<Option<JobVersion>>, failed: nat, target: nat) {
    target < failed
    && (exists v :: v in versions && v.Some? && v.value.number == Some(target) && v.value.stable == Some(true))
    && forall v, n :: v in versions && v.Some? && v.value.number == Some(n) && v.value.stable == Some(true) && n < failed ==>
         n <= target
  }

  lemma GreatestStableExactly(versions: seq<Option<JobVersion>>, failed: nat, target: nat)
    ensures LastStable(versions, failed) == Some(target) <==> GreatestStable(versions, failed, target)
  {
    hide LastStable;
    var best := LastStable(versions, failed);
    if best.Some? {
      var v :| v in versions && StableBelow(v, failed) && v.value.number == best;
    }
    if GreatestStable(versions, failed, target) {
      var v :| v in versions && v.Some? && v.value.number == Some(target) && v.value.stable == Some(true);
      assert StableBelow(v, failed);
    }
  }

  function RollbackRow(jobID: string, r: Rollback, raft: nat, now: int): Row {
    Row(RevertUpdateID(jobID, r.failed), jobID, "", "", Operation.Revert, Pending, NoUpdates, 0, raft, Some(now), None, "",
        r.target, r.failed, None, false)
  }

  /** The rollbacks of some of the jobs. */
  function RollbacksOf(cfg: Config, metaByJob: map<string, map<string, string>>, frozen: string -> bool,
                       answers: string -> JobAnswers, jobs: set<string>): map<string, Rollback> {
    map j | j in jobs && j in metaByJob && RollbackOf(cfg, metaByJob[j], frozen(j), answers(j)).Some?
      :: RollbackOf(cfg, metaByJob[j], frozen(j), answers(j)).value
  }

  lemma OneMoreJob(cfg: Config, metaByJob: map<string, map<string, string>>, frozen: string -> bool,
                   answers: string -> JobAnswers, jobs: set<string>, j: string)
    requires j in metaByJob
    ensures var r := RollbackOf(cfg, metaByJob[j], frozen(j), answers(j));
            RollbacksOf(cfg, metaByJob, frozen, answers, jobs + {j})
            == if r.Some? then RollbacksOf(cfg, metaByJob, frozen, answers, jobs)[j := r.value]
               else RollbacksOf(cfg, metaByJob, frozen, answers, jobs)
  {
    hide RollbackOf;
    var r := RollbackOf(cfg, metaByJob[j], frozen(j), answers(j));
    var before := RollbacksOf(cfg, metaByJob, frozen, answers, jobs);
    var after := RollbacksOf(cfg, metaByJob, frozen, answers, jobs + {j});
    assert r.Some? ==> after == before[j := r.value];
    assert r.None? ==> after == before;
  }

  /** Decides one job: the rollback to queue, if any. */
  method CheckRollback(cfg: Config, meta: map<string, string>, frozen: bool, a: JobAnswers) returns (r: Option<Rollback>)
    ensures r == RollbackOf(cfg, meta, frozen, a)
  {
    if !EffectiveRollback(cfg, meta) {
      return None;
    }
    if frozen {
      return None;
    }
    if a.latest.None? || a.latest.value.None? || !a.latest.value.value.failed {
      return None;
    }
    if a.live.None? {
      return None;
    }
    if JobHasAutoRevert(a.live.value) {
      return None;
    }
    if a.versions.None? {
      return None;
    }
    var failed := a.latest.value.value.version;
    var target, found := FindLastStable(a.versions.value, failed);
    if !found {
      return None;
    }
    return Some(Rollback(failed, target));
  }

  // ---- What a poll does to the queue ----

  /** Rows that wait or are being applied carry the IDs their fields give. */
  ghost predicate NamedRows(rows: seq<Row>) {
    forall r :: r in rows && !r.status.Terminal() ==> Named(r)
  }

  /** The row is the job's rollback, waiting or being carried out. */
  ghost predicate CarriesOut(row: Row, jobID: string, r: Rollback) {
    !row.status.Terminal() && row.operation.Revert? && row.jobID == jobID && row.revertFrom == r.failed
    && row.updateID == RevertUpdateID(jobID, r.failed)
  }

  ghost predicate Standing(rows: seq<Row>, jobID: string, r: Rollback) {
    exists row :: row in rows && CarriesOut(row, jobID, r)
  }

  /** Every rollback stands in the queue. */
  ghost predicate AllStanding(after: seq<Row>, queued: map<string, Rollback>) {
    forall j :: j in queued ==> Standing(after, j, queued[j])
  }

  /** What is unfinished now was before, or is a rollback to the version found for it, detected now, or waited
      before under the ID of a rollback and was refreshed by it. */
  ghost predicate NothingElse(rows: seq<Row>, after: seq<Row>, queued: map<string, Rollback>, raft: nat, now: int) {
    forall r :: r in after && !r.status.Terminal() ==>
      r in rows
      || (r.jobID in queued && CarriesOut(r, r.jobID, queued[r.jobID]) && r.status.Pending?
          && r.revertTo == queued[r.jobID].target && r.detectedAt == Some(now) && r.raftIndex == raft)
      || (r.jobID in queued && exists r0 :: r0 in rows && r0.status.Pending?
                                            && RefreshedBy(r, r0, RollbackRow(r.jobID, queued[r.jobID], raft, now)))
  }

  /** The unfinished rows of all other jobs, and what is being applied, are as they were. */
  ghost predicate OthersStay(rows: seq<Row>, after: seq<Row>, queued: map<string, Rollback>) {
    forall r :: r in rows && !r.status.Terminal() && (r.jobID !in queued || r.status.InProgress?) ==> r in after
  }

  ghost predicate PollOutcome(rows: seq<Row>, after: seq<Row>, queued: map<string, Rollback>, raft: nat, now: int) {
    QueueInv(after) && NamedRows(after) && AllStanding(after, queued) && NothingElse(rows, after, queued, raft, now)
    && OthersStay(rows, after, queued)
  }

  /** An unfinished row under a rollback's ID is that job's revert from that version. */
  lemma UnderRevertID(r: Row, jobID: string, failed: nat)
    requires Named(r) && r.updateID == RevertUpdateID(jobID, failed)
    ensures r.operation.Revert? && r.jobID == jobID && r.revertFrom == failed
  {
    if r.operation.Revert? {
      RevertIDDetermines(r.jobID, r.revertFrom, jobID, failed);
    } else {
      UpdateIsNeverRevert(r.jobID, r.commit, jobID, failed);
    }
  }

  /** Enqueuing a rollback: its row stands there. */
  lemma RollbackStands(rows: seq<Row>, jobID: string, r: Rollback, raft: nat, now: int)
    requires QueueInv(rows) && NamedRows(rows)
    ensures Standing(Enqueue(rows, RollbackRow(jobID, r, raft, now)), jobID, r)
  {
    var u := RollbackRow(jobID, r, raft, now);
    var i := FindID(rows, u.updateID);
    if Waiting(rows, u.updateID) {
      assert rows[i] in rows;
      UnderRevertID(rows[i], jobID, r.failed);
      var row := if rows[i].status.Pending? then Refresh(rows[i], u) else rows[i];
      assert Enqueue(rows, u)[i] == row;
      assert row in Enqueue(rows, u);
    } else {
      AppendMembers(rows, u, u);
      assert u in Append(rows, u);
    }
  }

  /** Another job's rollback goes on standing. */
  lemma StandsOn(rows: seq<Row>, u: Row, jobID: string, r: Rollback)
    requires QueueInv(rows) && NamedRows(rows) && Standing(rows, jobID, r) && u.jobID != jobID
    requires u.updateID != RevertUpdateID(jobID, r.failed)
    ensures Standing(Enqueue(rows, u), jobID, r)
  {
    var row :| row in rows && !row.status.Terminal() && row.operation.Revert? && row.jobID == jobID && row.revertFrom == r.failed
               && row.updateID == RevertUpdateID(jobID, r.failed);
    StaysInEnqueue(rows, u, row);
  }

  /** A row of another job and another ID is not touched. */
  lemma StaysInEnqueue(rows: seq<Row>, u: Row, row: Row)
    requires QueueInv(rows) && row in rows && !row.status.Terminal() && row.updateID != u.updateID
    requires row.jobID != u.jobID || row.status.InProgress?
    ensures row in Enqueue(rows, u)
  {
    var k :| 0 <= k < |rows| && rows[k] == row;
    var i := FindID(rows, u.updateID);
    if Waiting(rows, u.updateID) {
      if rows[i].status.Pending? {
        assert rows[i := Refresh(rows[i], u)][k] == row;
      }
    } else {
      AppendMembers(rows, u, row);
    }
  }

  lemma IDOfJob(r: Row, jobID: string, failed: nat)
    requires Named(r) && r.jobID != jobID
    ensures r.updateID != RevertUpdateID(jobID, failed)
  {
    if r.updateID == RevertUpdateID(jobID, failed) {
      UnderRevertID(r, jobID, failed);
    }
  }

  lemma MoreStanding(after: seq<Row>, queued: map<string, Rollback>, jobID: string, r: Rollback, raft: nat, now: int)
    requires QueueInv(after) && NamedRows(after) && AllStanding(after, queued) && jobID !in queued
    ensures AllStanding(Enqueue(after, RollbackRow(jobID, r, raft, now)), queued[jobID := r])
  {
    var u := RollbackRow(jobID, r, raft, now);
    RollbackStands(after, jobID, r, raft, now);
    hide Standing;
    hide Enqueue;
    hide QueueInv;
    hide NamedRows;
    forall j | j in queued ensures Standing(Enqueue(after, u), j, queued[j]) {
      RevertIDDetermines(j, queued[j].failed, jobID, r.failed);
      StandsOn(after, u, j, queued[j]);
    }
  }

  lemma MoreOthers(rows: seq<Row>, after: seq<Row>, queued: map<string, Rollback>, jobID: string, r: Rollback, raft: nat, now: int)
    requires QueueInv(after) && NamedRows(after) && OthersStay(rows, after, queued) && jobID !in queued
    ensures OthersStay(rows, Enqueue(after, RollbackRow(jobID, r, raft, now)), queued[jobID := r])
  {
    var u := RollbackRow(jobID, r, raft, now);
    forall row | row in rows && !row.status.Terminal() && (row.jobID !in queued[jobID := r] || row.status.InProgress?)
      ensures row in Enqueue(after, u)
    {
      if row.status.InProgress? {
        EnqueueKeepsRunning(after, u, row);
      } else {
        IDOfJob(row, jobID, r.failed);
        StaysInEnqueue(after, u, row);
      }
    }
  }

  lemma MoreRows(rows: seq<Row>, after: seq<Row>, queued: map<string, Rollback>, jobID: string, r: Rollback, raft: nat, now: int)
    requires QueueInv(after) && NamedRows(after) && NothingElse(rows, after, queued, raft, now) && jobID !in queued
    ensures NothingElse(rows, Enqueue(after, RollbackRow(jobID, r, raft, now)), queued[jobID := r], raft, now)
    ensures NamedRows(Enqueue(after, RollbackRow(jobID, r, raft, now)))
  {
    var u := RollbackRow(jobID, r, raft, now);
    var more := queued[jobID := r];
    hide QueueInv;
    hide Enqueue;
    forall row | row in Enqueue(after, u) && !row.status.Terminal()
      ensures Named(row)
      ensures row in rows
              || (row.jobID in more && CarriesOut(row, row.jobID, more[row.jobID]) && row.status.Pending?
                  && row.revertTo == more[row.jobID].target && row.detectedAt == Some(now) && row.raftIndex == raft)
              || (row.jobID in more && exists r0 :: r0 in rows && r0.status.Pending?
                                                    && RefreshedBy(row, r0, RollbackRow(row.jobID, more[row.jobID], raft, now)))
    {
      if row.status.InProgress? {
        EnqueueKeepsRunning(after, u, row);
      } else {
        EnqueuePending(after, u, row);
        if row !in after && row != u {
          var waiting :| waiting in after && waiting.status.Pending? && waiting.updateID == u.updateID && row == Refresh(waiting, u);
          UnderRevertID(waiting, jobID, r.failed);
          assert waiting in rows;
        }
      }
    }
  }

  lemma NothingQueued(rows: seq<Row>, raft: nat, now: int)
    requires QueueInv(rows) && NamedRows(rows)
    ensures PollOutcome(rows, rows, map[], raft, now)
  {
  }

  lemma OneMoreRollback(rows: seq<Row>, after: seq<Row>, queued: map<string, Rollback>, jobID: string, r: Rollback,
                        raft: nat, now: int)
    requires PollOutcome(rows, after, queued, raft, now) && jobID !in queued
    ensures PollOutcome(rows, Enqueue(after, RollbackRow(jobID, r, raft, now)), queued[jobID := r], raft, now)
  {
    hide QueueInv;
    hide NamedRows;
    hide AllStanding;
    hide NothingElse;
    hide OthersStay;
    hide Enqueue;
    EnqueueKeepsInv(after, RollbackRow(jobID, r, raft, now));
    MoreStanding(after, queued, jobID, r, raft, now);
    MoreOthers(rows, after, queued, jobID, r, raft, now);
    MoreRows(rows, after, queued, jobID, r, raft, now);
  }

  /** Looks at every managed job and queues the rollbacks, each under the ID of its failed version: one
      seen again in the next poll is the same update. Afterwards exactly these stand in the queue beside
      what was there. */
  method CheckRollbacks(cfg: Config, metaByJob: map<string, map<string, string>>, frozen: string -> bool,
                        answers: string -> JobAnswers, rows: seq<Row>, raft: nat, now: int)
      returns (queued: map<string, Rollback>, after: seq<Row>)
    requires QueueInv(rows) && NamedRows(rows)
    ensures queued == RollbacksOf(cfg, metaByJob, frozen, answers, metaByJob.Keys)
    ensures PollOutcome(rows, after, queued, raft, now)
    ensures queued == map[] ==> after == rows
  {
    hide *;
    queued, after := map[], rows;
    var left := metaByJob.Keys;
    assert metaByJob.Keys - left == {};
    NoJobs(cfg, metaByJob, frozen, answers);
    NothingQueued(rows, raft, now);
    while left != {}
      invariant left <= metaByJob.Keys && queued.Keys !! left
      invariant queued == RollbacksOf(cfg, metaByJob, frozen, answers, metaByJob.Keys - left)
      invariant PollOutcome(rows, after, queued, raft, now)
      invariant queued == map[] ==> after == rows
      decreases |left|
    {
      var j :| j in left;
      OneMoreJob(cfg, metaByJob, frozen, answers, metaByJob.Keys - left, j);
      assert metaByJob.Keys - (left - {j}) == metaByJob.Keys - left + {j};
      left := left - {j};
      var r := CheckRollback(cfg, metaByJob[j], frozen(j), answers(j));
      if r.None? {
        continue;
      }
      OneMoreRollback(rows, after, queued, j, r.value, raft, now);
      after := Enqueue(after, RollbackRow(j, r.value, raft, now));
      queued := queued[j := r.value];
      assert j in queued;
    }
    assert metaByJob.Keys - left == metaByJob.Keys;
  }

  lemma NoJobs(cfg: Config, metaByJob: map<string, map<string, string>>, frozen: string -> bool, answers: string -> JobAnswers)
    ensures RollbacksOf(cfg, metaByJob, frozen, answers, {}) == map[]
  {
  }
}
