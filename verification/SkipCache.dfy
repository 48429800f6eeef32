/** A check: what it asks Nomad, what it makes of the answers, and the shortcut it takes when nothing seems
    to have changed since the last one. */
module SkipCache {
  import opened Wrappers
  import opened Jobs
  import opened PlanDiffs
  import opened Classifier
  import opened Decisions
  import opened Orphans
  import opened SkipStates
  import Protocol

  // The cluster over time, as Nomad shows it: at every moment the index of the jobs table and the
  // jobs. Answers to requests made at different moments come from different clusters.
  datatype Cluster = Cluster(index: nat, jobs: map<string, Protocol.Live>)

  /** Indexes are never 0, never run backwards, and the jobs change only together with the index. */
  ghost predicate Coherent(history: nat -> Cluster) {
    && (forall t :: history(t).index > 0)
    && (forall t, u :: t <= u ==> history(t).index <= history(u).index)
    && (forall t, u :: history(t).index == history(u).index ==> history(t).jobs == history(u).jobs)
  }

  function RegIn(c: Cluster, jobID: string): Option<Registration> {
    if jobID in c.jobs then Some(c.jobs[jobID].reg) else None
  }

  function InfoIn(c: Cluster, jobID: string): Info {
    if jobID in c.jobs then Found(c.jobs[jobID].reg, c.jobs[jobID].status) else NotFound
  }

  // A file of the repository: whether it has a job stanza at all, and what parsing it gives.
  datatype SourceFile = SourceFile(name: string, hasJob: bool, meaning: ParsedFile)

  // How the engine is set up; `kept` is what is stored of a plan diff, redacted or not.
  datatype Setup = Setup(w: Protocol.World, countMetaOnly: bool, kept: JobDiff<Field> -> JobDiff<Field>)

  // A detected difference as it is stored, apart from what is decided about it.
  datatype Drift =
    | Absent(jobID: string, file: string, dead: bool)
    | Changed(jobID: string, file: string, plan: JobDiff<Field>)
    | Orphaned(jobID: string, status: string)

  // ---- What a check asks ----

  // A request with its answer, and when it was answered. Parsing is asked of Nomad too.
  datatype Ask =
    | ListAsk(at: nat, listed: Option<Cluster>)
    | ParseAsk(file: SourceFile, answer: ParsedFile)
    | InfoAsk(at: nat, jobID: string, info: Option<Info>)
    | PlanAsk(at: nat, job: Job, plan: PlanResult)

  /** The request went wrong. A file that cannot be parsed at all is no failure. */
  predicate FailedAsk(a: Ask) {
    match a
    case ListAsk(_, listed) => listed.None?
    case ParseAsk(file, answer) => answer != file.meaning
    case InfoAsk(_, _, info) => info.None?
    case PlanAsk(_, _, plan) => plan.PlanError?
  }

  ghost predicate AllAnswered(talk: seq<Ask>) {
    forall a :: a in talk ==> !FailedAsk(a)
  }

  /** An answer is what the cluster was at the time. */
  ghost predicate Truthful(w: Protocol.World, history: nat -> Cluster, from: nat, to: nat, a: Ask) {
    match a
    case ListAsk(at, listed) => from <= at <= to && (listed.Some? ==> listed.value == history(at))
    case ParseAsk(file, answer) => answer == file.meaning || answer.Unparsable?
    case InfoAsk(at, id, info) => from <= at <= to && (info.Some? ==> info.value == InfoIn(history(at), id))
    case PlanAsk(at, job, plan) => from <= at <= to && (plan.Planned? ==> plan.diff == w.plan(job, RegIn(history(at), job.id)))
  }

  ghost predicate AllTruthful(w: Protocol.World, history: nat -> Cluster, from: nat, to: nat, talk: seq<Ask>) {
    forall a :: a in talk ==> Truthful(w, history, from, to, a)
  }

  lemma TruthfulMore(w: Protocol.World, history: nat -> Cluster, from: nat, mid: nat, to: nat, talk: seq<Ask>, more: seq<Ask>)
    requires from <= mid <= to && AllTruthful(w, history, from, mid, talk) && AllTruthful(w, history, mid, to, more)
    ensures AllTruthful(w, history, from, to, talk + more)
  {
    forall a | a in talk + more ensures Truthful(w, history, from, to, a) {
      assert a in talk ==> Truthful(w, history, from, mid, a);
      assert a in more ==> Truthful(w, history, mid, to, a);
    }
  }

  /** Nomad as a check sees it. Time passes before every answer, and every request may fail. */
  class NomadReader {
    const w: Protocol.World
    const history: nat -> Cluster
    var moment: nat
    var asks: seq<Ask>

    constructor (w: Protocol.World, history: nat -> Cluster)
      ensures this.w == w && this.history == history && asks == []
    {
      this.w, this.history, moment, asks := w, history, 0, [];
    }

    method Pass()
      modifies `moment
      ensures moment >= old(moment)
    {
      var d: int := *;
      if d > 0 {
        moment := moment + d;
      }
    }

    method List() returns (listed: Option<Cluster>)
      modifies this
      ensures moment >= old(moment) && asks == old(asks) + [ListAsk(moment, listed)]
      ensures listed.Some? ==> listed.value == history(moment)
    {
      Pass();
      var fails: bool := *;
      listed := if fails then None else Some(history(moment));
      asks := asks + [ListAsk(moment, listed)];
    }

    method Parse(file: SourceFile) returns (answer: ParsedFile)
      modifies this
      ensures moment >= old(moment) && asks == old(asks) + [ParseAsk(file, answer)]
      ensures answer == file.meaning || answer.Unparsable?
    {
      Pass();
      var fails: bool := *;
      answer := if fails then Unparsable else file.meaning;
      asks := asks + [ParseAsk(file, answer)];
    }

    method Info(jobID: string) returns (info: Option<Info>)
      modifies this
      ensures moment >= old(moment) && asks == old(asks) + [InfoAsk(moment, jobID, info)]
      ensures info.Some? ==> info.value == InfoIn(history(moment), jobID)
    {
      Pass();
      var fails: bool := *;
      info := if fails then None else Some(InfoIn(history(moment), jobID));
      asks := asks + [InfoAsk(moment, jobID, info)];
    }

    method Plan(job: Job) returns (plan: PlanResult)
      modifies this
      ensures moment >= old(moment) && asks == old(asks) + [PlanAsk(moment, job, plan)]
      ensures plan.Planned? ==> plan.diff == w.plan(job, RegIn(history(moment), job.id))
    {
      Pass();
      var fails: bool := *;
      plan := if fails then PlanError else Planned(w.plan(job, RegIn(history(moment), job.id)));
      asks := asks + [PlanAsk(moment, job, plan)];
    }
  }

  // ---- What a check makes of the answers ----

  /** What is stored about one job of the repository, given what Nomad knows of it and the plan. */
  function DriftOf(setup: Setup, e: Entry, info: Info, plan: PlanResult): set<Drift> {
    var c := CheckEntry(setup.w.cfg, e, info, plan);
    if c.None? then {}
    else if c.value.creation then {Absent(e.job.id, e.file, info.Found?)}
    else if c.value.change.ManagedMetaOnly? && !setup.countMetaOnly then {}
    else if plan.Planned? && plan.diff.Some? then {Changed(e.job.id, e.file, setup.kept(plan.diff.value))}
    else {}
  }

  function StubOf(c: Cluster, jobID: string): Stub
    requires jobID in c.jobs
  {
    Stub(jobID, c.jobs[jobID].status, MetaOf(c.jobs[jobID].reg.spec))
  }

  function OrphanDrift(setup: Setup, parsed: set<string>, listed: Cluster): set<Drift> {
    set j | j in listed.jobs && IsOrphan(setup.w.cfg, setup.w.glob, parsed, StubOf(listed, j)) :: Orphaned(j, listed.jobs[j].status)
  }

  /** What asking about an entry gives; None when this is not how a check asks about it. */
  function EntryTalk(setup: Setup, e: Entry, talk: seq<Ask>): Option<set<Drift>> {
    if talk == [] || !talk[0].InfoAsk? || talk[0].jobID != e.job.id then None
    else if talk[0].info.None? then
      if |talk| == 1 then Some({}) else None
    else if TreatedAsMissing(setup.w.cfg, talk[0].info.value) then
      if |talk| == 1 then Some(DriftOf(setup, e, talk[0].info.value, PlanError)) else None
    else if |talk| != 2 || !talk[1].PlanAsk? || talk[1].job != JobToApply(e.job, talk[0].info.value) then None
    else Some(DriftOf(setup, e, talk[0].info.value, talk[1].plan))
  }

  /** The files as these requests parsed them; None when they are not those a check makes. */
  function ParseTalk(files: seq<SourceFile>, talk: seq<Ask>): Option<seq<RepoFile>> {
    if files == [] then (if talk == [] then Some([]) else None)
    else
      var front, f := files[..|files| - 1], files[|files| - 1];
      if !f.hasJob then
        var before := ParseTalk(front, talk);
        if before.Some? then Some(before.value + [RepoFile(f.name, NotAJob)]) else None
      else if talk == [] || !talk[|talk| - 1].ParseAsk? || talk[|talk| - 1].file != f then None
      else
        var before := ParseTalk(front, talk[..|talk| - 1]);
        if before.Some? then Some(before.value + [RepoFile(f.name, talk[|talk| - 1].answer)]) else None
  }

  /** A job is asked about once, and planned, as it would be applied, exactly if that was answered and it does not
      count as missing; nothing else is asked. */
  lemma EntryAsks(setup: Setup, e: Entry, talk: seq<Ask>)
    ensures EntryTalk(setup, e, talk).Some?
            <==> exists at, info ::
                   if info == None || TreatedAsMissing(setup.w.cfg, info.value) then talk == [InfoAsk(at, e.job.id, info)]
                   else exists later, plan ::
                          talk == [InfoAsk(at, e.job.id, info), PlanAsk(later, JobToApply(e.job, info.value), plan)]
  {
    hide TreatedAsMissing;
    hide JobToApply;
    hide DriftOf;
    if EntryTalk(setup, e, talk).Some? {
      var info := talk[0].info;
      assert talk[0] == InfoAsk(talk[0].at, e.job.id, info);
      if info == None || TreatedAsMissing(setup.w.cfg, info.value) {
        assert talk == [InfoAsk(talk[0].at, e.job.id, info)];
      } else {
        assert talk == [InfoAsk(talk[0].at, e.job.id, info), PlanAsk(talk[1].at, JobToApply(e.job, info.value), talk[1].plan)];
      }
    }
  }

  /** The files with a job stanza. */
  function WithJobs(files: seq<SourceFile>): seq<SourceFile> {
    if files == [] then []
    else WithJobs(files[..|files| - 1]) + if files[|files| - 1].hasJob then [files[|files| - 1]] else []
  }

  /** Exactly those are parsed, each once and in order. */
  lemma {:induction false} ParseAsks(files: seq<SourceFile>, talk: seq<Ask>)
    ensures ParseTalk(files, talk).Some?
            <==> |talk| == |WithJobs(files)| && forall i :: 0 <= i < |talk| ==> talk[i].ParseAsk? && talk[i].file == WithJobs(files)[i]
  {
    if files != [] {
      var front, f := files[..|files| - 1], files[|files| - 1];
      if !f.hasJob {
        ParseAsks(front, talk);
      } else if talk != [] {
        ParseAsks(front, talk[..|talk| - 1]);
      }
    }
  }

  // One entry and what was asked about it.
  datatype Look = Look(e: Entry, talk: seq<Ask>)

  function LookTalk(looks: seq<Look>): seq<Ask> {
    if looks == [] then [] else LookTalk(looks[..|looks| - 1]) + looks[|looks| - 1].talk
  }

  function LookDrift(setup: Setup, looks: seq<Look>): set<Drift> {
    if looks == [] then {}
    else
      var l := looks[|looks| - 1];
      LookDrift(setup, looks[..|looks| - 1]) + EntryTalk(setup, l.e, l.talk).GetOr({})
  }

  /** The looks are at exactly these entries, each once, and are how a check asks about them. */
  ghost predicate LooksAt(setup: Setup, looks: seq<Look>, entries: map<string, Entry>) {
    && |looks| == |entries|
    && (forall i :: 0 <= i < |looks| ==> looks[i].e.job.id in entries && entries[looks[i].e.job.id] == looks[i].e
                                          && EntryTalk(setup, looks[i].e, looks[i].talk).Some?)
    && forall i, j :: 0 <= i < j < |looks| ==> looks[i].e.job.id != looks[j].e.job.id
  }

  /** A full check: the files parsed, each entry looked at, and what that and the job list show. */
  ghost predicate Compared(setup: Setup, files: seq<SourceFile>, listed: Option<Cluster>, parses: seq<Ask>, looks: seq<Look>,
                           found: set<Drift>) {
    ParseTalk(files, parses).Some?
    && (var repo := ParseTalk(files, parses).value;
        LooksAt(setup, looks, EntriesOf(setup.w.cfg, setup.w.glob, repo))
        && found == LookDrift(setup, looks) + if listed.Some? then OrphanDrift(setup, ParsedIDs(repo), listed.value) else {})
  }

  // ---- When the cluster stands still ----

  /** The files as they are. */
  function Contents(files: seq<SourceFile>): seq<RepoFile> {
    if files == [] then []
    else
      var f := files[|files| - 1];
      Contents(files[..|files| - 1]) + [RepoFile(f.name, if f.hasJob then f.meaning else NotAJob)]
  }

  function EntryDrift(setup: Setup, e: Entry, c: Cluster): set<Drift> {
    var info := InfoIn(c, e.job.id);
    DriftOf(setup, e, info, Planned(setup.w.plan(JobToApply(e.job, info), RegIn(c, e.job.id))))
  }

  /** What there is to find in a cluster that stands still: every difference between it and the files. */
  ghost function FullDiffs(setup: Setup, files: seq<SourceFile>, c: Cluster): set<Drift> {
    var repo := Contents(files);
    var entries := EntriesOf(setup.w.cfg, setup.w.glob, repo);
    (set id, d | id in entries && d in EntryDrift(setup, entries[id], c) :: d) + OrphanDrift(setup, ParsedIDs(repo), c)
  }

  lemma StoodStill(history: nat -> Cluster, t0: nat, u: nat, t: nat)
    requires Coherent(history) && t0 <= u <= t && history(t).index == history(t0).index
    ensures history(u).jobs == history(t).jobs
  {
    assert history(t0).index <= history(u).index <= history(t).index;
  }

  lemma {:induction false} ParsesRight(files: seq<SourceFile>, talk: seq<Ask>)
    requires ParseTalk(files, talk).Some? && AllAnswered(talk)
    ensures ParseTalk(files, talk).value == Contents(files)
  {
    if files != [] {
      var front, f := files[..|files| - 1], files[|files| - 1];
      if f.hasJob {
        assert talk[|talk| - 1] in talk && forall a :: a in talk[..|talk| - 1] ==> a in talk;
        ParsesRight(front, talk[..|talk| - 1]);
      } else {
        ParsesRight(front, talk);
      }
    }
  }

  /** The plan does not matter for a job that counts as missing. */
  lemma PlanUnused(setup: Setup, e: Entry, info: Info, a: PlanResult, b: PlanResult)
    requires TreatedAsMissing(setup.w.cfg, info)
    ensures DriftOf(setup, e, info, a) == DriftOf(setup, e, info, b)
  {
  }

  /** A look whose two requests were answered finds what there is, although they were answered at different
      times. */
  lemma LookIsRight(setup: Setup, history: nat -> Cluster, t0: nat, t1: nat, t: nat, l: Look)
    requires Coherent(history) && t0 <= t1 <= t && history(t).index == history(t0).index
    requires EntryTalk(setup, l.e, l.talk).Some? && AllAnswered(l.talk) && AllTruthful(setup.w, history, t0, t1, l.talk)
    ensures EntryTalk(setup, l.e, l.talk).value == EntryDrift(setup, l.e, history(t))
  {
    hide DriftOf;
    var id := l.e.job.id;
    assert l.talk[0] in l.talk && Truthful(setup.w, history, t0, t1, l.talk[0]) && !FailedAsk(l.talk[0]);
    StoodStill(history, t0, l.talk[0].at, t);
    var info := InfoIn(history(t), id);
    assert l.talk[0].info.value == info;
    if TreatedAsMissing(setup.w.cfg, info) {
      PlanUnused(setup, l.e, info, PlanError, Planned(setup.w.plan(JobToApply(l.e.job, info), RegIn(history(t), id))));
    } else {
      assert l.talk[1] in l.talk && Truthful(setup.w, history, t0, t1, l.talk[1]) && !FailedAsk(l.talk[1]);
      StoodStill(history, t0, l.talk[1].at, t);
      assert JobToApply(l.e.job, info).id == id;
    }
  }

  lemma {:induction false} LookDriftIsUnion(setup: Setup, looks: seq<Look>, d: Drift)
    ensures d in LookDrift(setup, looks)
            <==> exists i :: 0 <= i < |looks| && d in EntryTalk(setup, looks[i].e, looks[i].talk).GetOr({})
  {
    if looks != [] {
      var front := looks[..|looks| - 1];
      LookDriftIsUnion(setup, front, d);
      assert forall i :: 0 <= i < |front| ==> looks[i] == front[i];
    }
  }

  lemma {:induction false} InLookTalk(looks: seq<Look>, i: nat, a: Ask)
    requires i < |looks| && a in looks[i].talk
    ensures a in LookTalk(looks)
  {
    if i < |looks| - 1 {
      InLookTalk(looks[..|looks| - 1], i, a);
    }
  }

  /** As many different entries as there are: each entry is looked at. */
  lemma AllLookedAt(setup: Setup, looks: seq<Look>, entries: map<string, Entry>, id: string)
    requires LooksAt(setup, looks, entries) && id in entries
    ensures exists i :: 0 <= i < |looks| && looks[i].e == entries[id]
  {
    var ids := set i | 0 <= i < |looks| :: looks[i].e.job.id;
    Cardinal(looks);
    assert ids <= entries.Keys;
    Filled(ids, entries.Keys);
    assert id in ids;
  }

  lemma {:induction false} Cardinal(looks: seq<Look>)
    requires forall i, j :: 0 <= i < j < |looks| ==> looks[i].e.job.id != looks[j].e.job.id
    ensures |set i | 0 <= i < |looks| :: looks[i].e.job.id| == |looks|
  {
    if looks != [] {
      var front, last := looks[..|looks| - 1], looks[|looks| - 1].e.job.id;
      Cardinal(front);
      var before := set i | 0 <= i < |front| :: front[i].e.job.id;
      assert forall i :: 0 <= i < |front| ==> front[i] == looks[i];
      assert (set i | 0 <= i < |looks| :: looks[i].e.job.id) == before + {last};
    }
  }

  lemma Filled(a: set<string>, b: set<string>)
    requires a <= b && |a| == |b|
    ensures a == b
  {
    assert a + (b - a) == b;
    assert |b - a| == 0;
  }

  lemma LooksAreRight(setup: Setup, history: nat -> Cluster, t0: nat, t1: nat, t: nat, looks: seq<Look>, entries: map<string, Entry>)
    requires Coherent(history) && t0 <= t1 <= t && history(t).index == history(t0).index
    requires LooksAt(setup, looks, entries) && AllAnswered(LookTalk(looks)) && AllTruthful(setup.w, history, t0, t1, LookTalk(looks))
    ensures LookDrift(setup, looks) == set id, d | id in entries && d in EntryDrift(setup, entries[id], history(t)) :: d
  {
    hide EntryTalk;
    hide EntryDrift;
    hide Truthful;
    hide Coherent;
    forall i | 0 <= i < |looks|
      ensures EntryTalk(setup, looks[i].e, looks[i].talk) == Some(EntryDrift(setup, looks[i].e, history(t)))
    {
      forall a | a in looks[i].talk ensures a in LookTalk(looks) {
        InLookTalk(looks, i, a);
      }
      LookIsRight(setup, history, t0, t1, t, looks[i]);
    }
    var all := set id, d | id in entries && d in EntryDrift(setup, entries[id], history(t)) :: d;
    forall d ensures d in LookDrift(setup, looks) <==> d in all {
      LookDriftIsUnion(setup, looks, d);
      if d in all {
        var id :| id in entries && d in EntryDrift(setup, entries[id], history(t));
        AllLookedAt(setup, looks, entries, id);
      }
    }
  }

  lemma SameJobsSameOrphans(setup: Setup, parsed: set<string>, a: Cluster, b: Cluster)
    requires a.jobs == b.jobs
    ensures OrphanDrift(setup, parsed, a) == OrphanDrift(setup, parsed, b)
  {
    hide IsOrphan;
    assert forall j :: j in a.jobs ==> StubOf(a, j) == StubOf(b, j);
  }

  /** A full check that was answered in full found all there is, and still does as long as the index is the
      one it listed, whatever happened to the cluster while it asked. */
  lemma ComparedIsFull(setup: Setup, history: nat -> Cluster, t0: nat, t1: nat, t: nat, files: seq<SourceFile>,
                       parses: seq<Ask>, looks: seq<Look>, found: set<Drift>)
    requires Coherent(history) && t0 <= t1 <= t && history(t).index == history(t0).index
    requires Compared(setup, files, Some(history(t0)), parses, looks, found)
    requires AllAnswered(parses) && AllAnswered(LookTalk(looks)) && AllTruthful(setup.w, history, t0, t1, LookTalk(looks))
    ensures found == FullDiffs(setup, files, history(t))
  {
    ParsesRight(files, parses);
    var repo := Contents(files);
    LooksAreRight(setup, history, t0, t1, t, looks, EntriesOf(setup.w.cfg, setup.w.glob, repo));
    StoodStill(history, t0, t0, t);
    SameJobsSameOrphans(setup, ParsedIDs(repo), history(t0), history(t));
  }

  // ---- What a complete check reports ----

  /** The file defines the job, and the engine watches it by name or by its tag. */
  ghost predicate Defines(setup: Setup, f: SourceFile, job: Job) {
    f.hasJob && f.meaning == Parsed(job) && job.id != ""
    && (setup.w.glob(job.id) || KeyIs(setup.w.cfg, MetaOf(job), "_managed", "true"))
  }

  /** And is the last one to define it. */
  ghost predicate DefinedAt(setup: Setup, files: seq<SourceFile>, i: nat, job: Job) {
    i < |files| && Defines(setup, files[i], job)
    && forall k, other :: i < k < |files| && Defines(setup, files[k], other) ==> other.id != job.id
  }

  lemma LastWanted(setup: Setup, files: seq<SourceFile>)
    requires files != []
    ensures var front, f := files[..|files| - 1], files[|files| - 1];
            EntriesOf(setup.w.cfg, setup.w.glob, Contents(files))
            == (if f.hasJob && f.meaning.Parsed? && Defines(setup, f, f.meaning.job)
                then EntriesOf(setup.w.cfg, setup.w.glob, Contents(front))
                       [f.meaning.job.id := Entry(f.meaning.job, f.name, setup.w.glob(f.meaning.job.id))]
                else EntriesOf(setup.w.cfg, setup.w.glob, Contents(front)))
  {
    var front, f, all := files[..|files| - 1], files[|files| - 1], Contents(files);
    assert all[..|all| - 1] == Contents(front);
    if f.hasJob && f.meaning.Parsed? {
      ManagedExactly(setup.w.cfg, MetaOf(f.meaning.job));
    }
    hide Managed;
    hide KeyIs;
  }

  /** The entry of a job comes from the last file that defines it. */
  lemma {:induction false} EntryIsLast(setup: Setup, files: seq<SourceFile>, id: string)
    ensures var entries := EntriesOf(setup.w.cfg, setup.w.glob, Contents(files));
            (forall i: nat, job :: DefinedAt(setup, files, i, job) && job.id == id ==>
               id in entries && entries[id] == Entry(job, files[i].name, setup.w.glob(id)))
            && (id in entries ==> exists i: nat, job :: DefinedAt(setup, files, i, job) && job.id == id)
  {
    if files != [] {
      var front, f := files[..|files| - 1], files[|files| - 1];
      EntryIsLast(setup, front, id);
      LastWanted(setup, files);
      hide Defines;
      hide EntriesOf;
      hide Contents;
      var entries := EntriesOf(setup.w.cfg, setup.w.glob, Contents(files));
      forall i: nat, job | DefinedAt(setup, files, i, job) && job.id == id
        ensures id in entries && entries[id] == Entry(job, files[i].name, setup.w.glob(id))
      {
        MeaningOf(setup, files[i], job);
        if i < |front| {
          assert DefinedAt(setup, front, i, job) by {
            assert forall k :: 0 <= k < |front| ==> front[k] == files[k];
          }
          if f.hasJob && f.meaning.Parsed? && Defines(setup, f, f.meaning.job) {
            assert files[|front|] == f && f.meaning.job.id != id;
          }
        }
      }
      if id in entries {
        if f.hasJob && f.meaning.Parsed? && Defines(setup, f, f.meaning.job) && f.meaning.job.id == id {
          assert DefinedAt(setup, files, |front|, f.meaning.job);
        } else {
          var i: nat, job :| DefinedAt(setup, front, i, job) && job.id == id;
          assert DefinedAt(setup, files, i, job) by {
            forall k, other | i < k < |files| && Defines(setup, files[k], other) ensures other.id != id {
              MeaningOf(setup, files[k], other);
              if k < |front| {
                assert front[k] == files[k];
              }
            }
          }
        }
      }
    }
  }

  lemma MeaningOf(setup: Setup, f: SourceFile, job: Job)
    requires Defines(setup, f, job)
    ensures f.hasJob && f.meaning == Parsed(job)
  {
  }

  /** The plan of the definition as it would be applied shows a change, of a dead job one with content, and not
      just of the engine's own keys unless these are counted. */
  ghost predicate PlanShows(setup: Setup, job: Job, live: Protocol.Live, d: JobDiff<Field>) {
    setup.w.plan(job.(stop := job.stop || live.reg.spec.stop), Some(live.reg)) == Some(d)
    && d.kind != "" && d.kind != "None" && (live.status == "dead" ==> HasContentDiff(Some(d)))
    && (setup.countMetaOnly || !OnlyOwnKeys(d, AutoscaledGroups(job), setup.w.cfg.metaPrefix))
  }

  /** The job counts as missing: it is not there, or dead with dead jobs not included. */
  ghost predicate CountsMissing(setup: Setup, c: Cluster, jobID: string) {
    jobID !in c.jobs || (c.jobs[jobID].status == "dead" && !setup.w.cfg.includeDeadJobs)
  }

  /** What there is to report, told by the files, the cluster and the plans. */
  ghost predicate Reported(setup: Setup, files: seq<SourceFile>, c: Cluster, d: Drift) {
    match d
    case Absent(jobID, file, dead) =>
      CountsMissing(setup, c, jobID) && (dead <==> jobID in c.jobs)
      && exists i: nat, job :: DefinedAt(setup, files, i, job) && job.id == jobID && files[i].name == file
    case Changed(jobID, file, kept) =>
      !CountsMissing(setup, c, jobID)
      && exists i: nat, job, plan :: DefinedAt(setup, files, i, job) && job.id == jobID && files[i].name == file
                                     && PlanShows(setup, job, c.jobs[jobID], plan) && kept == setup.kept(plan)
    case Orphaned(jobID, status) =>
      jobID in c.jobs && c.jobs[jobID].status == status && (status != "dead" || setup.w.cfg.includeDeadJobs)
      && (setup.w.glob(jobID) || KeyIs(setup.w.cfg, MetaOf(c.jobs[jobID].reg.spec), "_managed", "true"))
      && (jobID != "" ==> forall f :: f in files && f.hasJob && f.meaning.Parsed? ==> f.meaning.job.id != jobID)
  }

  /** What is found about one entry. */
  lemma EntryReports(setup: Setup, e: Entry, c: Cluster, d: Drift)
    ensures d in EntryDrift(setup, e, c)
            <==> d.jobID == e.job.id && !d.Orphaned? && d.file == e.file
                 && (d.Absent? ==> CountsMissing(setup, c, e.job.id) && (d.dead <==> e.job.id in c.jobs))
                 && (d.Changed? ==> !CountsMissing(setup, c, e.job.id)
                                    && exists plan :: PlanShows(setup, e.job, c.jobs[e.job.id], plan) && d.plan == setup.kept(plan))
  {
    hide HasContentDiff;
    hide Classify;
    hide OnlyOwnKeys;
    var id := e.job.id;
    if !CountsMissing(setup, c, id) {
      var live := c.jobs[id];
      var plan := setup.w.plan(e.job.(stop := e.job.stop || live.reg.spec.stop), Some(live.reg));
      assert JobToApply(e.job, InfoIn(c, id)) == e.job.(stop := e.job.stop || live.reg.spec.stop);
      if plan.Some? && plan.value.kind != "" && plan.value.kind != "None" {
        OwnKeysExactly(plan.value, AutoscaledGroups(e.job), setup.w.cfg.metaPrefix);
      }
    }
  }

  lemma OwnKeysExactly(d: JobDiff<Field>, autoscaled: set<string>, metaPrefix: string)
    requires d.kind != "" && d.kind != "None"
    ensures OnlyOwnKeys(d, autoscaled, metaPrefix) <==> Classify(Some(d), autoscaled, metaPrefix).ManagedMetaOnly?
  {
    ClassifiedExactly(d, autoscaled, metaPrefix);
    hide SomethingElse;
    hide SomeField;
    hide Classify;
  }

  lemma {:induction false} ParsedExactly(files: seq<SourceFile>, id: string)
    ensures id in ParsedIDs(Contents(files))
            <==> id != "" && exists f :: f in files && f.hasJob && f.meaning.Parsed? && f.meaning.job.id == id
  {
    if files != [] {
      var front, f := files[..|files| - 1], files[|files| - 1];
      ParsedExactly(front, id);
      assert files == front + [f];
      var last := RepoFile(f.name, if f.hasJob then f.meaning else NotAJob);
      assert Contents(files) == Contents(front) + [last];
      assert forall r :: r in Contents(files) <==> r in Contents(front) || r == last;
    }
  }

  lemma OrphanReports(setup: Setup, files: seq<SourceFile>, c: Cluster, d: Drift)
    ensures d in OrphanDrift(setup, ParsedIDs(Contents(files)), c) <==> d.Orphaned? && Reported(setup, files, c, d)
  {
    if d.Orphaned? && d.jobID in c.jobs {
      ParsedExactly(files, d.jobID);
      ManagedExactly(setup.w.cfg, MetaOf(c.jobs[d.jobID].reg.spec));
    }
    hide ParsedIDs;
    hide Managed;
    hide KeyIs;
  }

  /** What a check finds in a cluster that stands still is exactly what there is to report: jobs the files
      define that are missing, jobs whose plan shows a change, with that plan, and jobs no file defines. */
  lemma ReportsExactly(setup: Setup, files: seq<SourceFile>, c: Cluster, d: Drift)
    ensures d in FullDiffs(setup, files, c) <==> Reported(setup, files, c, d)
  {
    var entries := EntriesOf(setup.w.cfg, setup.w.glob, Contents(files));
    OrphanReports(setup, files, c, d);
    EntriesMean(setup.w.cfg, setup.w.glob, Contents(files));
    EntryIsLast(setup, files, d.jobID);
    forall id | id in entries ensures d in EntryDrift(setup, entries[id], c) ==> id == d.jobID {
      EntryReports(setup, entries[id], c, d);
    }
    if d.jobID in entries {
      EntryReports(setup, entries[d.jobID], c, d);
    }
    hide EntryDrift;
    hide EntriesOf;
    hide Contents;
    hide DefinedAt;
    hide PlanShows;
    hide OrphanDrift;
    hide CountsMissing;
  }

  // ---- The check ----

  class Checker {
    const setup: Setup
    const repoAt: string -> seq<SourceFile>
    const client: NomadReader
    const skip: SkipState
    var diffs: set<Drift>
    // What the last full check asked.
    ghost var last: seq<Ask>

    /** The stored diffs are all there is to find as long as the index is the one stored, provided the last
        full check was answered in full. */
    ghost predicate Valid()
      reads this, client, skip
    {
      Coherent(client.history) && client.w == setup.w
      && (AllAnswered(last) ==> UpToDateFrom(client.moment, skip.lastNomadIndex, skip.lastCommit))
    }

    ghost predicate UpToDateFrom(from: nat, index: nat, commit: string)
      reads this
    {
      forall t :: t >= from && client.history(t).index == index ==> diffs == FullDiffs(setup, repoAt(commit), client.history(t))
    }

    constructor (setup: Setup, repoAt: string -> seq<SourceFile>, client: NomadReader, skip: SkipState)
      requires Coherent(client.history) && client.w == setup.w && skip.lastNomadIndex == 0
      ensures Valid() && diffs == {}
      ensures this.setup == setup && this.repoAt == repoAt && this.client == client && this.skip == skip
    {
      this.setup, this.repoAt, this.client, this.skip := setup, repoAt, client, skip;
      diffs, last := {}, [];
    }

    /** Parses the repository's files that have a job. */
    method ParseAll(files: seq<SourceFile>) returns (repo: seq<RepoFile>, ghost parses: seq<Ask>)
      modifies client
      ensures client.moment >= old(client.moment) && client.asks == old(client.asks) + parses
      ensures ParseTalk(files, parses) == Some(repo)
      ensures AllTruthful(client.w, client.history, old(client.moment), client.moment, parses)
    {
      repo, parses := [], [];
      for i := 0 to |files|
        invariant client.moment >= old(client.moment) && client.asks == old(client.asks) + parses
        invariant ParseTalk(files[..i], parses) == Some(repo)
        invariant AllTruthful(client.w, client.history, old(client.moment), client.moment, parses)
      {
        var f := files[i];
        assert files[..i + 1][..i] == files[..i];
        if !f.hasJob {
          repo := repo + [RepoFile(f.name, NotAJob)];
          continue;
        }
        var answer := client.Parse(f);
        repo := repo + [RepoFile(f.name, answer)];
        assert (parses + [ParseAsk(f, answer)])[..|parses|] == parses;
        parses := parses + [ParseAsk(f, answer)];
      }
      assert files[..|files|] == files;
    }

    /** Looks at one entry: reads its job, and plans it unless it counts as missing. */
    method LookAt(e: Entry) returns (found: set<Drift>, ghost talk: seq<Ask>)
      modifies client
      ensures client.moment >= old(client.moment) && client.asks == old(client.asks) + talk
      ensures EntryTalk(setup, e, talk) == Some(found)
      ensures AllTruthful(client.w, client.history, old(client.moment), client.moment, talk)
    {
      hide DriftOf;
      var info := client.Info(e.job.id);
      ghost var at := client.moment;
      talk := [InfoAsk(at, e.job.id, info)];
      if info.None? {
        return {}, talk;
      }
      if TreatedAsMissing(setup.w.cfg, info.value) {
        return DriftOf(setup, e, info.value, PlanError), talk;
      }
      var job := JobToApply(e.job, info.value);
      var plan := client.Plan(job);
      TruthfulMore(client.w, client.history, old(client.moment), at, client.moment, talk, [PlanAsk(client.moment, job, plan)]);
      talk := talk + [PlanAsk(client.moment, job, plan)];
      return DriftOf(setup, e, info.value, plan), talk;
    }

    /** Looks at every entry, in any order. */
    method LookAtAll(entries: map<string, Entry>) returns (found: set<Drift>, ghost looks: seq<Look>)
      requires forall id :: id in entries ==> entries[id].job.id == id
      modifies client
      ensures client.moment >= old(client.moment) && client.asks == old(client.asks) + LookTalk(looks)
      ensures LooksAt(setup, looks, entries) && found == LookDrift(setup, looks)
      ensures AllTruthful(client.w, client.history, old(client.moment), client.moment, LookTalk(looks))
    {
      hide *;
      found, looks := {}, [];
      ghost var said := client.asks;
      var left := entries.Keys;
      NoLooks(setup, client.w, client.history, client.moment, entries);
      while left != {}
        invariant left <= entries.Keys
        invariant LooksAt(setup, looks, entries - left) && found == LookDrift(setup, looks)
        invariant client.moment >= old(client.moment) && client.asks == said + LookTalk(looks)
        invariant AllTruthful(client.w, client.history, old(client.moment), client.moment, LookTalk(looks))
        decreases |left|
      {
        var id :| id in left;
        ghost var before := client.moment;
        var drift;
        ghost var talk;
        drift, talk := LookAt(entries[id]);
        TruthfulMore(client.w, client.history, old(client.moment), before, client.moment, LookTalk(looks), talk);
        OneMoreLook(setup, looks, Look(entries[id], talk), entries, left, said);
        looks := looks + [Look(entries[id], talk)];
        found := found + drift;
        left := left - {id};
      }
      assert entries - {} == entries;
    }

    /** The full check: parses the files, looks at the jobs they define, and finds the listed jobs that no
        file defines. */
    method FullCheck(files: seq<SourceFile>, listed: Option<Cluster>)
        returns (found: set<Drift>, ghost parses: seq<Ask>, ghost looks: seq<Look>)
      modifies client
      ensures client.moment >= old(client.moment) && client.asks == old(client.asks) + parses + LookTalk(looks)
      ensures Compared(setup, files, listed, parses, looks, found)
      ensures AllTruthful(client.w, client.history, old(client.moment), client.moment, LookTalk(looks))
    {
      hide AllTruthful;
      hide LooksAt;
      hide EntriesOf;
      hide ParsedIDs;
      hide OrphanDrift;
      var repo;
      repo, parses := ParseAll(files);
      ghost var mid := client.moment;
      EntriesMean(setup.w.cfg, setup.w.glob, repo);
      var entries, parsed := ParseCandidates(setup.w.cfg, setup.w.glob, repo);
      found, looks := LookAtAll(entries);
      TruthfulLater(client.w, client.history, old(client.moment), mid, client.moment, LookTalk(looks));
      if listed.Some? {
        found := found + OrphanDrift(setup, parsed, listed.value);
      }
    }

    /** Compares the repository at a commit with the cluster, unless the job list shows the index and the
        commit of the last full check. A check that is skipped leaves stored diffs that are all a full one
        would have found, provided the last full one was answered in full. */
    method Check(commit: string) returns (ran: bool, ghost listed: Option<Cluster>, ghost parses: seq<Ask>, ghost looks: seq<Look>)
      requires Valid()
      modifies this, client, skip
      ensures Valid()
      ensures ran <==> !(listed.Some? && listed.value.index == old(skip.lastNomadIndex) && commit == old(skip.lastCommit))
      ensures exists at :: old(client.moment) <= at && (listed.Some? ==> listed.value == client.history(at))
                           && client.asks == old(client.asks) + [ListAsk(at, listed)] + parses + LookTalk(looks)
                           && (ran ==> last == [ListAsk(at, listed)] + parses + LookTalk(looks))
      ensures !ran ==> parses == [] && looks == [] && diffs == old(diffs) && last == old(last)
                       && skip.lastNomadIndex == old(skip.lastNomadIndex) && skip.lastCommit == old(skip.lastCommit)
      ensures !ran && AllAnswered(last) ==> diffs == FullDiffs(setup, repoAt(commit), client.history(client.moment))
      ensures ran ==> Compared(setup, repoAt(commit), listed, parses, looks, diffs)
                      && skip.lastCommit == commit
                      && skip.lastNomadIndex == if listed.Some? then listed.value.index else old(skip.lastNomadIndex)
    {
      hide FullDiffs;
      hide Coherent;
      hide Compared;
      hide AllAnswered;
      hide AllTruthful;
      var list := client.List();
      listed, parses, looks := list, [], [];
      ghost var at := client.moment;
      assert LookTalk([]) == [] && client.asks == old(client.asks) + [ListAsk(at, listed)] + [] + [];
      if skip.Skips(if list.Some? then Some(list.value.index) else None, commit) {
        return false, listed, parses, looks;
      }
      var found;
      found, parses, looks := FullCheck(repoAt(commit), list);
      last := [ListAsk(at, listed)] + parses + LookTalk(looks);
      diffs := found;
      skip.Store(if list.Some? then Some(list.value.index) else None, commit);
      CheckIsFull(at, client.moment, commit, listed, parses, looks);
      return true, listed, parses, looks;
    }

    lemma CheckIsFull(t0: nat, t1: nat, commit: string, listed: Option<Cluster>, parses: seq<Ask>, looks: seq<Look>)
      requires Coherent(client.history) && t0 <= t1 && (listed.Some? ==> listed.value == client.history(t0))
      requires Compared(setup, repoAt(commit), listed, parses, looks, diffs) && client.w == setup.w
      requires AllTruthful(client.w, client.history, t0, t1, LookTalk(looks))
      ensures AllAnswered([ListAsk(t0, listed)] + parses + LookTalk(looks)) && listed.Some? ==>
                UpToDateFrom(t1, listed.value.index, commit)
      ensures AllAnswered([ListAsk(t0, listed)] + parses + LookTalk(looks)) ==> listed.Some?
    {
      var talk := [ListAsk(t0, listed)] + parses + LookTalk(looks);
      if AllAnswered(talk) {
        assert talk[0] == ListAsk(t0, listed) && talk[0] in talk;
        assert AllAnswered(parses) && AllAnswered(LookTalk(looks)) by {
          assert forall a :: a in parses || a in LookTalk(looks) ==> a in talk;
        }
        hide AllTruthful;
        hide Compared;
        hide FullDiffs;
        forall t | t >= t1 && client.history(t).index == listed.value.index
          ensures diffs == FullDiffs(setup, repoAt(commit), client.history(t))
        {
          ComparedIsFull(setup, client.history, t0, t1, t, repoAt(commit), parses, looks, diffs);
        }
      }
    }
  }

  lemma NoLooks(setup: Setup, w: Protocol.World, history: nat -> Cluster, t: nat, entries: map<string, Entry>)
    ensures LookTalk([]) == [] && AllTruthful(w, history, t, t, LookTalk([])) && LookDrift(setup, []) == {}
    ensures LooksAt(setup, [], entries - entries.Keys)
  {
    assert entries - entries.Keys == map[];
  }

  lemma TruthfulLater(w: Protocol.World, history: nat -> Cluster, from: nat, mid: nat, to: nat, talk: seq<Ask>)
    requires from <= mid <= to && AllTruthful(w, history, mid, to, talk)
    ensures AllTruthful(w, history, from, to, talk)
  {
  }

  lemma OneMoreLook(setup: Setup, looks: seq<Look>, l: Look, entries: map<string, Entry>, left: set<string>,
                    said: seq<Ask>)
    requires LooksAt(setup, looks, entries - left) && EntryTalk(setup, l.e, l.talk).Some?
    requires l.e.job.id in left && l.e.job.id in entries && entries[l.e.job.id] == l.e
    ensures LooksAt(setup, looks + [l], entries - (left - {l.e.job.id}))
    ensures LookTalk(looks + [l]) == LookTalk(looks) + l.talk && said + LookTalk(looks + [l]) == said + LookTalk(looks) + l.talk
    ensures LookDrift(setup, looks + [l]) == LookDrift(setup, looks) + EntryTalk(setup, l.e, l.talk).value
  {
    hide EntryTalk;
    assert (looks + [l])[..|looks|] == looks;
    var before, after := entries - left, entries - (left - {l.e.job.id});
    assert after == before[l.e.job.id := l.e];
  }

  // ---- Why a check must have been answered in full ----

  /** A failed job list stores the new commit but keeps the old index. While the cluster stands still the
      next check of that commit is then skipped, although the diffs stored lack every orphan: they are
      complete exactly if there is none. */
  lemma FailedListIsSkippedOver(setup: Setup, history: nat -> Cluster, t0: nat, t1: nat, t: nat, files: seq<SourceFile>,
                                parses: seq<Ask>, looks: seq<Look>, found: set<Drift>)
    requires Coherent(history) && t0 <= t1 <= t && history(t).index == history(t0).index
    requires Compared(setup, files, None, parses, looks, found)
    requires AllAnswered(parses) && AllAnswered(LookTalk(looks)) && AllTruthful(setup.w, history, t0, t1, LookTalk(looks))
    ensures found == FullDiffs(setup, files, history(t)) <==> OrphanDrift(setup, ParsedIDs(Contents(files)), history(t)) == {}
  {
    ParsesRight(files, parses);
    var orphans := OrphanDrift(setup, ParsedIDs(Contents(files)), history(t));
    var repo := Contents(files);
    LooksAreRight(setup, history, t0, t1, t, looks, EntriesOf(setup.w.cfg, setup.w.glob, repo));
    assert found + {} == found;
    if d :| d in orphans {
      assert d in FullDiffs(setup, files, history(t));
      forall id | id in EntriesOf(setup.w.cfg, setup.w.glob, repo)
        ensures d !in EntryDrift(setup, EntriesOf(setup.w.cfg, setup.w.glob, repo)[id], history(t))
      {
        NoOrphanDrift(setup, EntriesOf(setup.w.cfg, setup.w.glob, repo)[id], history(t), d);
      }
    }
  }

  lemma NoOrphanDrift(setup: Setup, e: Entry, c: Cluster, d: Drift)
    requires d.Orphaned?
    ensures d !in EntryDrift(setup, e, c)
  {
    hide CheckEntry;
  }
}
