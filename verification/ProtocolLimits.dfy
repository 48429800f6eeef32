/** Where the protocol promises less than one might expect: runs that show it, and what exactly holds. */
module ProtocolLimits {
  import opened Wrappers
  import opened Text
  import opened Identity
  import opened Jobs
  import opened PlanDiffs
  import opened Classifier
  import opened Updates
  import opened Decisions
  import opened Rollbacks
  import opened Protocol
  import opened ProtocolSafety
  import opened ProtocolTheorems
  import opened ProtocolOrder
  import Orphans

  /** One more step of a run. */
  lemma Go(w: World, s: State, acts: seq<Action>, t: State, a: Action) returns (more: seq<Action>, next: State)
    requires Run(w, s, acts) == Some(t) && Enabled(w, t, a)
    ensures next == Step(w, t, a) && Run(w, s, more) == Some(next)
  {
    more, next := acts + [a], Step(w, t, a);
    assert more[..|acts|] == acts;
  }

  // ---- A job that died ----

  const WEB := Job("web", None, false, None, [], "", "")

  const IMAGE := Field("Edited", "image", "a:1", "a:2", [])
  const CONFIG: ObjectDiff<Field> := ObjectDiff("Edited", "Config", [Some(IMAGE)], [])
  const TASK: TaskDiff<Field> := TaskDiff("Edited", "t", [], [CONFIG], [])
  const GROUP: GroupDiff<Field> := GroupDiff("Edited", "g", [], [], [Some(TASK)], map[])

  // A plan that changes one task's image and nothing else.
  function ImagePlan(): JobDiff<Field> {
    JobDiff("Edited", "web", [], [], [Some(GROUP)])
  }

  function ImageOnlyWorld(): World {
    World(Config("", ImageOnly, false, false, false, false, false, false, GuardOff, false, NoHistory),
          (job, reg) => Some(ImagePlan()), (job, preserve, reg) => job, jobID => true, 0, false, false, 0)
  }

  lemma ConfigIsImage(metaPrefix: string)
    ensures ObjectsLeaves([CONFIG], {}, metaPrefix, 1) == [ImageLeaf]
  {
    assert EqualFold("image", "image");
    assert LeafOf(IMAGE, false, true, metaPrefix) == ImageLeaf;
    assert FieldLeaves([Some(IMAGE)], {}, false, true, metaPrefix) == [ImageLeaf];
    assert ObjectLeaves(CONFIG, metaPrefix, 1) == [ImageLeaf];
  }

  lemma ImagePlanIsImageChange(autoscaled: set<string>, metaPrefix: string)
    ensures Classify(Some(ImagePlan()), autoscaled, metaPrefix) == ImageChange
  {
    ConfigIsImage(metaPrefix);
    hide LeafOf;
    hide EqualFold;
    hide ObjectLeaves;
    assert TaskLeaves(Some(TASK), metaPrefix) == [ImageLeaf];
    assert TasksLeaves([Some(TASK)], metaPrefix) == [ImageLeaf];
    assert GroupLeaves(Some(GROUP), autoscaled, metaPrefix) == [ImageLeaf];
    assert GroupsLeaves([Some(GROUP)], autoscaled, metaPrefix) == [ImageLeaf];
    assert JobLeaves(ImagePlan(), autoscaled, metaPrefix) == [ImageLeaf];
    OneLeaf();
  }

  lemma OneLeaf()
    ensures ClassOf([ImageLeaf]) == ImageChange
  {
    assert [ImageLeaf][1..] == [];
  }

  const REG0 := Registration(1, 0, WEB)
  const WEB_FILES: seq<Orphans.RepoFile> := [Orphans.RepoFile("web.hcl", Orphans.Parsed(WEB))]
  const WEB_ENTRY := Entry(WEB, "web.hcl", true)

  function RunningWeb(): State {
    State(0, 1, map["web" := Live(REG0, "running")], [], Idle, None, Orphans.AfterRun([]), [])
  }

  function FoundWeb(): Candidate {
    Candidate("web", "web.hcl", WEB, 1, ImageChange, false, true)
  }

  /** A cycle starts, reads the job and plans it. */
  lemma ReadAndPlanWeb(w: World) returns (acts: seq<Action>, t: State)
    requires w == ImageOnlyWorld()
    ensures Run(w, RunningWeb(), acts) == Some(t)
    ensures t == RunningWeb().(log := [CycleStarted("c1", WEB_FILES, []), Read(0, WEB_ENTRY, Found(REG0, "running")),
                                       Drift(1, Some(REG0), FoundWeb())])
  {
    var s := RunningWeb();
    ImagePlanIsImageChange(AutoscaledGroups(WEB), "");
    hide Classify;
    hide HasContentDiff;
    acts, t := Go(w, s, [], s, Det(StartCycle("c1", WEB_FILES, false, [])));
    assert WEB_FILES[0] in WEB_FILES && Orphans.Wanted(w.cfg, w.glob, WEB_FILES[0]);
    acts, t := Go(w, s, acts, t, Det(ReadJob(0, WEB_ENTRY)));
    assert DetectedAt(w, t, 1) == Some(FoundWeb());
    acts, t := Go(w, s, acts, t, Det(PlanJob(1)));
  }

  /** Detection: read, planned, approved, enqueued. */
  lemma DetectWeb(w: World) returns (acts: seq<Action>, t: State, row: Row)
    requires w == ImageOnlyWorld()
    ensures Run(w, RunningWeb(), acts) == Some(t) && Init(RunningWeb())
    ensures t.cluster == RunningWeb().cluster && t.raft == 1 && t.phase.Idle? && t.view.None? && t.rows == [row]
    ensures row.status.Pending? && row.operation.Register? && row.job == Some(WEB) && row.jobID == "web" && row.modifyIndex == 1
  {
    var s := RunningWeb();
    acts, t := ReadAndPlanWeb(w);
    hide Run;
    hide Enqueue;
    assert DecideApply(w.cfg, FoundWeb(), "c1", false, false).Queued?;
    acts, t := Go(w, s, acts, t, Det(Approve(2, false)));
    row := RegisterRow(w, t, 3);
    acts, t := Go(w, s, acts, t, Det(EnqueueUpdate(3)));
    EnqueueOnEmpty(row);
  }

  lemma EnqueueOnEmpty(u: Row)
    requires u.status.Pending?
    ensures Enqueue([], u) == [u]
  {
    assert SupersedeJob([], u.jobID) == [];
    assert TerminalCount([u]) == 0;
  }

  /** The applier takes the one waiting row and the gate lets it pass. */
  lemma TakeAndGate(w: World, s: State, acts0: seq<Action>, t0: State, row: Row) returns (acts: seq<Action>, t: State)
    requires Run(w, s, acts0) == Some(t0) && t0.phase.Idle? && t0.rows == [row] && row.status.Pending? && t0.view.None?
    ensures Run(w, s, acts) == Some(t) && t.phase == Gated(row.(status := InProgress)) && t.cluster == t0.cluster
    ensures |t0.log| <= |t.log| && t.log[..|t0.log|] == t0.log
  {
    hide Run;
    assert FindPending(t0.rows) == 0;
    acts, t := Go(w, s, acts0, t0, App(Take));
    hide FindPending;
    acts, t := Go(w, s, acts, t, App(Gate));
  }

  /** An image-only update may be applied to a job that has died since it was read: its status is not
      part of the index the registration enforces. A job that was read dead would have counted as a
      creation, which "image-only" forbids. ImageOnlyMeetsDead says exactly when this happens. */
  lemma DeadJobIsUpdated() returns (w: World, s: State, acts: seq<Action>, t: State)
    ensures Init(s) && Run(w, s, acts) == Some(t) && t.log != []
    ensures var e := t.log[|t.log| - 1];
            e.Registered? && e.row.job.Some? && EffectivePolicy(w.cfg, MetaOf(e.row.job.value)).ImageOnly?
            && e.before.Some? && TreatedAsMissing(w.cfg, Found(e.before.value, e.met))
  {
    w, s := ImageOnlyWorld(), RunningWeb();
    var row;
    acts, t, row := DetectWeb(w);
    hide Run;
    acts, t := TakeAndGate(w, s, acts, t, row);
    ImagePlanIsImageChange(AutoscaledGroups(WEB), "");
    hide Classify;
    acts, t := Go(w, s, acts, t, App(Replan(false)));
    acts, t := Go(w, s, acts, t, Env(StatusChange("web", "dead")));
    acts, t := Go(w, s, acts, t, App(CallRegister(true, true, "running")));
  }

  // ---- A removal refreshed by a registration ----

  const TAGGED := WEB.(meta := Some(map["nd" + "_managed" := "true"]))
  const REG1 := Registration(1, 0, TAGGED)
  const BROKEN_FILES: seq<Orphans.RepoFile> := [Orphans.RepoFile("web.hcl", Orphans.Unparsable)]
  const TAGGED_FILES: seq<Orphans.RepoFile> := [Orphans.RepoFile("web.hcl", Orphans.Parsed(TAGGED))]
  const TAGGED_ENTRY := Entry(TAGGED, "web.hcl", false)
  const TAGGED_STUB := Orphans.Stub("web", "running", map["nd" + "_managed" := "true"])

  function RemovingWorld(): World {
    World(Config("nd", Full, false, false, false, true, true, false, GuardOff, false, NoHistory),
          (job, reg) => Some(ImagePlan()), (job, preserve, reg) => job, jobID => false, 0, false, false, 0)
  }

  function TaggedWeb(): State {
    State(0, 1, map["web" := Live(REG1, "running")], [], Idle, None, Orphans.AfterRun([]), [])
  }

  lemma TagDecides()
    ensures var w := RemovingWorld();
            Managed(w.cfg, TAGGED_STUB.meta) && Managed(w.cfg, MetaOf(TAGGED)) && EffectivePolicy(w.cfg, TAGGED_STUB.meta).Full?
  {
    assert |"nd" + "_managed"| != |"nd" + "_update_policy"|;
  }

  /** The first cycle lists the job and cannot parse its file. */
  lemma OrphanListed(w: World) returns (acts: seq<Action>, t: State)
    requires w == RemovingWorld()
    ensures Run(w, TaggedWeb(), acts) == Some(t)
    ensures t == TaggedWeb().(log := [CycleStarted("c1", BROKEN_FILES, [TAGGED_STUB])]) && ListsCluster(t, [TAGGED_STUB])
  {
    var s := TaggedWeb();
    assert ListsCluster(s, [TAGGED_STUB]) by {
      assert TAGGED_STUB in [TAGGED_STUB];
    }
    acts, t := Go(w, s, [], s, Det(StartCycle("c1", BROKEN_FILES, true, [TAGGED_STUB])));
  }

  /** Its commit enters the drift with the time of the cycle. */
  lemma FirstCommit(w: World, t: State)
    requires w == RemovingWorld() && t == TaggedWeb().(log := [CycleStarted("c1", BROKEN_FILES, [TAGGED_STUB])])
    ensures var n := StepCommit(w, t, 0, {});
            n == t.(watch := n.watch, log := n.log) && |n.log| == 2 && n.log[0] == t.log[0]
            && n.log[1].CycleCommitted? && n.log[1].at == 0 && Orphans.GraceOver(n.watch, 0, 0, "web")
  {
    TagDecides();
    hide Managed;
    hide EffectivePolicy;
    assert SawOrphan(w, t.log, 0, TAGGED_STUB);
    hide SawOrphan;
    assert DriftKey("web", MissingFromHCL) in OrphanKeys(w, t.log, 0);
    hide OrphanKeys;
    hide DriftKey;
    assert StepCommit(w, t, 0, {}).watch.firstSeen[DriftKey("web", MissingFromHCL)] == 0;
  }

  /** And is committed. */
  lemma OrphanSeen(w: World) returns (acts: seq<Action>, t: State)
    requires w == RemovingWorld()
    ensures Run(w, TaggedWeb(), acts) == Some(t)
    ensures t == TaggedWeb().(watch := t.watch, log := t.log) && |t.log| == 2 && Orphans.GraceOver(t.watch, 0, 0, "web")
    ensures HasCycle(t.log, 0) && t.log[0] == CycleStarted("c1", BROKEN_FILES, [TAGGED_STUB])
    ensures t.log[1].CycleCommitted? && t.log[1].at == 0 && ListsCluster(t, [TAGGED_STUB])
  {
    acts, t := OrphanListed(w);
    FirstCommit(w, t);
    hide Run;
    hide StepCommit;
    hide Orphans.GraceOver;
    acts, t := Go(w, TaggedWeb(), acts, t, Det(CommitCycle(0, {})));
  }

  /** The next cycle at the same commit may remove the job. */
  lemma MayRemove(w: World, t: State)
    requires w == RemovingWorld() && t.now == 0 && t.view.None? && |t.log| == 3 && Orphans.GraceOver(t.watch, 0, 0, "web")
    requires t.log[0].CycleStarted? && t.log[1].CycleCommitted? && t.log[1].at == 0
    requires t.log[2] == CycleStarted("c1", BROKEN_FILES, [TAGGED_STUB])
    ensures Enabled(w, t, Det(ApproveRemoval(2, TAGGED_STUB)))
    ensures Step(w, t, Det(ApproveRemoval(2, TAGGED_STUB))) == t.(log := t.log + [RemovalApproved(2, 0, TAGGED_STUB)])
  {
    TagDecides();
    hide Managed;
    hide EffectivePolicy;
    hide Orphans.GraceOver;
    assert SawOrphan(w, t.log, 2, TAGGED_STUB);
    hide SawOrphan;
    assert Uncommitted(t.log, 2);
    hide Uncommitted;
  }

  /** It starts, and decides so. */
  lemma RemovalDecided(w: World) returns (acts: seq<Action>, t: State)
    requires w == RemovingWorld()
    ensures Run(w, TaggedWeb(), acts) == Some(t)
    ensures t == TaggedWeb().(watch := t.watch, log := t.log) && |t.log| == 4
    ensures t.log[2] == CycleStarted("c1", BROKEN_FILES, [TAGGED_STUB]) && t.log[3] == RemovalApproved(2, 0, TAGGED_STUB)
  {
    var s := TaggedWeb();
    acts, t := OrphanSeen(w);
    hide Run;
    hide Orphans.GraceOver;
    hide ListsCluster;
    acts, t := Go(w, s, acts, t, Det(StartCycle("c1", BROKEN_FILES, true, [TAGGED_STUB])));
    MayRemove(w, t);
    hide Step;
    hide Enabled;
    acts, t := Go(w, s, acts, t, Det(ApproveRemoval(2, TAGGED_STUB)));
  }

  /** And queues the removal. */
  lemma RemovalQueued(w: World) returns (acts: seq<Action>, t: State, row: Row)
    requires w == RemovingWorld()
    ensures Run(w, TaggedWeb(), acts) == Some(t)
    ensures t == TaggedWeb().(watch := t.watch, log := t.log, rows := [row]) && |t.log| == 5
    ensures row.status.Pending? && row.operation.Deregister? && row.jobID == "web" && row.updateID == UpdateID("web", "c1")
  {
    acts, t := RemovalDecided(w);
    hide Run;
    hide Enqueue;
    hide UpdateID;
    row := RemovalRow(w, t, 3);
    acts, t := Go(w, TaggedWeb(), acts, t, Det(EnqueueRemoval(3)));
    EnqueueOnEmpty(row);
  }

  function FoundTagged(): Candidate {
    Candidate("web", "web.hcl", TAGGED, 1, ImageChange, false, false)
  }

  /** Then the file parses again, and its job is read. */
  lemma TaggedRead(w: World) returns (acts: seq<Action>, t: State, row: Row)
    requires w == RemovingWorld()
    ensures Run(w, TaggedWeb(), acts) == Some(t)
    ensures t == TaggedWeb().(watch := t.watch, log := t.log, rows := [row]) && |t.log| == 7
    ensures t.log[5] == CycleStarted("c1", TAGGED_FILES, []) && t.log[6] == Read(5, TAGGED_ENTRY, Found(REG1, "running"))
    ensures row.status.Pending? && row.operation.Deregister? && row.jobID == "web" && row.updateID == UpdateID("web", "c1")
  {
    var s := TaggedWeb();
    acts, t, row := RemovalQueued(w);
    hide Run;
    TagDecides();
    hide Managed;
    acts, t := Go(w, s, acts, t, Det(StartCycle("c1", TAGGED_FILES, false, [])));
    assert TAGGED_FILES[0] in TAGGED_FILES && Orphans.Wanted(w.cfg, w.glob, TAGGED_FILES[0]);
    acts, t := Go(w, s, acts, t, Det(ReadJob(5, TAGGED_ENTRY)));
  }

  lemma TaggedDetected(w: World, e: Event)
    requires w == RemovingWorld() && e.Read? && e.entry == TAGGED_ENTRY && e.info == Found(REG1, "running")
    ensures Detected(w, e, Some(REG1)) == Some(FoundTagged())
  {
    ImagePlanIsImageChange(AutoscaledGroups(TAGGED), "nd");
    hide Classify;
    hide HasContentDiff;
  }

  /** Planning it. */
  lemma PlanTagged(w: World, t: State)
    requires w == RemovingWorld() && |t.log| == 7 && RegOf(t, "web") == Some(REG1)
    requires t.log[5] == CycleStarted("c1", TAGGED_FILES, []) && t.log[6] == Read(5, TAGGED_ENTRY, Found(REG1, "running"))
    ensures Enabled(w, t, Det(PlanJob(6)))
    ensures Step(w, t, Det(PlanJob(6))) == t.(log := t.log + [Drift(6, Some(REG1), FoundTagged())])
  {
    TaggedDetected(w, t.log[6]);
    hide Detected;
  }

  /** Its drift is planned. */
  lemma TaggedPlanned(w: World) returns (acts: seq<Action>, t: State, row: Row)
    requires w == RemovingWorld()
    ensures Run(w, TaggedWeb(), acts) == Some(t)
    ensures t == TaggedWeb().(watch := t.watch, log := t.log, rows := [row]) && |t.log| == 8
    ensures HasCandidate(t.log, 7) && t.log[7].c == FoundTagged() && CommitOf(t.log, 7) == "c1"
    ensures row.status.Pending? && row.operation.Deregister? && row.jobID == "web" && row.updateID == UpdateID("web", "c1")
  {
    acts, t, row := TaggedRead(w);
    hide Run;
    PlanTagged(w, t);
    hide Step;
    hide Enabled;
    hide UpdateID;
    acts, t := Go(w, TaggedWeb(), acts, t, Det(PlanJob(6)));
  }

  lemma RefreshOnly(row: Row, u: Row)
    requires row.status.Pending? && u.updateID == row.updateID
    ensures Enqueue([row], u) == [Refresh(row, u)] && Waiting([row], u.updateID)
  {
  }

  /** The registration that is approved now refreshes the removal that waits under its ID. */
  lemma RemovalRefreshed(w: World) returns (acts: seq<Action>, t: State, row: Row)
    requires w == RemovingWorld()
    ensures Run(w, TaggedWeb(), acts) == Some(t)
    ensures t.cluster == TaggedWeb().cluster && t.phase.Idle? && t.view.None? && t.rows == [row]
    ensures row.status.Pending? && row.operation.Deregister? && row.jobID == "web" && row.updateID == UpdateID("web", "c1")
    ensures |t.log| == 10 && t.log[9].Enqueued? && t.log[9].u.operation.Register? && t.log[9].u.updateID == row.updateID
            && t.log[9].u.job == Some(TAGGED)
  {
    var s := TaggedWeb();
    var waiting;
    acts, t, waiting := TaggedPlanned(w);
    hide Run;
    TagDecides();
    assert DecideApply(w.cfg, FoundTagged(), "c1", false, false).Queued?;
    hide DecideApply;
    hide CommitOf;
    acts, t := Go(w, s, acts, t, Det(Approve(7, false)));
    hide Enqueue;
    hide Waiting;
    var u := RegisterRow(w, t, 8);
    RefreshOnly(waiting, u);
    acts, t := Go(w, s, acts, t, Det(EnqueueUpdate(8)));
    row := Refresh(waiting, u);
  }

  /** A removal that waits may be carried out although the job is back in the repository and its
      registration was approved after the removal and under the same ID: a file that for some cycles
      at one commit does not parse queues the removal, and when it parses again the enqueue of the
      registration refreshes the waiting row without changing what it is going to do. EnqueueOperation
      says exactly when that happens. */
  lemma RefreshedRemovalLands() returns (w: World, s: State, acts: seq<Action>, t: State, q: nat)
    ensures Init(s) && Run(w, s, acts) == Some(t) && q < |t.log| - 1
    ensures t.log[q].Enqueued? && t.log[q].u.operation.Register? && t.log[q].u.job.Some?
    ensures var e := t.log[|t.log| - 1]; e.Deregistered? && e.row.updateID == t.log[q].u.updateID && e.row.jobID !in t.cluster
  {
    w, s, q := RemovingWorld(), TaggedWeb(), 9;
    var row;
    acts, t, row := RemovalRefreshed(w);
    var before := t;
    hide Run;
    acts, t := TakeAndGate(w, s, acts, t, row);
    assert t.log[q] == before.log[q];
    TagDecides();
    hide Managed;
    acts, t := Go(w, s, acts, t, App(Recheck(false)));
    assert t.log[q] == before.log[q];
    acts, t := Go(w, s, acts, t, App(CallDeregister(true, true)));
    assert t.log[q] == before.log[q];
  }

  // ---- A removal that waits ----

  /** The row a detection step enqueues. */
  function EnqueuedBy(w: World, s: State, a: DetectAction): Option<Row>
    requires EnabledEnqueue(s, a)
  {
    match a
    case EnqueueUpdate(at) => Some(RegisterRow(w, s, at))
    case EnqueueRemoval(at) => Some(RemovalRow(w, s, at))
    case EnqueueRevert(at) => Some(RevertRow(s, at))
    case _ => None
  }

  predicate EnabledEnqueue(s: State, a: DetectAction) {
    match a
    case EnqueueUpdate(at) => HasApproval(s.log, at)
    case EnqueueRemoval(at) => HasRemoval(s.log, at)
    case EnqueueRevert(at) => HasFailure(s.log, at)
    case _ => true
  }

  lemma WaitingStaysInEnqueue(rows: seq<Row>, u: Row, r: Row)
    requires QueueInv(rows) && r in rows && r.status.Pending? && r.jobID != u.jobID && r.updateID != u.updateID
    ensures r in Enqueue(rows, u)
  {
    var k :| 0 <= k < |rows| && rows[k] == r;
    var i := FindID(rows, u.updateID);
    if i < |rows| && !rows[i].status.Terminal() {
      assert rows[i := Refresh(rows[i], u)][k] == r;
    } else {
      AppendMembers(rows, u, r);
    }
  }

  lemma WaitingStaysInComplete(rows: seq<Row>, id: string, st: Status, index: nat, error: string, now: int, r: Row)
    requires r in rows && r.status.Pending?
    ensures r in Complete(rows, id, st, index, error, now)
  {
    var k :| 0 <= k < |rows| && rows[k] == r;
    var i := FindRunning(rows, id);
    if i < |rows| {
      var done := rows[i := Outcome(rows[i], st, index, error, now)];
      assert done[k] == r;
      PruneKeeps(done, r);
    }
  }

  lemma IDsDiffer(r: Row, u: Row)
    requires Named(r) && Named(u) && r.jobID != u.jobID
    ensures r.updateID != u.updateID
  {
    if r.operation.Revert? && u.operation.Revert? {
      RevertIDDetermines(r.jobID, r.revertFrom, u.jobID, u.revertFrom);
    } else if r.operation.Revert? {
      UpdateIsNeverRevert(u.jobID, u.commit, r.jobID, r.revertFrom);
    } else if u.operation.Revert? {
      UpdateIsNeverRevert(r.jobID, r.commit, u.jobID, u.revertFrom);
    } else {
      UpdateIDDetermines(r.jobID, r.commit, u.jobID, u.commit);
    }
  }

  lemma EnqueuedIsNamed(w: World, s: State, a: DetectAction)
    requires LogOK(w, s.log) && EnabledDet(w, s, a) && EnabledEnqueue(s, a) && EnqueuedBy(w, s, a).Some?
    ensures Named(EnqueuedBy(w, s, a).value)
    ensures StepDet(w, s, a).rows == Enqueue(s.rows, EnqueuedBy(w, s, a).value)
  {
    hide EventOK;
    hide LogOK;
    match a {
      case EnqueueUpdate(at) =>
        var read, seen := ApprovedMeans(w, s.log, at);
        CommitClean(w, s.log, s.log[read].at);
      case EnqueueRemoval(at) => CommitClean(w, s.log, s.log[at].at);
      case _ =>
    }
  }

  lemma WaitingStaysInDetection(w: World, s: State, a: DetectAction, r: Row)
    requires LogOK(w, s.log) && QueueInv(s.rows) && Named(r) && r in s.rows && r.status.Pending?
    requires EnabledDet(w, s, a) && EnabledEnqueue(s, a)
    requires EnqueuedBy(w, s, a).Some? ==> EnqueuedBy(w, s, a).value.jobID != r.jobID
    ensures r in StepDet(w, s, a).rows
  {
    hide LogOK;
    hide QueueInv;
    hide Named;
    if EnqueuedBy(w, s, a).Some? {
      EnqueuedIsNamed(w, s, a);
      hide StepDet;
      hide EnabledDet;
      var u := EnqueuedBy(w, s, a).value;
      IDsDiffer(r, u);
      WaitingStaysInEnqueue(s.rows, u, r);
    } else {
      DetLeavesQueue(w, s, a);
    }
  }

  lemma WaitingStaysInApplier(w: World, s: State, a: ApplierAction, r: Row)
    requires EnabledApp(s, a) && !a.Take? && r in s.rows && r.status.Pending?
    ensures r in StepApp(w, s, a).rows
  {
    if a.Finish? {
      var p := s.phase;
      WaitingStaysInComplete(s.rows, p.row.updateID, p.status, p.index, p.error, s.now, r);
    } else {
      AppLeavesQueue(w, s, a);
    }
  }

  /** A waiting update, a removal among them, leaves the queue's waiting rows only when the applier
      takes it or another update of its job is enqueued. So a commit that puts a removed file back
      without any drift does not call the removal off: it enqueues nothing. */
  lemma WaitingStays(w: World, s: State, a: Action, r: Row)
    requires Inv(w, s) && Enabled(w, s, a) && !(a.App? && a.app.Take?) && r in s.rows && r.status.Pending?
    requires a.Det? ==> EnabledEnqueue(s, a.det)
                        && (EnqueuedBy(w, s, a.det).Some? ==> EnqueuedBy(w, s, a.det).value.jobID != r.jobID)
    ensures r in Step(w, s, a).rows
  {
    InvParts(w, s);
    WaitingIsNamed(s, r);
    hide Inv;
    hide LogOK;
    hide QueueInv;
    hide RowsOK;
    hide HistoryOK;
    hide PhaseOK;
    hide WatchOK;
    hide IndexesOK;
    hide Named;
    hide EnabledEnv;
    hide EnabledDet;
    hide EnabledApp;
    hide StepEnv;
    hide StepDet;
    hide StepApp;
    match a {
      case Env(e) => EnvLeavesQueue(w, s, e);
      case Det(d) => WaitingStaysInDetection(w, s, d, r);
      case App(p) => WaitingStaysInApplier(w, s, p, r);
    }
  }

  lemma WaitingIsNamed(s: State, r: Row)
    requires RowsOK(s.log, s.rows) && r in s.rows && r.status.Pending?
    ensures Named(r)
  {
    hide Sourced;
    hide Named;
  }
}
