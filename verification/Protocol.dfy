/** The reconcile-and-apply protocol as a state machine: detection, the queue, the applier and the
    freeze view, interleaved in any order with each other and with whoever else writes to Nomad.
    Every step that asks Nomad something or changes it leaves an event in a log. */
module Protocol {
  import opened Wrappers
  import opened Identity
  import opened Jobs
  import opened PlanDiffs
  import opened Classifier
  import opened Updates
  import opened Decisions
  import opened Rollbacks
  import Orphans

  // What does not change during a run. `plan` is what Nomad answers when asked to plan a definition
  // against a registration, `stored` the definition a registration of it leaves behind, `glob` the
  // selection by name and `grace` the grace period of orphans.
  datatype World = World(cfg: Config,
                         plan: (Job, Option<Registration>) -> Option<JobDiff<Field>>,
                         stored: (Job, bool, Option<Registration>) -> Job,
                         glob: string -> bool, grace: int,
                         freezeEnabled: bool, freezeFailOpen: bool, maxStaleness: int)

  datatype Live = Live(reg: Registration, status: string)

  // The cached freeze records: when they were read, and the jobs held by one in force.
  datatype View = View(readAt: int, held: set<string>)

  // `at` and `from` are positions in the log: of the cycle, the read, the candidate or the decision an
  // event builds on.
  datatype Event =
    | CycleStarted(commit: string, files: seq<Orphans.RepoFile>, jobs: seq<Orphans.Stub>)
    | CycleCommitted(at: nat, time: int, keys: set<string>)
    | Read(at: nat, entry: Entry, info: Info)
    | Drift(at: nat, seen: Option<Registration>, c: Candidate)
    | Approved(at: nat, time: int, knownFailed: bool)
    | Tagged(at: nat, time: int, version: nat)
    | RemovalApproved(at: nat, time: int, stub: Orphans.Stub)
    | FailureSeen(at: nat, time: int, entry: Entry, failed: nat, live: Registration, versions: seq<Option<JobVersion>>)
    | Enqueued(u: Row, from: nat, added: bool)
    | FreezesRead(view: View)
    | Thawed(jobID: string, time: int)
    | Took(row: Row)
    | GatePassed(row: Row, time: int)
    | GateClosed(row: Row, time: int)
    | Replanned(row: Row, seen: Option<Registration>)
    | Rechecked(row: Row, reg: Registration)
    | Registered(row: Row, before: Option<Registration>, met: string, after: Registration)
    | Deregistered(row: Row, found: Registration, remains: Option<Registration>)
    | Reverted(row: Row, found: Registration, after: Registration)
    | Finished(completed: Option<Row>, outcome: Status)
    | OutsideWrote(jobID: string, after: Registration)
    | OutsidePurged(jobID: string)
    | StatusChanged(jobID: string, became: string)

  type Log = seq<Event>

  // Where the applier is with the row it was handed.
  datatype Phase =
    | Idle
    | Taken(row: Row)
    | Gated(row: Row)
    | Ready(row: Row)
    | Confirmed(row: Row)
    | Ending(row: Row, status: Status, index: nat, error: string)

  // `watch` is when drifts were first seen and how long jobs have been frozen.
  datatype State = State(now: int, raft: nat, cluster: map<string, Live>,
                         rows: seq<Row>, phase: Phase, view: Option<View>, watch: Orphans.Watch, log: Log)

  /** Nothing is waiting, nothing was asked or read yet; the cluster is as it may be. */
  ghost predicate Init(s: State) {
    s.rows == [] && s.phase.Idle? && s.view.None? && s.watch == Orphans.AfterRun([]) && s.log == []
    && forall j :: j in s.cluster ==> 0 < s.cluster[j].reg.modifyIndex <= s.raft
  }

  // ---- Reading the state ----

  function RegOf(s: State, jobID: string): Option<Registration> {
    if jobID in s.cluster then Some(s.cluster[jobID].reg) else None
  }

  function InfoOf(s: State, jobID: string): Info {
    if jobID in s.cluster then Found(s.cluster[jobID].reg, s.cluster[jobID].status) else NotFound
  }

  function ClassAgainst(w: World, job: Job, reg: Option<Registration>): DiffClass {
    Classify(w.plan(job, reg), AutoscaledGroups(job), w.cfg.metaPrefix)
  }

  /** A write to the job must be withheld: a freeze is in force on it, or the view is too old. */
  predicate Blocked(w: World, view: Option<View>, jobID: string, time: int) {
    view.Some?
    && (jobID in view.value.held
        || (w.freezeEnabled && !w.freezeFailOpen && w.maxStaleness > 0 && time - view.value.readAt > w.maxStaleness))
  }

  // ---- What a cycle saw ----

  /** The jobs as Nomad lists them: each with the status and the meta it has now. */
  ghost predicate ListsCluster(s: State, jobs: seq<Orphans.Stub>) {
    (forall j :: j in jobs ==>
       j.id in s.cluster && j == Orphans.Stub(j.id, s.cluster[j.id].status, MetaOf(s.cluster[j.id].reg.spec)))
    && forall id :: id in s.cluster ==> exists j :: j in jobs && j.id == id
  }

  predicate HasCycle(log: Log, at: nat) {
    at < |log| && log[at].CycleStarted?
  }

  /** The cycle saw this job live, watched and defined by no file that parsed. */
  predicate SawOrphan(w: World, log: Log, at: nat, j: Orphans.Stub) {
    HasCycle(log, at) && j in log[at].jobs && Orphans.IsOrphan(w.cfg, w.glob, Orphans.ParsedIDs(log[at].files), j)
  }

  /** The cycle is still going on. Removals are decided before its drifts are committed. */
  ghost predicate Uncommitted(log: Log, at: nat) {
    forall m :: 0 <= m < |log| && log[m].CycleCommitted? ==> log[m].at != at
  }

  /** The orphans' keys among the drifts of the cycle. */
  function OrphanKeys(w: World, log: Log, at: nat): set<string>
    requires HasCycle(log, at)
  {
    set j | j in log[at].jobs && SawOrphan(w, log, at, j) :: DriftKey(j.id, MissingFromHCL)
  }

  // ---- The rows detection asks for ----

  /** The events a decision may build on are there. */
  predicate HasRead(log: Log, at: nat) {
    at < |log| && log[at].Read? && log[at].at < at && HasCycle(log, log[at].at)
  }

  predicate HasCandidate(log: Log, at: nat) {
    at < |log| && log[at].Drift? && log[at].at < at && HasRead(log, log[at].at)
  }

  predicate HasApproval(log: Log, at: nat) {
    at < |log| && log[at].Approved? && log[at].at < at && HasCandidate(log, log[at].at)
  }

  predicate HasRemoval(log: Log, at: nat) {
    at < |log| && log[at].RemovalApproved? && log[at].at < at && HasCycle(log, log[at].at)
  }

  predicate HasFailure(log: Log, at: nat) {
    at < |log| && log[at].FailureSeen? && LastStable(log[at].versions, log[at].failed).Some?
  }

  /** The commit a candidate was detected at. */
  function CommitOf(log: Log, at: nat): string
    requires HasCandidate(log, at)
  {
    log[log[log[at].at].at].commit
  }

  function CandidateAt(log: Log, k: nat): Candidate
    requires HasApproval(log, k)
  {
    log[log[k].at].c
  }

  function RegisterRow(w: World, s: State, at: nat): Row
    requires HasApproval(s.log, at)
  {
    var c, commit := CandidateAt(s.log, at), CommitOf(s.log, s.log[at].at);
    Row(UpdateID(c.jobID, commit), c.jobID, c.file, commit, Operation.Register, Pending,
        EffectivePolicy(w.cfg, MetaOf(c.job)), c.modifyIndex, s.raft, Some(s.now), None, "", 0, 0,
        Some(c.job), AutoscaledGroups(c.job) != {})
  }

  function RemovalRow(w: World, s: State, at: nat): Row
    requires HasRemoval(s.log, at)
  {
    var j, commit := s.log[at].stub, s.log[s.log[at].at].commit;
    Row(UpdateID(j.id, commit), j.id, "", commit, Operation.Deregister, Pending, EffectivePolicy(w.cfg, j.meta),
        0, s.raft, Some(s.now), None, "", 0, 0, None, false)
  }

  // A revert carries no policy in the program.
  function RevertRow(s: State, at: nat): Row
    requires HasFailure(s.log, at)
  {
    var e := s.log[at];
    Row(RevertUpdateID(e.entry.job.id, e.failed), e.entry.job.id, "", "", Operation.Revert, Pending, NoUpdates,
        0, s.raft, Some(s.now), None, "", LastStable(e.versions, e.failed).value, e.failed, None, false)
  }

  // ---- Steps ----

  // What others do, and the reads of the freeze store.
  datatype OutsideAction =
    | Tick(d: nat)
    | OtherWrites(d: nat)
    | OutsideWrite(jobID: string, spec: Job, status: string)
    | OutsidePurge(jobID: string)
    | StatusChange(jobID: string, status: string)
    | ReadFreezes(held: set<string>)
    | FailFreezeRead
    | Thaw(jobID: string)

  // Detection. A cycle starts with the job list and the parsed files, may then look at its jobs and
  // decide, and ends by committing the drifts it saw, `others` being those that are no orphans.
  datatype DetectAction =
    | StartCycle(commit: string, files: seq<Orphans.RepoFile>, listed: bool, jobs: seq<Orphans.Stub>)
    | ReadJob(at: nat, entry: Entry)
    | PlanJob(at: nat)
    | Approve(at: nat, knownFailed: bool)
    | TagVersion(at: nat, version: nat)
    | ApproveRemoval(at: nat, stub: Orphans.Stub)
    | CommitCycle(at: nat, others: set<string>)
    | SeeFailure(at: nat, entry: Entry, failed: nat, versions: seq<Option<JobVersion>>)
    | EnqueueUpdate(at: nat)
    | EnqueueRemoval(at: nat)
    | EnqueueRevert(at: nat)

  // The applier. `reaches` says whether a request gets to Nomad, `answered` whether the answer gets back.
  datatype ApplierAction =
    | Take
    | Gate
    | Refuse
    | Replan(fails: bool)
    | CallRegister(reaches: bool, answered: bool, status: string)
    | Recheck(fails: bool)
    | CallDeregister(reaches: bool, answered: bool)
    | CallRevert(reaches: bool, answered: bool, spec: Job, status: string)
    | Finish

  datatype Action = Env(env: OutsideAction) | Det(det: DetectAction) | App(app: ApplierAction)

  predicate EnabledEnv(w: World, s: State, a: OutsideAction) {
    match a
    case ReadFreezes(_) => w.freezeEnabled
    case FailFreezeRead => w.freezeEnabled
    case Thaw(_) => w.freezeEnabled
    case OutsidePurge(jobID) => jobID in s.cluster
    case StatusChange(jobID, _) => jobID in s.cluster
    case _ => true
  }

  ghost predicate EnabledDet(w: World, s: State, a: DetectAction) {
    match a
    case StartCycle(commit, files, listed, jobs) => '/' !in commit && if listed then ListsCluster(s, jobs) else jobs == []
    case ReadJob(at, entry) => HasCycle(s.log, at) && Orphans.EntryOf(w.cfg, w.glob, s.log[at].files, entry)
    case PlanJob(at) => HasRead(s.log, at) && DetectedAt(w, s, at).Some?
    case Approve(at, knownFailed) =>
      HasCandidate(s.log, at)
      && DecideApply(w.cfg, s.log[at].c, CommitOf(s.log, at), Blocked(w, s.view, s.log[at].c.jobID, s.now), knownFailed).Queued?
    case TagVersion(at, _) =>
      HasCandidate(s.log, at)
      && ConsultsFlapGuard(w.cfg, s.log[at].c, CommitOf(s.log, at), Blocked(w, s.view, s.log[at].c.jobID, s.now))
      && EffectiveFlapGuard(w.cfg, MetaOf(s.log[at].c.job)).TagMode?
    case ApproveRemoval(at, stub) =>
      SawOrphan(w, s.log, at, stub) && Uncommitted(s.log, at) && Managed(w.cfg, stub.meta)
      && DecideDeregister(w.cfg, stub.meta, Blocked(w, s.view, stub.id, s.now),
                          Orphans.GraceOver(s.watch, w.grace, s.now, stub.id)).DeregisterQueued?
    case CommitCycle(at, others) =>
      HasCycle(s.log, at) && forall k :: k in others ==> OrphanJobFromDriftKey(k).None?
    case SeeFailure(at, entry, failed, versions) =>
      HasCycle(s.log, at) && Orphans.EntryOf(w.cfg, w.glob, s.log[at].files, entry)
      && EffectiveRollback(w.cfg, MetaOf(entry.job)) && !Blocked(w, s.view, entry.job.id, s.now)
      && entry.job.id in s.cluster && !JobHasAutoRevert(s.cluster[entry.job.id].reg.spec)
      && LastStable(versions, failed).Some?
    case EnqueueUpdate(at) => HasApproval(s.log, at)
    case EnqueueRemoval(at) => HasRemoval(s.log, at)
    case EnqueueRevert(at) => HasFailure(s.log, at)
  }

  predicate EnabledApp(s: State, a: ApplierAction) {
    match a
    case Take => s.phase.Idle? && FindPending(s.rows) < |s.rows|
    case Gate => s.phase.Taken?
    case Refuse =>
      s.phase.Gated?
      && (s.phase.row.operation.Unsupported? || (s.phase.row.operation.Register? && s.phase.row.job.None?))
    case Replan(_) => s.phase.Gated? && s.phase.row.operation.Register? && s.phase.row.job.Some?
    case CallRegister(_, _, _) => s.phase.Ready? && s.phase.row.job.Some?
    case Recheck(_) => s.phase.Gated? && s.phase.row.operation.Deregister?
    case CallDeregister(_, _) => s.phase.Confirmed?
    case CallRevert(_, _, _, _) => s.phase.Gated? && s.phase.row.operation.Revert?
    case Finish => s.phase.Ending?
  }

  ghost predicate Enabled(w: World, s: State, a: Action) {
    match a
    case Env(e) => EnabledEnv(w, s, e)
    case Det(d) => EnabledDet(w, s, d)
    case App(p) => EnabledApp(s, p)
  }

  /** What detection makes of a job read earlier, planned now. */
  function DetectedAt(w: World, s: State, at: nat): Option<Candidate>
    requires HasRead(s.log, at)
  {
    Detected(w, s.log[at], RegOf(s, s.log[at].entry.job.id))
  }

  function Detected(w: World, e: Event, seen: Option<Registration>): Option<Candidate>
    requires e.Read?
  {
    CheckEntry(w.cfg, e.entry, e.info, Planned(w.plan(JobToApply(e.entry.job, e.info), seen)))
  }

  /** A write that landed: the next index, the next version. */
  function NextReg(s: State, jobID: string, spec: Job): Registration {
    Registration(s.raft + 1, if jobID in s.cluster then s.cluster[jobID].reg.version + 1 else 0, spec)
  }

  function Write(s: State, jobID: string, spec: Job, status: string): State {
    s.(raft := s.raft + 1, cluster := s.cluster[jobID := Live(NextReg(s, jobID, spec), status)])
  }

  function Purge(s: State, jobID: string): State {
    s.(raft := s.raft + 1, cluster := s.cluster - {jobID})
  }

  function Note(s: State, e: Event): State {
    s.(log := s.log + [e])
  }

  function End(s: State, status: Status, index: nat, error: string): State
    requires !s.phase.Idle?
  {
    s.(phase := Ending(s.phase.row, status, index, error))
  }

  function Put(s: State, u: Row, from: nat): State {
    Note(s.(rows := Enqueue(s.rows, u)), Enqueued(u, from, !Waiting(s.rows, u.updateID)))
  }

  function StepReadFreezes(s: State, held: set<string>): State {
    var view := View(s.now, held);
    Note(s.(view := Some(view), watch := Orphans.AfterMoment(s.watch, Orphans.FreezesRead(s.now, held))), FreezesRead(view))
  }

  /** A thaw or a purge of the job's record: the frozen time it accrued is forgotten. */
  function StepThaw(s: State, jobID: string): State {
    Note(s.(watch := Orphans.AfterMoment(s.watch, Orphans.Thawed(s.now, jobID))), Thawed(jobID, s.now))
  }

  function StepCommit(w: World, s: State, at: nat, others: set<string>): State
    requires HasCycle(s.log, at)
  {
    var keys := others + OrphanKeys(w, s.log, at);
    Note(s.(watch := Orphans.AfterMoment(s.watch, Orphans.Committed(s.now, keys))), CycleCommitted(at, s.now, keys))
  }

  function StepStatus(s: State, jobID: string, status: string): State
    requires jobID in s.cluster
  {
    Note(s.(cluster := s.cluster[jobID := s.cluster[jobID].(status := status)]), StatusChanged(jobID, status))
  }

  function StepTake(s: State): State
    requires s.phase.Idle? && FindPending(s.rows) < |s.rows|
  {
    var row := HandOut(s.rows)[FindPending(s.rows)];
    Note(s.(rows := HandOut(s.rows), phase := Taken(row)), Took(row))
  }

  function StepGate(w: World, s: State): State
    requires s.phase.Taken?
  {
    var row := s.phase.row;
    if Blocked(w, s.view, row.jobID, s.now) then End(Note(s, GateClosed(row, s.now)), Held, 0, "frozen")
    else Note(s.(phase := Gated(row)), GatePassed(row, s.now))
  }

  /** Why a row cannot be applied at all. */
  function Refusal(row: Row): string {
    if row.operation.Unsupported? then "unsupported operation" else "internal error: update has no parsed job"
  }

  /** Never a registration without a plan, and none when the plan shows nothing to do. */
  function StepReplan(w: World, s: State, fails: bool): State
    requires s.phase.Gated? && s.phase.row.job.Some?
  {
    var row := s.phase.row;
    var seen := RegOf(s, row.job.value.id);
    if fails then End(s, Failed, 0, "plan")
    else if ClassAgainst(w, row.job.value, seen).NoChange? then End(s, Succeeded, 0, "")
    else Note(s.(phase := Ready(row)), Replanned(row, seen))
  }

  /** A registration lands when the index it enforces is the job's, 0 standing for no job. */
  predicate RegisterLands(s: State, row: Row)
    requires row.job.Some?
  {
    var id := row.job.value.id;
    if row.modifyIndex == 0 then id !in s.cluster
    else id in s.cluster && s.cluster[id].reg.modifyIndex == row.modifyIndex
  }

  /** The status of the job a registration meets, none when there is no job. */
  function MetStatus(s: State, jobID: string): string {
    if jobID in s.cluster then s.cluster[jobID].status else ""
  }

  function StepRegister(w: World, s: State, reaches: bool, answered: bool, status: string): State
    requires s.phase.Ready? && s.phase.row.job.Some?
  {
    var row := s.phase.row;
    var job := row.job.value;
    if reaches && RegisterLands(s, row) then
      var before := RegOf(s, job.id);
      var spec := w.stored(job, row.preserveCounts, before);
      var landed := Note(Write(s, job.id, spec, status), Registered(row, before, MetStatus(s, job.id), NextReg(s, job.id, spec)));
      if answered then End(landed, Succeeded, s.raft + 1, "") else End(landed, Failed, 0, "register")
    else End(s, Failed, 0, "register")
  }

  function StepRecheck(w: World, s: State, fails: bool): State
    requires s.phase.Gated?
  {
    var row := s.phase.row;
    if fails then End(s, Failed, 0, "recheck")
    else if row.jobID !in s.cluster then End(s, Succeeded, 0, "")
    else
      var reg := s.cluster[row.jobID].reg;
      if Managed(w.cfg, MetaOf(reg.spec)) then Note(s.(phase := Confirmed(row)), Rechecked(row, reg))
      else End(s, Failed, 0, "live job no longer carries the managed tag")
  }

  /** The job purged, or only stopped. */
  function Removed(w: World, s: State, row: Row): State
    requires row.jobID in s.cluster
  {
    var before := s.cluster[row.jobID].reg;
    var stopped := before.spec.(stop := true);
    if w.cfg.deregisterPurge then Note(Purge(s, row.jobID), Deregistered(row, before, None))
    else Note(Write(s, row.jobID, stopped, "dead"), Deregistered(row, before, Some(NextReg(s, row.jobID, stopped))))
  }

  /** Unlike the other two writes this one enforces nothing about the job it finds. */
  function StepDeregister(w: World, s: State, reaches: bool, answered: bool): State
    requires s.phase.Confirmed?
  {
    var row := s.phase.row;
    if reaches && row.jobID in s.cluster then
      var landed := Removed(w, s, row);
      if answered then End(landed, Succeeded, 0, "") else End(landed, Failed, 0, "deregister")
    else End(s, Failed, 0, "deregister")
  }

  /** A revert lands when the job is still at the failed version. */
  function StepRevert(s: State, reaches: bool, answered: bool, spec: Job, status: string): State
    requires s.phase.Gated?
  {
    var row := s.phase.row;
    if reaches && row.jobID in s.cluster && s.cluster[row.jobID].reg.version == row.revertFrom then
      var landed := Note(Write(s, row.jobID, spec, status),
                         Reverted(row, s.cluster[row.jobID].reg, NextReg(s, row.jobID, spec)));
      if answered then End(landed, Succeeded, s.raft + 1, "") else End(landed, Failed, 0, "revert")
    else End(s, Failed, 0, "revert")
  }

  function StepFinish(s: State): State
    requires s.phase.Ending?
  {
    var i := FindRunning(s.rows, s.phase.row.updateID);
    var completed := if i < |s.rows| then Some(s.rows[i]) else None;
    Note(s.(rows := Complete(s.rows, s.phase.row.updateID, s.phase.status, s.phase.index, s.phase.error, s.now),
            phase := Idle),
         Finished(completed, s.phase.status))
  }

  function StepEnv(w: World, s: State, a: OutsideAction): State
    requires EnabledEnv(w, s, a)
  {
    match a
    case Tick(d) => s.(now := s.now + d)
    case OtherWrites(d) => s.(raft := s.raft + d)
    case OutsideWrite(jobID, spec, status) =>
      Note(Write(s, jobID, spec, status), OutsideWrote(jobID, NextReg(s, jobID, spec)))
    case OutsidePurge(jobID) => Note(Purge(s, jobID), OutsidePurged(jobID))
    case StatusChange(jobID, status) => StepStatus(s, jobID, status)
    case ReadFreezes(held) => StepReadFreezes(s, held)
    case FailFreezeRead => s
    case Thaw(jobID) => StepThaw(s, jobID)
  }

  ghost function StepDet(w: World, s: State, a: DetectAction): State
    requires EnabledDet(w, s, a)
  {
    match a
    case StartCycle(commit, files, _, jobs) => Note(s, CycleStarted(commit, files, jobs))
    case ReadJob(at, entry) => Note(s, Read(at, entry, InfoOf(s, entry.job.id)))
    case PlanJob(at) => Note(s, Drift(at, RegOf(s, s.log[at].entry.job.id), DetectedAt(w, s, at).value))
    case Approve(at, knownFailed) => Note(s, Approved(at, s.now, knownFailed))
    case TagVersion(at, version) => Note(s, Tagged(at, s.now, version))
    case ApproveRemoval(at, stub) => Note(s, RemovalApproved(at, s.now, stub))
    case CommitCycle(at, others) => StepCommit(w, s, at, others)
    case SeeFailure(at, entry, failed, versions) =>
      Note(s, FailureSeen(at, s.now, entry, failed, s.cluster[entry.job.id].reg, versions))
    case EnqueueUpdate(at) => Put(s, RegisterRow(w, s, at), at)
    case EnqueueRemoval(at) => Put(s, RemovalRow(w, s, at), at)
    case EnqueueRevert(at) => Put(s, RevertRow(s, at), at)
  }

  function StepApp(w: World, s: State, a: ApplierAction): State
    requires EnabledApp(s, a)
  {
    match a
    case Take => StepTake(s)
    case Gate => StepGate(w, s)
    case Refuse => End(s, Failed, 0, Refusal(s.phase.row))
    case Replan(fails) => StepReplan(w, s, fails)
    case CallRegister(reaches, answered, status) => StepRegister(w, s, reaches, answered, status)
    case Recheck(fails) => StepRecheck(w, s, fails)
    case CallDeregister(reaches, answered) => StepDeregister(w, s, reaches, answered)
    case CallRevert(reaches, answered, spec, status) => StepRevert(s, reaches, answered, spec, status)
    case Finish => StepFinish(s)
  }

  ghost function Step(w: World, s: State, a: Action): State
    requires Enabled(w, s, a)
  {
    match a
    case Env(e) => StepEnv(w, s, e)
    case Det(d) => StepDet(w, s, d)
    case App(p) => StepApp(w, s, p)
  }

  // ---- Runs ----

  /** The state a sequence of actions leads to, None when one of them cannot be taken. */
  ghost function Run(w: World, s: State, acts: seq<Action>): Option<State> {
    if acts == [] then Some(s)
    else
      var before := Run(w, s, acts[..|acts| - 1]);
      if before.Some? && Enabled(w, before.value, acts[|acts| - 1])
      then Some(Step(w, before.value, acts[|acts| - 1]))
      else None
  }
}
