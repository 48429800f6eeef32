/** What holds over every run of the protocol: the main invariant says of every event in the log what
    must have gone before it. ProtocolTheorems.dfy and ProtocolOrder.dfy read the guarantees off it. */
module ProtocolSafety {
  import opened Wrappers
  import opened Identity
  import opened Jobs
  import opened PlanDiffs
  import opened Classifier
  import opened Updates
  import opened Decisions
  import opened Rollbacks
  import opened Protocol
  import Orphans

  // ---- Reading the log ----

  predicate ByApplier(e: Event) {
    e.Took? || e.GatePassed? || e.GateClosed? || e.Replanned? || e.Rechecked?
    || e.Registered? || e.Deregistered? || e.Reverted? || e.Finished?
  }

  predicate OwnWrite(e: Event) {
    e.Registered? || e.Deregistered? || e.Reverted?
  }

  /** What the applier did since it was last handed a row, that hand-out included. */
  function HandOutTrace(log: Log): Log {
    if log == [] then []
    else
      var e := log[|log| - 1];
      if e.Took? then [e]
      else if ByApplier(e) then HandOutTrace(log[..|log| - 1]) + [e]
      else HandOutTrace(log[..|log| - 1])
  }

  /** The freeze records as last read. */
  function LastRead(log: Log): Option<View> {
    if log == [] then None
    else if log[|log| - 1].FreezesRead? then Some(log[|log| - 1].view)
    else LastRead(log[..|log| - 1])
  }

  /** What an event means for the clocks of orphans. */
  function MomentOf(e: Event): Option<Orphans.Moment> {
    match e
    case FreezesRead(view) => Some(Orphans.FreezesRead(view.readAt, view.held))
    case Thawed(jobID, time) => Some(Orphans.Thawed(time, jobID))
    case CycleCommitted(_, time, keys) => Some(Orphans.Committed(time, keys))
    case _ => None
  }

  /** The freeze reads, thaws and committed cycles of the log, in order. */
  function Moments(log: Log): seq<Orphans.Moment> {
    if log == [] then []
    else
      var m := MomentOf(log[|log| - 1]);
      Moments(log[..|log| - 1]) + if m.Some? then [m.value] else []
  }

  /** The status of a job as the changes since an event leave it. */
  function StatusSince(log: Log, i: nat, jobID: string, first: string): string {
    if |log| <= i + 1 then first
    else StatusAfter(StatusSince(log[..|log| - 1], i, jobID, first), log[|log| - 1], jobID)
  }

  function StatusAfter(status: string, e: Event, jobID: string): string {
    if e.StatusChanged? && e.jobID == jobID then e.became else status
  }

  predicate Writes(e: Event, jobID: string) {
    match e
    case Registered(row, _, _, _) => row.jobID == jobID
    case Deregistered(row, _, _) => row.jobID == jobID
    case Reverted(row, _, _) => row.jobID == jobID
    case OutsideWrote(id, _) => id == jobID
    case OutsidePurged(id) => id == jobID
    case _ => false
  }

  predicate Purges(e: Event, jobID: string) {
    (e.OutsidePurged? && e.jobID == jobID) || (e.Deregistered? && e.row.jobID == jobID && e.remains.None?)
  }

  /** Nobody wrote the job since the event. */
  ghost predicate Quiet(log: Log, i: nat, jobID: string) {
    forall m :: i < m < |log| ==> !Writes(log[m], jobID)
  }

  ghost predicate PurgedSince(log: Log, i: nat, jobID: string) {
    exists m :: i < m < |log| && Purges(log[m], jobID)
  }

  // ---- Where rows come from ----

  /** The event enqueued an update that asks for just what the row would register. */
  ghost predicate AsksRegister(log: Log, q: nat, r: Row) {
    q < |log| && log[q].Enqueued? && log[q].from < q && HasApproval(log, log[q].from)
    && (var c := CandidateAt(log, log[q].from);
        r.job == Some(c.job) && r.jobID == c.jobID == c.job.id && r.modifyIndex == c.modifyIndex
        && (r.preserveCounts <==> Scales(c.job))
        && log[q].u.updateID == r.updateID && log[q].u.commit == CommitOf(log, log[log[q].from].at))
  }

  ghost predicate AsksRemoval(log: Log, q: nat, r: Row) {
    q < |log| && log[q].Enqueued? && log[q].from < q && HasRemoval(log, log[q].from)
    && log[log[q].from].stub.id == r.jobID && log[q].u.updateID == r.updateID
  }

  ghost predicate AsksRevert(log: Log, q: nat, r: Row) {
    q < |log| && log[q].Enqueued? && log[q].from < q && HasFailure(log, log[q].from)
    && (var f := log[log[q].from];
        f.entry.job.id == r.jobID && f.failed == r.revertFrom && LastStable(f.versions, f.failed) == Some(r.revertTo))
  }

  /** Detection asked for what the row is about to do. */
  ghost predicate Sourced(log: Log, r: Row) {
    match r.operation
    case Register => r.job.Some? ==> exists q :: AsksRegister(log, q, r)
    case Deregister => exists q :: AsksRemoval(log, q, r)
    case Revert => exists q :: AsksRevert(log, q, r)
    case Unsupported(_) => false
  }

  /** What is enqueued is what the decision it builds on asks for. */
  ghost predicate BuildsOn(log: Log, from: nat, u: Row) {
    from < |log|
    && match u.operation
       case Register =>
         HasApproval(log, from)
         && (var c := CandidateAt(log, from);
             u.job == Some(c.job) && u.jobID == c.jobID == c.job.id && u.modifyIndex == c.modifyIndex
             && (u.preserveCounts <==> Scales(c.job)) && u.hclFile == c.file
             && u.commit == CommitOf(log, log[from].at))
       case Deregister => HasRemoval(log, from) && log[from].stub.id == u.jobID && u.job.None?
       case Revert =>
         HasFailure(log, from) && log[from].entry.job.id == u.jobID && log[from].failed == u.revertFrom
         && LastStable(log[from].versions, log[from].failed) == Some(u.revertTo) && u.job.None?
       case Unsupported(_) => false
  }

  ghost predicate RowsOK(log: Log, rows: seq<Row>) {
    forall r :: r in rows && !r.status.Terminal() ==> Sourced(log, r) && Named(r)
  }

  // ---- What must have gone before an event ----

  /** The registration the write met is the one that was read, nobody wrote the job in between, its
      status is what the changes since left, and an image-only job was not counted as missing then. */
  ghost predicate TokenFresh(w: World, log: Log, i: nat, row: Row, before: Registration, met: string) {
    i < |log| && log[i].Read? && log[i].entry.job.id == row.jobID
    && log[i].info.Found? && log[i].info.reg == before && Quiet(log, i, row.jobID)
    && met == StatusSince(log, i, row.jobID, log[i].info.status)
    && (row.job.Some? && EffectivePolicy(w.cfg, MetaOf(row.job.value)).ImageOnly? ==> !TreatedAsMissing(w.cfg, log[i].info))
  }

  ghost predicate RegisterOK(w: World, log: Log, row: Row, before: Option<Registration>, met: string, after: Registration) {
    && (exists time, seen :: HandOutTrace(log) == [Took(row), GatePassed(row, time), Replanned(row, seen)])
    && row.operation.Register? && row.job.Some? && Sourced(log, row)
    // No lost write.
    && (if row.modifyIndex == 0 then before.None?
        else before.Some? && before.value.modifyIndex == row.modifyIndex
             && exists i :: TokenFresh(w, log, i, row, before.value, met))
    // Policy at the moment of landing.
    && MayApply(EffectivePolicy(w.cfg, MetaOf(row.job.value)), ClassAgainst(w, row.job.value, before), before.None?)
    && (before.None? ==> w.cfg.enableJobCreation)
    && after == Registration(after.modifyIndex, if before.Some? then before.value.version + 1 else 0,
                             w.stored(row.job.value, row.preserveCounts, before))
  }

  /** Whoever reverted the job from this version before, the job was purged since. */
  ghost predicate RevertedOnce(log: Log, row: Row) {
    forall k :: 0 <= k < |log| && log[k].Reverted? && log[k].row.jobID == row.jobID && log[k].row.revertFrom == row.revertFrom
                ==> PurgedSince(log, k, row.jobID)
  }

  /** Whoever saw the job as a failure was decided on saw this very registration, or the job was written since. */
  ghost predicate SeenOrWritten(log: Log, jobID: string, found: Registration) {
    forall a :: 0 <= a < |log| && log[a].FailureSeen? && log[a].entry.job.id == jobID && Quiet(log, a, jobID)
                ==> log[a].live == found
  }

  /** The times so far. */
  ghost predicate TimesOK(run: seq<Orphans.Moment>, now: int) {
    Orphans.InOrder(run) && forall i :: 0 <= i < |run| ==> run[i].time <= now
  }

  /** A removal was decided on a job the cycle saw orphaned, with the grace period over by the clocks of
      the log. */
  ghost predicate RemovalOK(w: World, log: Log, at: nat, time: int, stub: Orphans.Stub) {
    SawOrphan(w, log, at, stub) && Uncommitted(log, at) && Managed(w.cfg, stub.meta) && TimesOK(Moments(log), time)
    && DecideDeregister(w.cfg, stub.meta, Blocked(w, LastRead(log), stub.id, time),
                        Orphans.GraceOver(Orphans.AfterRun(Moments(log)), w.grace, time, stub.id)).DeregisterQueued?
  }

  /** A cycle commits as orphans exactly the jobs it saw orphaned. */
  ghost predicate CommitOK(w: World, log: Log, at: nat, keys: set<string>) {
    HasCycle(log, at)
    && OrphanKeys(w, log, at) <= keys
    && forall k :: k in keys && OrphanJobFromDriftKey(k).Some? ==> k in OrphanKeys(w, log, at)
  }

  ghost predicate EventOK(w: World, log: Log, e: Event) {
    match e
    case CycleStarted(commit, _, _) => '/' !in commit
    case CycleCommitted(at, _, keys) => CommitOK(w, log, at, keys)
    case Read(at, entry, _) => HasCycle(log, at) && Orphans.EntryOf(w.cfg, w.glob, log[at].files, entry)
    case Drift(at, seen, c) => HasRead(log, at) && Detected(w, log[at], seen) == Some(c)
    case Approved(at, time, knownFailed) =>
      HasCandidate(log, at)
      && DecideApply(w.cfg, log[at].c, CommitOf(log, at), Blocked(w, LastRead(log), log[at].c.jobID, time), knownFailed).Queued?
    case Tagged(at, time, _) =>
      HasCandidate(log, at)
      && ConsultsFlapGuard(w.cfg, log[at].c, CommitOf(log, at), Blocked(w, LastRead(log), log[at].c.jobID, time))
    case RemovalApproved(at, time, stub) => RemovalOK(w, log, at, time, stub)
    case FailureSeen(at, time, entry, failed, live, versions) =>
      HasCycle(log, at) && Orphans.EntryOf(w.cfg, w.glob, log[at].files, entry)
      && EffectiveRollback(w.cfg, MetaOf(entry.job)) && !Blocked(w, LastRead(log), entry.job.id, time)
      && !JobHasAutoRevert(live.spec) && LastStable(versions, failed).Some?
    case Enqueued(u, from, _) => u.status.Pending? && BuildsOn(log, from, u) && Named(u)
    case Took(row) =>
      row.status.InProgress? && Sourced(log, row) && Named(row)
      && (HandOutTrace(log) == [] || HandOutTrace(log)[|HandOutTrace(log)| - 1].Finished?)
    case GatePassed(row, time) => HandOutTrace(log) == [Took(row)] && !Blocked(w, LastRead(log), row.jobID, time)
    case GateClosed(row, time) => HandOutTrace(log) == [Took(row)] && Blocked(w, LastRead(log), row.jobID, time)
    case Replanned(row, seen) =>
      (exists time :: HandOutTrace(log) == [Took(row), GatePassed(row, time)])
      && row.operation.Register? && row.job.Some? && !ClassAgainst(w, row.job.value, seen).NoChange?
    case Rechecked(row, reg) =>
      (exists time :: HandOutTrace(log) == [Took(row), GatePassed(row, time)])
      && row.operation.Deregister? && Managed(w.cfg, MetaOf(reg.spec))
    case Registered(row, before, met, after) => RegisterOK(w, log, row, before, met, after)
    case Deregistered(row, _, remains) =>
      (exists time, reg :: HandOutTrace(log) == [Took(row), GatePassed(row, time), Rechecked(row, reg)])
      && row.operation.Deregister? && Sourced(log, row) && (remains.None? <==> w.cfg.deregisterPurge)
    case Reverted(row, found, after) =>
      (exists time :: HandOutTrace(log) == [Took(row), GatePassed(row, time)])
      && row.operation.Revert? && Sourced(log, row)
      && found.version == row.revertFrom && row.revertTo < row.revertFrom && after.version == found.version + 1
      && SeenOrWritten(log, row.jobID, found)
      && RevertedOnce(log, row)
    case Finished(completed, status) =>
      status.Terminal() && HandOutTrace(log) != [] && !HandOutTrace(log)[|HandOutTrace(log)| - 1].Finished?
      && completed.Some? && HandOutTrace(log)[0] == Took(completed.value)
      && HeldAtTheGate(completed.value, status, HandOutTrace(log))
    case _ => true
  }

  /** A row ends held exactly if the gate was closed, and then nothing else was done with it. */
  ghost predicate HeldAtTheGate(row: Row, status: Status, trace: Log) {
    |trace| >= 2
    && (status.Held? ==> |trace| == 2 && trace[1].GateClosed? && trace[1].row == row)
    && (!status.Held? ==> trace[1].GatePassed? && trace[1].row == row)
  }

  ghost predicate LogOK(w: World, log: Log) {
    forall k :: 0 <= k < |log| ==> EventOK(w, log[..k], log[k])
  }

  // ---- What holds of the state ----

  /** The registration is gone: the job was written or purged since. */
  predicate Outdated(s: State, jobID: string, reg: Registration) {
    reg.modifyIndex <= s.raft && (jobID in s.cluster ==> s.cluster[jobID].reg.modifyIndex > reg.modifyIndex)
  }

  ghost predicate IndexesOK(s: State) {
    forall j :: j in s.cluster ==> 0 < s.cluster[j].reg.modifyIndex <= s.raft
  }

  /** The registration an event saw, of the job its entry names. */
  function SeenReg(e: Event): Option<Registration> {
    if e.Read? && e.info.Found? then Some(e.info.reg)
    else if e.FailureSeen? then Some(e.live)
    else None
  }

  ghost predicate ReadOK(s: State, i: nat)
    requires i < |s.log|
  {
    SeenReg(s.log[i]).Some? ==>
      var id, reg := s.log[i].entry.job.id, SeenReg(s.log[i]).value;
      reg.modifyIndex > 0 && (if Quiet(s.log, i, id) then StillSeen(s, i, id, reg) else Outdated(s, id, reg))
  }

  ghost predicate StillSeen(s: State, i: nat, id: string, reg: Registration)
    requires i < |s.log|
  {
    RegOf(s, id) == Some(reg)
    && (s.log[i].Read? && s.log[i].info.Found? ==> MetStatus(s, id) == StatusSince(s.log, i, id, s.log[i].info.status))
  }

  ghost predicate DriftOK(s: State, k: nat)
    requires k < |s.log|
  {
    s.log[k].Drift? && s.log[k].at < |s.log| && s.log[s.log[k].at].Read? && s.log[s.log[k].at].info.Found? ==>
      var id, reg := s.log[s.log[k].at].entry.job.id, s.log[s.log[k].at].info.reg;
      Outdated(s, id, reg) || s.log[k].seen == Some(reg)
  }

  ghost predicate RevertOK(s: State, k: nat)
    requires k < |s.log|
  {
    s.log[k].Reverted? ==>
      var id := s.log[k].row.jobID;
      PurgedSince(s.log, k, id) || (id in s.cluster && s.cluster[id].reg.version > s.log[k].row.revertFrom)
  }

  /** Every registration that was ever seen and is not outdated is the one in the cluster now. */
  ghost predicate HistoryOK(s: State) {
    forall k :: 0 <= k < |s.log| ==> ReadOK(s, k) && DriftOK(s, k) && RevertOK(s, k)
  }

  /** Where the applier is agrees with the queue and with the log. */
  ghost predicate PhaseOK(s: State) {
    && (s.phase.Idle? ==>
          (forall r :: r in s.rows ==> !r.status.InProgress?)
          && (HandOutTrace(s.log) == [] || HandOutTrace(s.log)[|HandOutTrace(s.log)| - 1].Finished?))
    && (!s.phase.Idle? ==>
          s.phase.row in s.rows && s.phase.row.status.InProgress?
          && (forall r :: r in s.rows && r.status.InProgress? ==> r == s.phase.row)
          && Sourced(s.log, s.phase.row) && Named(s.phase.row) && TraceFits(s.phase, HandOutTrace(s.log)))
  }

  ghost predicate TraceFits(phase: Phase, trace: Log)
    requires !phase.Idle?
  {
    match phase
    case Taken(row) => trace == [Took(row)]
    case Gated(row) => exists time :: trace == [Took(row), GatePassed(row, time)]
    case Ready(row) =>
      row.operation.Register? && row.job.Some?
      && exists time, seen :: trace == [Took(row), GatePassed(row, time), Replanned(row, seen)]
    case Confirmed(row) =>
      row.operation.Deregister? && exists time, reg :: trace == [Took(row), GatePassed(row, time), Rechecked(row, reg)]
    case Ending(row, status, _, _) =>
      status.Terminal() && trace != [] && trace[0] == Took(row) && !trace[|trace| - 1].Finished?
      && HeldAtTheGate(row, status, trace)
  }

  /** The clocks of orphans are those of the log. */
  ghost predicate WatchOK(s: State) {
    s.watch == Orphans.AfterRun(Moments(s.log)) && TimesOK(Moments(s.log), s.now)
  }

  ghost predicate Inv(w: World, s: State) {
    LogOK(w, s.log) && IndexesOK(s) && HistoryOK(s) && RowsOK(s.log, s.rows) && QueueInv(s.rows) && PhaseOK(s)
    && s.view == LastRead(s.log) && WatchOK(s)
  }

  lemma InvParts(w: World, s: State)
    requires Inv(w, s)
    ensures LogOK(w, s.log) && IndexesOK(s) && HistoryOK(s) && RowsOK(s.log, s.rows) && QueueInv(s.rows) && PhaseOK(s)
    ensures s.view == LastRead(s.log) && WatchOK(s)
  {
    hide LogOK;
    hide IndexesOK;
    hide HistoryOK;
    hide RowsOK;
    hide QueueInv;
    hide PhaseOK;
    hide LastRead;
    hide WatchOK;
  }

  // ---- The log only grows ----

  lemma LogGrows(w: World, log: Log, e: Event)
    requires LogOK(w, log) && EventOK(w, log, e)
    ensures LogOK(w, log + [e])
  {
    hide EventOK;
    var after := log + [e];
    forall k | 0 <= k < |after| ensures EventOK(w, after[..k], after[k]) {
      assert after[..k] == log[..k];
      assert log[..|log|] == log;
    }
  }

  lemma HandOutTraceGrows(log: Log, e: Event)
    ensures HandOutTrace(log + [e]) == if e.Took? then [e] else if ByApplier(e) then HandOutTrace(log) + [e] else HandOutTrace(log)
  {
    assert (log + [e])[..|log|] == log;
  }

  lemma LastReadGrows(log: Log, e: Event)
    ensures LastRead(log + [e]) == if e.FreezesRead? then Some(e.view) else LastRead(log)
  {
    assert (log + [e])[..|log|] == log;
  }

  lemma MomentsGrow(log: Log, e: Event)
    ensures Moments(log + [e]) == Moments(log) + if MomentOf(e).Some? then [MomentOf(e).value] else []
  {
    assert (log + [e])[..|log|] == log;
  }

  lemma StatusGrows(log: Log, e: Event, i: nat, jobID: string, first: string)
    requires i < |log|
    ensures StatusSince(log + [e], i, jobID, first) == StatusAfter(StatusSince(log, i, jobID, first), e, jobID)
  {
    assert (log + [e])[..|log|] == log;
  }

  lemma SourcedGrows(log: Log, e: Event, r: Row)
    requires Sourced(log, r)
    ensures Sourced(log + [e], r)
  {
    var after := log + [e];
    match r.operation {
      case Register =>
        if r.job.Some? {
          var k :| AsksRegister(log, k, r);
          assert AsksRegister(after, k, r);
        }
      case Deregister =>
        var k :| AsksRemoval(log, k, r);
        assert AsksRemoval(after, k, r);
      case Revert =>
        var k :| AsksRevert(log, k, r);
        assert AsksRevert(after, k, r);
      case Unsupported(_) =>
    }
  }

  lemma RowsGrow(log: Log, e: Event, rows: seq<Row>)
    requires RowsOK(log, rows)
    ensures RowsOK(log + [e], rows)
  {
    hide Sourced;
    forall r | r in rows && !r.status.Terminal() ensures Sourced(log + [e], r) {
      SourcedGrows(log, e, r);
    }
  }

  // ---- How one step changes the cluster ----

  /** Between two states: every job has the registration it had, or a newer one, or none; and what
      changed a job is in the log. */
  ghost predicate Evolves(s: State, t: State, e: Option<Event>) {
    && s.raft <= t.raft
    && t.log == (if e.Some? then s.log + [e.value] else s.log)
    && (forall j :: JobFollows(s, t, e, j))
  }

  predicate JobFollows(s: State, t: State, e: Option<Event>, j: string) {
    if e.Some? && Writes(e.value, j) then Newer(s, t, j, e.value)
    else RegOf(s, j) == RegOf(t, j)
         && MetStatus(t, j) == if e.Some? then StatusAfter(MetStatus(s, j), e.value, j) else MetStatus(s, j)
  }

  predicate Newer(s: State, t: State, j: string, e: Event) {
    if j in t.cluster then
      s.raft < t.cluster[j].reg.modifyIndex <= t.raft
      && (j in s.cluster ==> t.cluster[j].reg.version == s.cluster[j].reg.version + 1)
    else Purges(e, j)
  }

  lemma OutdatedStays(s: State, t: State, e: Option<Event>, j: string, reg: Registration)
    requires Evolves(s, t, e) && Outdated(s, j, reg)
    ensures Outdated(t, j, reg)
  {
    assert JobFollows(s, t, e, j);
  }

  lemma IndexesStay(s: State, t: State, e: Option<Event>)
    requires Evolves(s, t, e) && IndexesOK(s)
    ensures IndexesOK(t)
  {
    forall j | j in t.cluster ensures 0 < t.cluster[j].reg.modifyIndex <= t.raft {
      assert JobFollows(s, t, e, j);
    }
  }

  lemma QuietGrows(log: Log, e: Event, i: nat, j: string)
    requires i < |log|
    ensures Quiet(log + [e], i, j) <==> Quiet(log, i, j) && !Writes(e, j)
  {
    var after := log + [e];
    assert after[|log|] == e;
    if Quiet(after, i, j) {
      forall m | i < m < |log| ensures !Writes(log[m], j) {
        assert after[m] == log[m];
      }
    }
  }

  /** A write or a purge outdates whatever was read of the job before. */
  lemma ReadStays(s: State, t: State, e: Option<Event>, i: nat)
    requires Evolves(s, t, e) && IndexesOK(s) && i < |s.log| && ReadOK(s, i)
    ensures ReadOK(t, i)
  {
    if SeenReg(s.log[i]).Some? {
      var id, reg := s.log[i].entry.job.id, SeenReg(s.log[i]).value;
      assert JobFollows(s, t, e, id);
      if e.Some? {
        QuietGrows(s.log, e.value, i, id);
      }
      if Outdated(s, id, reg) {
        OutdatedStays(s, t, e, id, reg);
      } else if e.Some? && !Writes(e.value, id) {
        hide Quiet;
        if s.log[i].Read? {
          StatusGrows(s.log, e.value, i, id, s.log[i].info.status);
        }
      }
    }
  }

  lemma DriftStays(s: State, t: State, e: Option<Event>, k: nat)
    requires Evolves(s, t, e) && k < |s.log| && DriftOK(s, k)
    requires s.log[k].Drift? ==> s.log[k].at < k
    ensures DriftOK(t, k)
  {
    if s.log[k].Drift? && s.log[s.log[k].at].Read? && s.log[s.log[k].at].info.Found? {
      var id, reg := s.log[s.log[k].at].entry.job.id, s.log[s.log[k].at].info.reg;
      if Outdated(s, id, reg) {
        OutdatedStays(s, t, e, id, reg);
      }
    }
  }

  lemma RevertStays(s: State, t: State, e: Option<Event>, k: nat)
    requires Evolves(s, t, e) && k < |s.log| && RevertOK(s, k)
    ensures RevertOK(t, k)
  {
    if s.log[k].Reverted? {
      var id := s.log[k].row.jobID;
      assert JobFollows(s, t, e, id);
      if PurgedSince(s.log, k, id) {
        var m :| k < m < |s.log| && Purges(s.log[m], id);
        assert k < m < |t.log| && Purges(t.log[m], id);
      } else if id !in t.cluster {
        assert Purges(t.log[|s.log|], id);
      }
    }
  }

  /** The event a step leaves is itself in order. */
  ghost predicate NewestOK(t: State) {
    t.log != [] && ReadOK(t, |t.log| - 1) && DriftOK(t, |t.log| - 1) && RevertOK(t, |t.log| - 1)
  }

  lemma HistoryStays(w: World, s: State, t: State, e: Option<Event>)
    requires Evolves(s, t, e) && IndexesOK(s) && HistoryOK(s) && LogOK(w, s.log)
    requires e.Some? ==> NewestOK(t)
    ensures HistoryOK(t)
  {
    forall k | 0 <= k < |t.log| ensures ReadOK(t, k) && DriftOK(t, k) && RevertOK(t, k) {
      if k < |s.log| {
        assert EventOK(w, s.log[..k], s.log[k]);
        ReadStays(s, t, e, k);
        DriftStays(s, t, e, k);
        RevertStays(s, t, e, k);
      }
    }
  }

  // ---- What the queue operations do to the rows' provenance ----

  lemma RefreshSourced(log: Log, r: Row, u: Row)
    requires Sourced(log, r) && Named(r) && Sourced(log, u) && Named(u) && r.updateID == u.updateID
    requires u.job.Some? ==> u.operation.Register?
    ensures Sourced(log, Refresh(r, u)) && Named(Refresh(r, u))
  {
    if r.operation.Revert? != u.operation.Revert? {
      if r.operation.Revert? {
        UpdateIsNeverRevert(u.jobID, u.commit, r.jobID, r.revertFrom);
      } else {
        UpdateIsNeverRevert(r.jobID, r.commit, u.jobID, u.revertFrom);
      }
      assert false;
    } else if r.operation.Revert? {
      var k :| AsksRevert(log, k, r);
      assert AsksRevert(log, k, Refresh(r, u));
    } else if r.operation.Deregister? {
      var k :| AsksRemoval(log, k, r);
      assert AsksRemoval(log, k, Refresh(r, u));
    } else if u.job.Some? {
      UpdateIDDetermines(r.jobID, r.commit, u.jobID, u.commit);
      var k :| AsksRegister(log, k, u);
      assert AsksRegister(log, k, Refresh(r, u));
    }
  }

  lemma StatusIrrelevant(log: Log, r: Row, st: Status)
    requires Sourced(log, r) && Named(r)
    ensures Sourced(log, r.(status := st)) && Named(r.(status := st))
  {
    var r' := r.(status := st);
    match r.operation {
      case Register =>
        if r.job.Some? {
          var k :| AsksRegister(log, k, r);
          assert AsksRegister(log, k, r');
        }
      case Deregister =>
        var k :| AsksRemoval(log, k, r);
        assert AsksRemoval(log, k, r');
      case Revert =>
        var k :| AsksRevert(log, k, r);
        assert AsksRevert(log, k, r');
      case Unsupported(_) =>
    }
  }

  lemma EnqueueRowsOK(log: Log, rows: seq<Row>, u: Row)
    requires RowsOK(log, rows) && QueueInv(rows) && Sourced(log, u) && Named(u) && u.status.Pending?
    requires u.job.Some? ==> u.operation.Register?
    ensures RowsOK(log, Enqueue(rows, u))
  {
    forall r | r in Enqueue(rows, u) && !r.status.Terminal() ensures Sourced(log, r) && Named(r) {
      if r.status.InProgress? {
        EnqueueKeepsRunning(rows, u, r);
      } else {
        EnqueuePending(rows, u, r);
        if r !in rows && r != u.(status := Pending) {
          var waiting :| waiting in rows && waiting.status.Pending? && waiting.updateID == u.updateID && r == Refresh(waiting, u);
          RefreshSourced(log, waiting, u);
        }
      }
    }
  }

  lemma TakeRowsOK(log: Log, rows: seq<Row>)
    requires RowsOK(log, rows) && FindPending(rows) < |rows|
    ensures RowsOK(log, HandOut(rows))
    ensures var row := HandOut(rows)[FindPending(rows)];
            row in HandOut(rows) && row.status.InProgress? && Sourced(log, row) && Named(row)
  {
    hide Sourced;
    var i := FindPending(rows);
    assert rows[i] in rows;
    StatusIrrelevant(log, rows[i], InProgress);
    forall r | r in HandOut(rows) && !r.status.Terminal() ensures Sourced(log, r) && Named(r) {
      var k :| 0 <= k < |rows| && HandOut(rows)[k] == r;
      assert k != i ==> rows[k] == r;
    }
  }

  lemma TakeRunsOne(rows: seq<Row>)
    requires (forall r :: r in rows ==> !r.status.InProgress?) && FindPending(rows) < |rows|
    ensures forall r :: r in HandOut(rows) && r.status.InProgress? ==> r == HandOut(rows)[FindPending(rows)]
  {
    var i := FindPending(rows);
    forall r | r in HandOut(rows) && r.status.InProgress? ensures r == HandOut(rows)[i] {
      var k :| 0 <= k < |rows| && HandOut(rows)[k] == r;
      assert rows[k] in rows;
    }
  }

  /** Completing the one row that runs: it is found, and nothing runs afterwards. */
  lemma FinishOne(rows: seq<Row>, row: Row, st: Status, index: nat, error: string, now: int)
    requires UniqueIDs(rows) && row in rows && row.status.InProgress? && st.Terminal()
    requires forall r :: r in rows && r.status.InProgress? ==> r == row
    ensures FindRunning(rows, row.updateID) < |rows| && rows[FindRunning(rows, row.updateID)] == row
    ensures forall r :: r in Complete(rows, row.updateID, st, index, error, now) && !r.status.Terminal() ==>
                          r in rows && r.status.Pending?
  {
    var k :| 0 <= k < |rows| && rows[k] == row;
    var i := FindRunning(rows, row.updateID);
    assert i <= k;
    assert rows[i] in rows;
    hide Complete;
    hide FindRunning;
    forall r | r in Complete(rows, row.updateID, st, index, error, now) && !r.status.Terminal()
      ensures r in rows && r.status.Pending?
    {
      CompleteRecords(rows, row, st, index, error, now, r);
      assert r != row;
    }
  }

  // ---- A registration that lands ----

  /** What an approved candidate says, read back through the log. */
  lemma ApprovedMeans(w: World, log: Log, k: nat) returns (read: nat, seen: Option<Registration>)
    requires LogOK(w, log) && HasApproval(log, k)
    ensures HasRead(log, read) && log[k].at < |log| && log[log[k].at] == Drift(read, seen, CandidateAt(log, k))
    ensures Detected(w, log[read], seen) == Some(CandidateAt(log, k))
    ensures var c := CandidateAt(log, k);
            MayApply(EffectivePolicy(w.cfg, MetaOf(c.job)), c.change, c.creation) && (c.creation ==> w.cfg.enableJobCreation)
            && c.jobID == c.job.id == log[read].entry.job.id
  {
    var d := log[k].at;
    read, seen := log[d].at, log[d].seen;
    assert EventOK(w, log[..k], log[k]);
    assert EventOK(w, log[..d], log[d]);
    ApprovalPermits(w, log[..k], log[k]);
    var e := log[read];
    CreationIsOther(w.cfg, e.entry, e.info, Planned(w.plan(JobToApply(e.entry.job, e.info), seen)));
    hide EventOK;
    hide DecideApply;
    PermittedExactly(w.cfg, log[d].c.job, log[d].c.change, log[d].c.creation);
    hide Permitted;
    hide Guarded;
    QueuedExactly(w.cfg, log[d].c, CommitOf(log[..k], d), Blocked(w, LastRead(log[..k]), log[d].c.jobID, log[k].time),
                  log[k].knownFailed);
  }

  lemma ApprovalPermits(w: World, log: Log, e: Event)
    requires e.Approved? && EventOK(w, log, e)
    ensures HasCandidate(log, e.at)
    ensures DecideApply(w.cfg, log[e.at].c, CommitOf(log, e.at), Blocked(w, LastRead(log), log[e.at].c.jobID, e.time),
                        e.knownFailed).Queued?
  {
  }

  /** Stopping a job that is stopped in Nomad does not change which groups are autoscaled. */
  lemma SameAutoscaled(job: Job, info: Info)
    ensures AutoscaledGroups(JobToApply(job, info)) == AutoscaledGroups(job)
  {
  }

  /** What the plan showed at detection is what it shows at landing: the index that still matches
      stands for the registration that was read and planned. */
  lemma LandsAsApproved(w: World, s: State, row: Row, q: nat)
    requires LogOK(w, s.log) && IndexesOK(s) && HistoryOK(s)
    requires AsksRegister(s.log, q, row) && row.job.Some? && RegisterLands(s, row)
    ensures var before := RegOf(s, row.job.value.id);
            MayApply(EffectivePolicy(w.cfg, MetaOf(row.job.value)), ClassAgainst(w, row.job.value, before), before.None?)
            && (before.None? ==> w.cfg.enableJobCreation)
            && (row.modifyIndex != 0 ==>
                  before.Some? && exists i :: TokenFresh(w, s.log, i, row, before.value, MetStatus(s, row.jobID)))
  {
    var k := s.log[q].from;
    var read, seen := ApprovedMeans(w, s.log, k);
    var e, c := s.log[read], CandidateAt(s.log, k);
    var plan := Planned(w.plan(JobToApply(e.entry.job, e.info), seen));
    CreationIsOther(w.cfg, e.entry, e.info, plan);
    SameAutoscaled(e.entry.job, e.info);
    assert ReadOK(s, read) && DriftOK(s, s.log[k].at);
    hide LogOK;
    hide HistoryOK;
    if row.modifyIndex != 0 {
      assert TokenFresh(w, s.log, read, row, RegOf(s, row.jobID).value, MetStatus(s, row.jobID));
    }
  }

  // ---- Every step keeps the invariant ----

  predicate ViewFollows(s: State, t: State, e: Option<Event>) {
    t.view == if e.Some? && e.value.FreezesRead? then Some(e.value.view) else s.view
  }

  /** Time goes on, and the clocks of orphans with the events that concern them. */
  predicate WatchFollows(s: State, t: State, e: Option<Event>) {
    if e.Some? && MomentOf(e.value).Some?
    then t.now == s.now == MomentOf(e.value).value.time && t.watch == Orphans.AfterMoment(s.watch, MomentOf(e.value).value)
    else t.now >= s.now && t.watch == s.watch
  }

  lemma WatchStays(s: State, t: State, e: Option<Event>)
    requires WatchOK(s) && WatchFollows(s, t, e) && t.log == if e.Some? then s.log + [e.value] else s.log
    ensures WatchOK(t)
  {
    hide MomentOf;
    hide Orphans.AfterMoment;
    if e.Some? {
      MomentsGrow(s.log, e.value);
      if MomentOf(e.value).Some? {
        var run, m := Moments(s.log), MomentOf(e.value).value;
        assert (run + [m])[..|run|] == run;
        assert Orphans.AfterRun(run + [m]) == Orphans.AfterMoment(Orphans.AfterRun(run), m);
        hide Orphans.AfterRun;
        hide Moments;
        TimesGrow(run, m, s.now);
      } else {
        assert Moments(s.log) + [] == Moments(s.log);
      }
    }
  }

  lemma TimesGrow(run: seq<Orphans.Moment>, m: Orphans.Moment, now: int)
    requires TimesOK(run, now) && m.time == now
    ensures TimesOK(run + [m], now)
  {
  }

  /** What a step has to show for itself. */
  lemma Keep(w: World, s: State, t: State, e: Option<Event>)
    requires Inv(w, s) && Evolves(s, t, e) && ViewFollows(s, t, e) && WatchFollows(s, t, e)
    requires e.Some? ==> EventOK(w, s.log, e.value) && NewestOK(t)
    requires RowsOK(t.log, t.rows) && QueueInv(t.rows) && PhaseOK(t)
    ensures Inv(w, t)
  {
    hide EventOK;
    hide PhaseOK;
    hide QueueInv;
    hide RowsOK;
    hide WatchOK;
    hide MomentOf;
    IndexesStay(s, t, e);
    HistoryStays(w, s, t, e);
    WatchStays(s, t, e);
    if e.Some? {
      LogGrows(w, s.log, e.value);
      LastReadGrows(s.log, e.value);
    }
  }

  /** Events that say nothing of the cluster and of the freeze store. */
  predicate Plain(e: Event) {
    match e
    case CycleStarted(_, _, _) => true
    case Approved(_, _, _) => true
    case Tagged(_, _, _) => true
    case RemovalApproved(_, _, _) => true
    case Enqueued(_, _, _) => true
    case Took(_) => true
    case GatePassed(_, _) => true
    case GateClosed(_, _) => true
    case Replanned(_, _) => true
    case Rechecked(_, _) => true
    case Finished(_, _) => true
    case _ => false
  }

  lemma PlainStep(s: State, t: State, e: Event)
    requires Plain(e) && t.log == s.log + [e]
    requires t.cluster == s.cluster && t.raft == s.raft && t.view == s.view && t.now == s.now && t.watch == s.watch
    ensures t.log[|s.log|] == e && Evolves(s, t, Some(e)) && ViewFollows(s, t, Some(e)) && WatchFollows(s, t, Some(e)) && NewestOK(t)
  {
  }

  /** Steps that touch neither the queue nor the applier. */
  lemma QueueStays(s: State, t: State, e: Option<Event>)
    requires PhaseOK(s) && RowsOK(s.log, s.rows) && t.rows == s.rows && t.phase == s.phase
    requires t.log == if e.Some? then s.log + [e.value] else s.log
    requires e.Some? ==> !ByApplier(e.value)
    ensures PhaseOK(t) && RowsOK(t.log, t.rows)
  {
    hide Sourced;
    hide Named;
    if e.Some? {
      HandOutTraceGrows(s.log, e.value);
      RowsGrow(s.log, e.value, s.rows);
      if !s.phase.Idle? {
        SourcedGrows(s.log, e.value, s.phase.row);
      }
    }
  }

  /** A step that leaves queue and applier alone. */
  lemma AsideKeeps(w: World, s: State, t: State, e: Option<Event>)
    requires Inv(w, s) && Evolves(s, t, e) && ViewFollows(s, t, e) && WatchFollows(s, t, e)
    requires t.rows == s.rows && t.phase == s.phase
    requires e.Some? ==> !ByApplier(e.value) && EventOK(w, s.log, e.value) && NewestOK(t)
    ensures Inv(w, t)
  {
    assert t.log == if e.Some? then s.log + [e.value] else s.log;
    hide PhaseOK;
    hide RowsOK;
    hide QueueInv;
    hide HistoryOK;
    hide LogOK;
    hide EventOK;
    hide WatchOK;
    hide MomentOf;
    hide Evolves;
    QueueStays(s, t, e);
    Keep(w, s, t, e);
  }

  lemma OutsideWriteKeeps(w: World, s: State, jobID: string, spec: Job, status: string)
    requires Inv(w, s)
    ensures Inv(w, StepEnv(w, s, OutsideWrite(jobID, spec, status)))
  {
    hide Inv;
    var e := OutsideWrote(jobID, NextReg(s, jobID, spec));
    var t := Note(Write(s, jobID, spec, status), e);
    assert t.log[|s.log|] == e;
    WriteEvolves(s, jobID, spec, status, e);
    AsideKeeps(w, s, t, Some(e));
  }

  lemma OutsidePurgeKeeps(w: World, s: State, jobID: string)
    requires Inv(w, s) && jobID in s.cluster
    ensures Inv(w, StepEnv(w, s, OutsidePurge(jobID)))
  {
    hide Inv;
    var e := OutsidePurged(jobID);
    assert Note(Purge(s, jobID), e).log[|s.log|] == e;
    AsideKeeps(w, s, Note(Purge(s, jobID), e), Some(e));
  }

  lemma StatusKeeps(w: World, s: State, jobID: string, status: string)
    requires Inv(w, s) && jobID in s.cluster
    ensures Inv(w, StepStatus(s, jobID, status))
  {
    hide Inv;
    var e := StatusChanged(jobID, status);
    assert StepStatus(s, jobID, status).log[|s.log|] == e;
    AsideKeeps(w, s, StepStatus(s, jobID, status), Some(e));
  }

  lemma ReadFreezesKeeps(w: World, s: State, held: set<string>)
    requires Inv(w, s)
    ensures Inv(w, StepReadFreezes(s, held))
  {
    hide Inv;
    var e := FreezesRead(View(s.now, held));
    assert StepReadFreezes(s, held).log[|s.log|] == e;
    AsideKeeps(w, s, StepReadFreezes(s, held), Some(e));
  }

  lemma ThawKeeps(w: World, s: State, jobID: string)
    requires Inv(w, s)
    ensures Inv(w, StepThaw(s, jobID))
  {
    hide Inv;
    var e := Thawed(jobID, s.now);
    assert StepThaw(s, jobID).log[|s.log|] == e;
    AsideKeeps(w, s, StepThaw(s, jobID), Some(e));
  }

  lemma EnvKeeps(w: World, s: State, a: OutsideAction)
    requires Inv(w, s) && EnabledEnv(w, s, a)
    ensures Inv(w, StepEnv(w, s, a))
  {
    hide Inv;
    match a {
      case Tick(d) => AsideKeeps(w, s, s.(now := s.now + d), None);
      case OtherWrites(d) => AsideKeeps(w, s, s.(raft := s.raft + d), None);
      case OutsideWrite(jobID, spec, status) => OutsideWriteKeeps(w, s, jobID, spec, status);
      case OutsidePurge(jobID) => OutsidePurgeKeeps(w, s, jobID);
      case StatusChange(jobID, status) => StatusKeeps(w, s, jobID, status);
      case ReadFreezes(held) => ReadFreezesKeeps(w, s, held);
      case FailFreezeRead =>
      case Thaw(jobID) => ThawKeeps(w, s, jobID);
    }
  }

  /** Planning a job read before: either its registration is still the one read, or that is outdated. */
  lemma PlanSeesRead(s: State, at: nat)
    requires HistoryOK(s) && at < |s.log| && s.log[at].Read? && s.log[at].info.Found?
    ensures var id, reg := s.log[at].entry.job.id, s.log[at].info.reg;
            Outdated(s, id, reg) || RegOf(s, id) == Some(reg)
  {
    assert ReadOK(s, at);
  }

  /** An event that changes nothing but the log. */
  lemma NoteKeeps(w: World, s: State, e: Event)
    requires Inv(w, s) && !ByApplier(e) && MomentOf(e).None? && !e.StatusChanged? && (forall j :: !Writes(e, j))
    requires EventOK(w, s.log, e) && NewestOK(Note(s, e))
    ensures Inv(w, Note(s, e))
  {
    hide Inv;
    hide EventOK;
    AsideKeeps(w, s, Note(s, e), Some(e));
  }

  lemma StartCycleKeeps(w: World, s: State, commit: string, files: seq<Orphans.RepoFile>, jobs: seq<Orphans.Stub>)
    requires Inv(w, s) && '/' !in commit
    ensures Inv(w, Note(s, CycleStarted(commit, files, jobs)))
  {
    hide Inv;
    var e := CycleStarted(commit, files, jobs);
    PlainStep(s, Note(s, e), e);
    hide NewestOK;
    NoteKeeps(w, s, e);
  }

  lemma ReadNewestOK(s: State, at: nat, entry: Entry)
    requires IndexesOK(s)
    ensures NewestOK(Note(s, Read(at, entry, InfoOf(s, entry.job.id))))
  {
    var e := Read(at, entry, InfoOf(s, entry.job.id));
    assert Note(s, e).log[|s.log|] == e;
  }

  lemma ReadJobKeeps(w: World, s: State, at: nat, entry: Entry)
    requires Inv(w, s) && HasCycle(s.log, at) && Orphans.EntryOf(w.cfg, w.glob, s.log[at].files, entry)
    ensures Inv(w, Note(s, Read(at, entry, InfoOf(s, entry.job.id))))
  {
    var e := Read(at, entry, InfoOf(s, entry.job.id));
    InvParts(w, s);
    ReadNewestOK(s, at, entry);
    hide Inv;
    hide NewestOK;
    hide InfoOf;
    hide HasCycle;
    hide IndexesOK;
    hide HistoryOK;
    hide LogOK;
    hide RowsOK;
    hide QueueInv;
    hide PhaseOK;
    hide WatchOK;
    hide Orphans.EntryOf;
    NoteKeeps(w, s, e);
  }

  lemma PlanEventOK(w: World, s: State, at: nat)
    requires HasRead(s.log, at) && DetectedAt(w, s, at).Some?
    ensures EventOK(w, s.log, Drift(at, RegOf(s, s.log[at].entry.job.id), DetectedAt(w, s, at).value))
  {
    hide Detected;
  }

  lemma PlanNewestOK(w: World, s: State, at: nat)
    requires HistoryOK(s) && HasRead(s.log, at) && DetectedAt(w, s, at).Some?
    ensures NewestOK(Note(s, Drift(at, RegOf(s, s.log[at].entry.job.id), DetectedAt(w, s, at).value)))
  {
    var e := Drift(at, RegOf(s, s.log[at].entry.job.id), DetectedAt(w, s, at).value);
    if s.log[at].info.Found? {
      PlanSeesRead(s, at);
    }
    hide HistoryOK;
    hide Detected;
    assert Note(s, e).log[|s.log|] == e && Note(s, e).log[at] == s.log[at];
  }

  lemma PlanJobKeeps(w: World, s: State, at: nat)
    requires Inv(w, s) && HasRead(s.log, at) && DetectedAt(w, s, at).Some?
    ensures Inv(w, Note(s, Drift(at, RegOf(s, s.log[at].entry.job.id), DetectedAt(w, s, at).value)))
  {
    var e := Drift(at, RegOf(s, s.log[at].entry.job.id), DetectedAt(w, s, at).value);
    PlanEventOK(w, s, at);
    PlanNewestOK(w, s, at);
    hide Inv;
    hide NewestOK;
    hide DetectedAt;
    hide EventOK;
    hide RegOf;
    NoteKeeps(w, s, e);
  }

  lemma ApprovedEventOK(w: World, s: State, at: nat, knownFailed: bool)
    requires s.view == LastRead(s.log) && EnabledDet(w, s, Approve(at, knownFailed))
    ensures EventOK(w, s.log, Approved(at, s.now, knownFailed))
  {
    hide DecideApply;
    hide Blocked;
    hide LastRead;
    hide HasCandidate;
    hide CommitOf;
  }

  lemma ApproveKeeps(w: World, s: State, at: nat, knownFailed: bool)
    requires Inv(w, s) && EnabledDet(w, s, Approve(at, knownFailed))
    ensures Inv(w, Note(s, Approved(at, s.now, knownFailed)))
  {
    hide EnabledDet;
    hide LastRead;
    assert s.view == LastRead(s.log);
    hide Inv;
    ApprovedEventOK(w, s, at, knownFailed);
    hide EventOK;
    var e := Approved(at, s.now, knownFailed);
    PlainStep(s, Note(s, e), e);
    hide NewestOK;
    NoteKeeps(w, s, e);
  }

  lemma TaggedEventOK(w: World, s: State, at: nat, version: nat)
    requires s.view == LastRead(s.log) && EnabledDet(w, s, TagVersion(at, version))
    ensures EventOK(w, s.log, Tagged(at, s.now, version))
  {
    hide ConsultsFlapGuard;
    hide Blocked;
    hide LastRead;
    hide HasCandidate;
    hide CommitOf;
  }

  lemma TagKeeps(w: World, s: State, at: nat, version: nat)
    requires Inv(w, s) && EnabledDet(w, s, TagVersion(at, version))
    ensures Inv(w, Note(s, Tagged(at, s.now, version)))
  {
    hide EnabledDet;
    hide LastRead;
    assert s.view == LastRead(s.log);
    hide Inv;
    TaggedEventOK(w, s, at, version);
    hide EventOK;
    var e := Tagged(at, s.now, version);
    PlainStep(s, Note(s, e), e);
    hide NewestOK;
    NoteKeeps(w, s, e);
  }

  lemma RemovalEventOK(w: World, s: State, at: nat, stub: Orphans.Stub)
    requires s.view == LastRead(s.log) && WatchOK(s) && EnabledDet(w, s, ApproveRemoval(at, stub))
    ensures EventOK(w, s.log, RemovalApproved(at, s.now, stub))
  {
    hide DecideDeregister;
    hide Blocked;
    hide SawOrphan;
    hide Uncommitted;
    hide LastRead;
    hide Moments;
    hide Orphans.GraceOver;
  }

  lemma ApproveRemovalKeeps(w: World, s: State, at: nat, stub: Orphans.Stub)
    requires Inv(w, s) && EnabledDet(w, s, ApproveRemoval(at, stub))
    ensures Inv(w, Note(s, RemovalApproved(at, s.now, stub)))
  {
    hide EnabledDet;
    hide LastRead;
    hide WatchOK;
    assert s.view == LastRead(s.log) && WatchOK(s);
    hide Inv;
    RemovalEventOK(w, s, at, stub);
    hide EventOK;
    var e := RemovalApproved(at, s.now, stub);
    PlainStep(s, Note(s, e), e);
    hide NewestOK;
    NoteKeeps(w, s, e);
  }

  lemma FailureEventOK(w: World, s: State, at: nat, entry: Entry, failed: nat, versions: seq<Option<JobVersion>>)
    requires s.view == LastRead(s.log) && EnabledDet(w, s, SeeFailure(at, entry, failed, versions))
    ensures EventOK(w, s.log, FailureSeen(at, s.now, entry, failed, s.cluster[entry.job.id].reg, versions))
  {
    hide Blocked;
    hide LastRead;
    hide Orphans.EntryOf;
    hide EffectiveRollback;
    hide JobHasAutoRevert;
    hide Rollbacks.LastStable;
  }

  lemma FailureNewest(s: State, e: Event)
    requires IndexesOK(s) && e.FailureSeen? && e.entry.job.id in s.cluster && e.live == s.cluster[e.entry.job.id].reg
    ensures NewestOK(Note(s, e))
  {
    assert Note(s, e).log[|s.log|] == e;
  }

  lemma SeeFailureKeeps(w: World, s: State, at: nat, entry: Entry, failed: nat, versions: seq<Option<JobVersion>>)
    requires Inv(w, s) && EnabledDet(w, s, SeeFailure(at, entry, failed, versions))
    ensures Inv(w, Note(s, FailureSeen(at, s.now, entry, failed, s.cluster[entry.job.id].reg, versions)))
  {
    assert entry.job.id in s.cluster;
    hide EnabledDet;
    hide LastRead;
    assert s.view == LastRead(s.log) && IndexesOK(s);
    hide Inv;
    FailureEventOK(w, s, at, entry, failed, versions);
    hide EventOK;
    var e := FailureSeen(at, s.now, entry, failed, s.cluster[entry.job.id].reg, versions);
    FailureNewest(s, e);
    hide NewestOK;
    NoteKeeps(w, s, e);
  }

  lemma CommitKeeps(w: World, s: State, at: nat, others: set<string>)
    requires Inv(w, s) && HasCycle(s.log, at) && forall k :: k in others ==> OrphanJobFromDriftKey(k).None?
    ensures Inv(w, StepCommit(w, s, at, others))
  {
    hide Inv;
    hide SawOrphan;
    var t := StepCommit(w, s, at, others);
    var e := CycleCommitted(at, s.now, others + OrphanKeys(w, s.log, at));
    assert t.log[|s.log|] == e;
    hide OrphanKeys;
    hide OrphanJobFromDriftKey;
    AsideKeeps(w, s, t, Some(e));
  }

  /** The phase after rows were enqueued: the row being applied is still there, untouched. */
  lemma PhaseSurvivesEnqueue(s: State, t: State, u: Row, e: Event)
    requires PhaseOK(s) && QueueInv(s.rows) && t.phase == s.phase && t.rows == Enqueue(s.rows, u)
    requires e.Enqueued? && t.log == s.log + [e]
    ensures PhaseOK(t)
  {
    hide Sourced;
    hide Named;
    HandOutTraceGrows(s.log, e);
    forall r: Row | r.status.InProgress? ensures r in t.rows <==> r in s.rows {
      EnqueueKeepsRunning(s.rows, u, r);
    }
    if !s.phase.Idle? {
      SourcedGrows(s.log, e, s.phase.row);
    }
  }

  /** The enqueue itself is where the new row comes from. */
  lemma EnqueuedIsSourced(log: Log, u: Row, from: nat, added: bool)
    requires BuildsOn(log, from, u) && Named(u)
    ensures Sourced(log + [Enqueued(u, from, added)], u)
  {
    var after := log + [Enqueued(u, from, added)];
    match u.operation {
      case Register => assert AsksRegister(after, |log|, u);
      case Deregister => assert AsksRemoval(after, |log|, u);
      case Revert => assert AsksRevert(after, |log|, u);
      case Unsupported(_) =>
    }
  }

  lemma EnqueuedEventOK(w: World, log: Log, u: Row, from: nat, added: bool)
    requires BuildsOn(log, from, u) && Named(u) && u.status.Pending?
    ensures EventOK(w, log, Enqueued(u, from, added))
  {
    hide BuildsOn;
    hide Named;
  }

  lemma PutParts(w: World, s: State, u: Row, from: nat)
    requires PhaseOK(s) && RowsOK(s.log, s.rows) && QueueInv(s.rows)
    requires u.status.Pending? && BuildsOn(s.log, from, u) && Named(u)
    ensures var t := Put(s, u, from);
            PhaseOK(t) && RowsOK(t.log, t.rows) && QueueInv(t.rows) && EventOK(w, s.log, t.log[|s.log|]) && NewestOK(t)
  {
    var t := Put(s, u, from);
    var e := Enqueued(u, from, !Waiting(s.rows, u.updateID));
    hide PhaseOK;
    hide QueueInv;
    hide RowsOK;
    hide Named;
    hide Sourced;
    hide EventOK;
    hide Waiting;
    hide Enqueue;
    hide HasApproval;
    hide HasRemoval;
    hide HasFailure;
    hide CommitOf;
    assert u.job.Some? ==> u.operation.Register?;
    EnqueuedEventOK(w, s.log, u, from, e.added);
    EnqueuedIsSourced(s.log, u, from, e.added);
    hide BuildsOn;
    RowsGrow(s.log, e, s.rows);
    EnqueueRowsOK(t.log, s.rows, u);
    EnqueueKeepsInv(s.rows, u);
    PhaseSurvivesEnqueue(s, t, u, e);
  }

  lemma PutKeeps(w: World, s: State, u: Row, from: nat)
    requires Inv(w, s) && u.status.Pending? && BuildsOn(s.log, from, u) && Named(u)
    ensures Inv(w, Put(s, u, from))
  {
    var t := Put(s, u, from);
    PutParts(w, s, u, from);
    hide Inv;
    hide PhaseOK;
    hide QueueInv;
    hide RowsOK;
    hide EventOK;
    hide NewestOK;
    hide Waiting;
    hide Enqueue;
    hide BuildsOn;
    hide Named;
    PlainStep(s, t, t.log[|s.log|]);
    hide Evolves;
    hide ViewFollows;
    hide WatchFollows;
    hide NewestOK;
    Keep(w, s, t, Some(t.log[|s.log|]));
  }

  lemma RegisterBuilds(w: World, s: State, at: nat)
    requires LogOK(w, s.log) && HasApproval(s.log, at)
    ensures var u := RegisterRow(w, s, at); u.status.Pending? && BuildsOn(s.log, at, u) && Named(u)
  {
    var read, seen := ApprovedMeans(w, s.log, at);
    CommitClean(w, s.log, s.log[read].at);
    ScalesExactly(CandidateAt(s.log, at).job);
    hide LogOK;
    hide Scales;
    hide AutoscaledGroups;
    hide EffectivePolicy;
    hide Detected;
  }

  lemma EnqueueUpdateKeeps(w: World, s: State, at: nat)
    requires Inv(w, s) && HasApproval(s.log, at)
    ensures Inv(w, Put(s, RegisterRow(w, s, at), at))
  {
    InvParts(w, s);
    RegisterBuilds(w, s, at);
    hide Inv;
    hide RegisterRow;
    hide BuildsOn;
    hide Named;
    hide IndexesOK;
    hide HistoryOK;
    hide LogOK;
    hide RowsOK;
    hide QueueInv;
    hide PhaseOK;
    hide WatchOK;
    PutKeeps(w, s, RegisterRow(w, s, at), at);
  }

  lemma EnqueueRemovalKeeps(w: World, s: State, at: nat)
    requires Inv(w, s) && HasRemoval(s.log, at)
    ensures Inv(w, Put(s, RemovalRow(w, s, at), at))
  {
    CommitClean(w, s.log, s.log[at].at);
    hide Inv;
    PutKeeps(w, s, RemovalRow(w, s, at), at);
  }

  lemma EnqueueRevertKeeps(w: World, s: State, at: nat)
    requires Inv(w, s) && HasFailure(s.log, at)
    ensures Inv(w, Put(s, RevertRow(s, at), at))
  {
    hide Inv;
    PutKeeps(w, s, RevertRow(s, at), at);
  }

  lemma CommitClean(w: World, log: Log, k: nat)
    requires LogOK(w, log) && HasCycle(log, k)
    ensures '/' !in log[k].commit
  {
    assert EventOK(w, log[..k], log[k]);
  }

  lemma DetKeeps(w: World, s: State, a: DetectAction)
    requires Inv(w, s) && EnabledDet(w, s, a)
    ensures Inv(w, StepDet(w, s, a))
  {
    hide Inv;
    match a {
      case StartCycle(commit, files, listed, jobs) => StartCycleKeeps(w, s, commit, files, jobs);
      case ReadJob(at, entry) => ReadJobKeeps(w, s, at, entry);
      case PlanJob(at) => PlanJobKeeps(w, s, at);
      case Approve(at, knownFailed) => ApproveKeeps(w, s, at, knownFailed);
      case TagVersion(at, version) => TagKeeps(w, s, at, version);
      case ApproveRemoval(at, stub) => ApproveRemovalKeeps(w, s, at, stub);
      case CommitCycle(at, others) => CommitKeeps(w, s, at, others);
      case SeeFailure(at, entry, failed, versions) => SeeFailureKeeps(w, s, at, entry, failed, versions);
      case EnqueueUpdate(at) => EnqueueUpdateKeeps(w, s, at);
      case EnqueueRemoval(at) => EnqueueRemovalKeeps(w, s, at);
      case EnqueueRevert(at) => EnqueueRevertKeeps(w, s, at);
    }
  }

  lemma TakePhase(s: State)
    requires PhaseOK(s) && s.phase.Idle? && FindPending(s.rows) < |s.rows| && RowsOK(s.log, s.rows)
    ensures PhaseOK(StepTake(s))
  {
    var row := HandOut(s.rows)[FindPending(s.rows)];
    TakeRowsOK(s.log, s.rows);
    TakeRunsOne(s.rows);
    hide Sourced;
    hide HandOut;
    HandOutTraceGrows(s.log, Took(row));
    SourcedGrows(s.log, Took(row), row);
  }

  lemma TakeEventOK(w: World, s: State)
    requires PhaseOK(s) && RowsOK(s.log, s.rows) && QueueInv(s.rows) && s.phase.Idle? && FindPending(s.rows) < |s.rows|
    ensures EventOK(w, s.log, Took(StepTake(s).phase.row))
    ensures RowsOK(StepTake(s).log, StepTake(s).rows) && QueueInv(StepTake(s).rows)
  {
    TakeRowsOK(s.log, s.rows);
    HandOutKeepsInv(s.rows);
    RowsGrow(s.log, Took(StepTake(s).phase.row), StepTake(s).rows);
    hide Sourced;
    hide Named;
    hide QueueInv;
    hide RowsOK;
    hide HandOut;
  }

  lemma TakeKeeps(w: World, s: State)
    requires Inv(w, s) && s.phase.Idle? && FindPending(s.rows) < |s.rows|
    ensures Inv(w, StepTake(s))
  {
    var t := StepTake(s);
    hide EventOK;
    hide HistoryOK;
    hide LogOK;
    hide QueueInv;
    hide RowsOK;
    hide PhaseOK;
    hide WatchOK;
    hide IndexesOK;
    hide HandOut;
    hide FindPending;
    TakePhase(s);
    TakeEventOK(w, s);
    var e := Took(t.phase.row);
    PlainStep(s, t, e);
    hide Evolves;
    hide ViewFollows;
    hide WatchFollows;
    hide NewestOK;
    Keep(w, s, t, Some(e));
  }

  lemma PhaseMoves(s: State, t: State, e: Option<Event>)
    requires PhaseOK(s) && t.rows == s.rows && t.log == if e.Some? then s.log + [e.value] else s.log
    requires !s.phase.Idle? && !t.phase.Idle? && t.phase.row == s.phase.row
    requires e.Some? ==> ByApplier(e.value) && !e.value.Took?
    requires TraceFits(t.phase, if e.Some? then HandOutTrace(s.log) + [e.value] else HandOutTrace(s.log))
    requires RowsOK(s.log, s.rows)
    ensures PhaseOK(t) && RowsOK(t.log, t.rows)
  {
    hide TraceFits;
    hide Sourced;
    hide Named;
    hide HandOutTrace;
    if e.Some? {
      HandOutTraceGrows(s.log, e.value);
      SourcedGrows(s.log, e.value, s.phase.row);
      RowsGrow(s.log, e.value, s.rows);
    }
  }

  /** The applier moves on with its row: what it did is in the trace, the queue stays. */
  lemma ApplierMoves(w: World, s: State, t: State, e: Option<Event>)
    requires Inv(w, s) && Evolves(s, t, e) && t.view == s.view && t.rows == s.rows && t.now == s.now && t.watch == s.watch
    requires !s.phase.Idle? && !t.phase.Idle? && t.phase.row == s.phase.row
    requires e.Some? ==> ByApplier(e.value) && !e.value.Took? && EventOK(w, s.log, e.value) && NewestOK(t)
    requires TraceFits(t.phase, if e.Some? then HandOutTrace(s.log) + [e.value] else HandOutTrace(s.log))
    ensures Inv(w, t)
  {
    hide *;
    InvParts(w, s);
    ApplierFollows(s, t, e);
    PhaseMoves(s, t, e);
    Keep(w, s, t, e);
  }

  lemma ApplierFollows(s: State, t: State, e: Option<Event>)
    requires Evolves(s, t, e) && t.view == s.view && t.now == s.now && t.watch == s.watch && (e.Some? ==> ByApplier(e.value))
    ensures t.log == (if e.Some? then s.log + [e.value] else s.log) && ViewFollows(s, t, e) && WatchFollows(s, t, e)
  {
  }

  lemma GateTrace(w: World, s: State)
    requires PhaseOK(s) && s.phase.Taken? && s.view == LastRead(s.log)
    ensures var t := StepGate(w, s);
            t.log == s.log + [t.log[|s.log|]] && EventOK(w, s.log, t.log[|s.log|])
            && TraceFits(t.phase, HandOutTrace(s.log) + [t.log[|s.log|]])
  {
    hide Sourced;
    hide Named;
    hide Blocked;
    hide LastRead;
    var row := s.phase.row;
    assert HandOutTrace(s.log) == [Took(row)];
    hide HandOutTrace;
    assert [Took(row)] + [GatePassed(row, s.now)] == [Took(row), GatePassed(row, s.now)];
    assert [Took(row)] + [GateClosed(row, s.now)] == [Took(row), GateClosed(row, s.now)];
  }

  lemma GateKeeps(w: World, s: State)
    requires Inv(w, s) && s.phase.Taken?
    ensures Inv(w, StepGate(w, s))
  {
    hide Inv;
    hide PhaseOK;
    hide LastRead;
    InvParts(w, s);
    hide LogOK;
    hide HistoryOK;
    hide RowsOK;
    hide QueueInv;
    hide WatchOK;
    hide IndexesOK;
    hide EventOK;
    hide TraceFits;
    hide HandOutTrace;
    hide Blocked;
    GateTrace(w, s);
    var t := StepGate(w, s);
    var e := t.log[|s.log|];
    PlainStep(s, t, e);
    hide Evolves;
    hide NewestOK;
    ApplierMoves(w, s, t, Some(e));
  }

  lemma EndTrace(phase: Phase, trace: Log, status: Status, index: nat, error: string)
    requires !phase.Idle? && !phase.Ending? && !phase.Taken? && TraceFits(phase, trace) && status.Terminal() && !status.Held?
    ensures TraceFits(Ending(phase.row, status, index, error), trace)
  {
  }

  lemma PhaseEvolves(s: State, status: Status, index: nat, error: string)
    requires !s.phase.Idle?
    ensures Evolves(s, End(s, status, index, error), None)
  {
  }

  lemma EndKeeps(w: World, s: State, status: Status, index: nat, error: string)
    requires Inv(w, s) && !s.phase.Idle? && !s.phase.Ending? && !s.phase.Taken? && status.Terminal() && !status.Held?
    ensures Inv(w, End(s, status, index, error))
  {
    InvParts(w, s);
    hide Inv;
    hide Evolves;
    hide TraceFits;
    hide HandOutTrace;
    hide Sourced;
    hide Named;
    hide HistoryOK;
    hide IndexesOK;
    hide WatchOK;
    hide LogOK;
    hide QueueInv;
    hide RowsOK;
    EndTrace(s.phase, HandOutTrace(s.log), status, index, error);
    PhaseEvolves(s, status, index, error);
    ApplierMoves(w, s, End(s, status, index, error), None);
  }

  /** The applier notes what it saw and goes on. */
  lemma ApplierNotes(w: World, s: State, t: State, e: Event)
    requires Inv(w, s) && !s.phase.Idle? && !t.phase.Idle? && t.phase.row == s.phase.row
    requires t == Note(s.(phase := t.phase), e) && Plain(e) && ByApplier(e) && !e.Took? && EventOK(w, s.log, e)
    requires TraceFits(t.phase, HandOutTrace(s.log) + [e])
    ensures Inv(w, t)
  {
    PlainStep(s, t, e);
    hide *;
    ApplierMoves(w, s, t, Some(e));
  }

  lemma ReplanKeeps(w: World, s: State, fails: bool)
    requires Inv(w, s) && s.phase.Gated? && s.phase.row.operation.Register? && s.phase.row.job.Some?
    ensures Inv(w, StepReplan(w, s, fails))
  {
    hide ClassAgainst;
    hide Inv;
    var row := s.phase.row;
    var t := StepReplan(w, s, fails);
    if t.phase.Ending? {
      EndKeeps(w, s, t.phase.status, 0, t.phase.error);
    } else {
      var time := GatedTrace(w, s);
      LookOK(w, s.log, row, time, Replanned(row, RegOf(s, row.job.value.id)));
      hide HandOutTrace;
      hide EventOK;
      ApplierNotes(w, s, t, Replanned(row, RegOf(s, row.job.value.id)));
    }
  }

  /** What the applier sees between the gate and the write. */
  lemma LookOK(w: World, log: Log, row: Row, time: int, e: Event)
    requires HandOutTrace(log) == [Took(row), GatePassed(row, time)]
    requires (e.Replanned? && e.row == row && row.operation.Register? && row.job.Some?
              && !ClassAgainst(w, row.job.value, e.seen).NoChange?)
             || (e.Rechecked? && e.row == row && row.operation.Deregister? && Managed(w.cfg, MetaOf(e.reg.spec)))
    ensures EventOK(w, log, e) && HandOutTrace(log) + [e] == [Took(row), GatePassed(row, time), e]
  {
    hide ClassAgainst;
    hide Managed;
  }

  lemma GatedTrace(w: World, s: State) returns (time: int)
    requires Inv(w, s) && s.phase.Gated?
    ensures HandOutTrace(s.log) == [Took(s.phase.row), GatePassed(s.phase.row, time)]
  {
    InvParts(w, s);
    hide Inv;
    hide Sourced;
    hide Named;
    hide LogOK;
    time :| HandOutTrace(s.log) == [Took(s.phase.row), GatePassed(s.phase.row, time)];
  }

  lemma RecheckKeeps(w: World, s: State, fails: bool)
    requires Inv(w, s) && s.phase.Gated? && s.phase.row.operation.Deregister?
    ensures Inv(w, StepRecheck(w, s, fails))
  {
    hide Managed;
    hide Inv;
    var row := s.phase.row;
    var t := StepRecheck(w, s, fails);
    if t.phase.Ending? {
      EndKeeps(w, s, t.phase.status, 0, t.phase.error);
    } else {
      var time := GatedTrace(w, s);
      LookOK(w, s.log, row, time, Rechecked(row, s.cluster[row.jobID].reg));
      hide HandOutTrace;
      hide EventOK;
      ApplierNotes(w, s, t, Rechecked(row, s.cluster[row.jobID].reg));
    }
  }

  /** A call that does not land. */
  lemma MissKeeps(w: World, s: State, error: string)
    requires Inv(w, s) && !s.phase.Idle? && !s.phase.Ending? && !s.phase.Taken?
    ensures Inv(w, End(s, Failed, 0, error))
  {
    EndKeeps(w, s, Failed, 0, error);
  }

  /** A call that lands, answered or not: the write and what the applier makes of it. */
  lemma LandKeeps(w: World, s: State, landed: State, e: Event, status: Status, index: nat, error: string)
    requires Inv(w, s) && !s.phase.Idle? && !s.phase.Ending? && !s.phase.Taken? && Evolves(s, landed, Some(e))
    requires landed.view == s.view && landed.rows == s.rows && landed.phase == s.phase
    requires landed.now == s.now && landed.watch == s.watch
    requires OwnWrite(e) && EventOK(w, s.log, e)
    requires e.Reverted? ==> e.row.jobID in landed.cluster && landed.cluster[e.row.jobID].reg.version > e.row.revertFrom
    requires status.Succeeded? || status.Failed?
    ensures Inv(w, End(landed, status, index, error))
  {
    hide *;
    var t := End(landed, status, index, error);
    EndEvolves(s, landed, e, status, index, error);
    EndingTrace(w, s, t, e);
    LandNewest(s, t, e);
    OwnWriteBy(e);
    ApplierMoves(w, s, t, Some(e));
  }

  lemma OwnWriteBy(e: Event)
    requires OwnWrite(e)
    ensures ByApplier(e) && !e.Took?
  {
  }

  lemma EndEvolves(s: State, landed: State, e: Event, status: Status, index: nat, error: string)
    requires Evolves(s, landed, Some(e)) && !landed.phase.Idle?
    ensures var t := End(landed, status, index, error);
            Evolves(s, t, Some(e)) && t.log == s.log + [e] && t.cluster == landed.cluster && t.view == landed.view
            && t.rows == landed.rows && t.now == landed.now && t.watch == landed.watch
            && t.phase == Ending(landed.phase.row, status, index, error)
  {
    var t := End(landed, status, index, error);
    forall j ensures JobFollows(s, t, Some(e), j) {
      assert JobFollows(s, landed, Some(e), j);
    }
  }

  /** Past the gate a hand-out has its row, and the gate open, on record. */
  lemma PastTheGate(s: State)
    requires PhaseOK(s) && !s.phase.Idle? && !s.phase.Ending? && !s.phase.Taken?
    ensures var trace := HandOutTrace(s.log);
            |trace| >= 2 && trace[0] == Took(s.phase.row) && trace[1].GatePassed? && trace[1].row == s.phase.row
            && !trace[|trace| - 1].Finished?
  {
    hide Sourced;
    hide Named;
    hide HandOutTrace;
  }

  lemma EndingTrace(w: World, s: State, t: State, e: Event)
    requires Inv(w, s) && !s.phase.Idle? && !s.phase.Ending? && !s.phase.Taken? && OwnWrite(e)
    requires t.phase.Ending? && t.phase.row == s.phase.row && (t.phase.status.Succeeded? || t.phase.status.Failed?)
    ensures TraceFits(t.phase, HandOutTrace(s.log) + [e])
  {
    hide *;
    InvParts(w, s);
    PastTheGate(s);
    WriteEnds(t.phase, HandOutTrace(s.log), e);
  }

  lemma WriteEnds(phase: Phase, trace: Log, e: Event)
    requires phase.Ending? && (phase.status.Succeeded? || phase.status.Failed?) && OwnWrite(e)
    requires |trace| >= 2 && trace[0] == Took(phase.row) && trace[1].GatePassed? && trace[1].row == phase.row
    ensures TraceFits(phase, trace + [e])
  {
    assert (trace + [e])[|trace|] == e;
  }

  lemma LandNewest(s: State, t: State, e: Event)
    requires OwnWrite(e) && t.log == s.log + [e]
    requires e.Reverted? ==> e.row.jobID in t.cluster && t.cluster[e.row.jobID].reg.version > e.row.revertFrom
    ensures NewestOK(t)
  {
    assert t.log[|s.log|] == e;
  }

  lemma WriteEvolves(s: State, jobID: string, spec: Job, status: string, e: Event)
    requires Writes(e, jobID) && forall j :: Writes(e, j) ==> j == jobID
    ensures Evolves(s, Note(Write(s, jobID, spec, status), e), Some(e))
  {
  }

  /** A registration that lands was approved, is wanted by the policy and overwrites nobody. */
  lemma RegisterEventOK(w: World, s: State)
    requires Inv(w, s) && s.phase.Ready? && s.phase.row.job.Some? && RegisterLands(s, s.phase.row)
    ensures var row := s.phase.row;
            var job := row.job.value;
            var before := RegOf(s, job.id);
            RegisterOK(w, s.log, row, before, MetStatus(s, job.id), NextReg(s, job.id, w.stored(job, row.preserveCounts, before)))
            && job.id == row.jobID
  {
    hide *;
    var row := s.phase.row;
    InvParts(w, s);
    ReadyTrace(s);
    var k := AskOf(s.log, row);
    LandsAsApproved(w, s, row, k);
    RowOfAsk(s.log, k, row);
    RegisterOKFrom(w, s, row);
  }

  lemma RegisterOKFrom(w: World, s: State, row: Row)
    requires row.operation.Register? && row.job.Some? && row.job.value.id == row.jobID && Sourced(s.log, row) && RegisterLands(s, row)
    requires exists time, seen :: HandOutTrace(s.log) == [Took(row), GatePassed(row, time), Replanned(row, seen)]
    requires var before := RegOf(s, row.job.value.id);
             MayApply(EffectivePolicy(w.cfg, MetaOf(row.job.value)), ClassAgainst(w, row.job.value, before), before.None?)
             && (before.None? ==> w.cfg.enableJobCreation)
             && (row.modifyIndex != 0 ==>
                   before.Some? && exists i :: TokenFresh(w, s.log, i, row, before.value, MetStatus(s, row.jobID)))
    ensures var job := row.job.value;
            var before := RegOf(s, job.id);
            RegisterOK(w, s.log, row, before, MetStatus(s, job.id), NextReg(s, job.id, w.stored(job, row.preserveCounts, before)))
  {
    hide Sourced;
    hide TokenFresh;
    hide MayApply;
    hide ClassAgainst;
    hide HandOutTrace;
  }

  lemma AskOf(log: Log, row: Row) returns (k: nat)
    requires Sourced(log, row) && row.operation.Register? && row.job.Some?
    ensures AsksRegister(log, k, row)
  {
    k :| AsksRegister(log, k, row);
  }

  lemma ReadyTrace(s: State)
    requires PhaseOK(s) && s.phase.Ready?
    ensures s.phase.row.operation.Register? && Sourced(s.log, s.phase.row)
    ensures exists time, seen ::
              HandOutTrace(s.log) == [Took(s.phase.row), GatePassed(s.phase.row, time), Replanned(s.phase.row, seen)]
  {
    hide Sourced;
    hide Named;
  }

  lemma RowOfAsk(log: Log, k: nat, row: Row)
    requires AsksRegister(log, k, row)
    ensures row.job.Some? && row.job.value.id == row.jobID
  {
  }

  lemma RegisterKeeps(w: World, s: State, reaches: bool, answered: bool, status: string)
    requires Inv(w, s) && s.phase.Ready? && s.phase.row.job.Some?
    ensures Inv(w, StepRegister(w, s, reaches, answered, status))
  {
    hide Inv;
    hide RegisterOK;
    hide LogOK;
    var row := s.phase.row;
    var job := row.job.value;
    if reaches && RegisterLands(s, row) {
      RegisterEventOK(w, s);
      var before := RegOf(s, job.id);
      var spec := w.stored(job, row.preserveCounts, before);
      var e := Registered(row, before, MetStatus(s, job.id), NextReg(s, job.id, spec));
      WriteEvolves(s, job.id, spec, status, e);
      LandKeeps(w, s, Note(Write(s, job.id, spec, status), e), e, if answered then Succeeded else Failed,
                if answered then s.raft + 1 else 0, if answered then "" else "register");
    } else {
      MissKeeps(w, s, "register");
    }
  }

  lemma DeregisterEventOK(w: World, s: State, before: Registration, remains: Option<Registration>)
    requires PhaseOK(s) && s.phase.Confirmed? && (remains.None? <==> w.cfg.deregisterPurge)
    ensures EventOK(w, s.log, Deregistered(s.phase.row, before, remains))
  {
    hide Sourced;
    hide Named;
  }

  lemma RemovedEvolves(w: World, s: State, row: Row) returns (e: Event)
    requires row.jobID in s.cluster
    ensures e.Deregistered? && e.row == row && (e.remains.None? <==> w.cfg.deregisterPurge)
    ensures Evolves(s, Removed(w, s, row), Some(e))
  {
    var before := s.cluster[row.jobID].reg;
    var stopped := before.spec.(stop := true);
    if w.cfg.deregisterPurge {
      e := Deregistered(row, before, None);
    } else {
      e := Deregistered(row, before, Some(NextReg(s, row.jobID, stopped)));
      WriteEvolves(s, row.jobID, stopped, "dead", e);
    }
  }

  lemma DeregisterKeeps(w: World, s: State, reaches: bool, answered: bool)
    requires Inv(w, s) && s.phase.Confirmed?
    ensures Inv(w, StepDeregister(w, s, reaches, answered))
  {
    hide Inv;
    var row := s.phase.row;
    if reaches && row.jobID in s.cluster {
      var e := RemovedEvolves(w, s, row);
      hide PhaseOK;
      hide EventOK;
      InvParts(w, s);
      DeregisterEventOK(w, s, e.found, e.remains);
      hide Evolves;
      hide LogOK;
      hide HistoryOK;
      hide RowsOK;
      hide QueueInv;
      hide WatchOK;
      hide IndexesOK;
      LandKeeps(w, s, Removed(w, s, row), e, if answered then Succeeded else Failed, 0, if answered then "" else "deregister");
    } else {
      MissKeeps(w, s, "deregister");
    }
  }

  lemma RevertsOnce(s: State)
    requires HistoryOK(s) && !s.phase.Idle?
    requires var row := s.phase.row; row.jobID in s.cluster && s.cluster[row.jobID].reg.version == row.revertFrom
    ensures RevertedOnce(s.log, s.phase.row)
  {
    var row := s.phase.row;
    forall k | 0 <= k < |s.log| && s.log[k].Reverted? && s.log[k].row.jobID == row.jobID
               && s.log[k].row.revertFrom == row.revertFrom
      ensures PurgedSince(s.log, k, row.jobID)
    {
      assert RevertOK(s, k);
    }
  }

  lemma FoundAsSeen(s: State, jobID: string)
    requires HistoryOK(s) && jobID in s.cluster
    ensures SeenOrWritten(s.log, jobID, s.cluster[jobID].reg)
  {
    forall a | 0 <= a < |s.log| && s.log[a].FailureSeen? && s.log[a].entry.job.id == jobID && Quiet(s.log, a, jobID)
      ensures s.log[a].live == s.cluster[jobID].reg
    {
      assert ReadOK(s, a);
    }
  }

  lemma RevertEventOK(w: World, s: State, spec: Job)
    requires Inv(w, s) && s.phase.Gated? && s.phase.row.operation.Revert?
    requires var row := s.phase.row; row.jobID in s.cluster && s.cluster[row.jobID].reg.version == row.revertFrom
    ensures EventOK(w, s.log, Reverted(s.phase.row, s.cluster[s.phase.row.jobID].reg, NextReg(s, s.phase.row.jobID, spec)))
  {
    hide LogOK;
    hide RowsOK;
    hide QueueInv;
    hide IndexesOK;
    var k :| AsksRevert(s.log, k, s.phase.row);
    RevertsOnce(s);
    FoundAsSeen(s, s.phase.row.jobID);
    hide HistoryOK;
    hide SeenOrWritten;
    hide RevertedOnce;
  }

  lemma RevertKeeps(w: World, s: State, reaches: bool, answered: bool, spec: Job, status: string)
    requires Inv(w, s) && s.phase.Gated? && s.phase.row.operation.Revert?
    ensures Inv(w, StepRevert(s, reaches, answered, spec, status))
  {
    hide Inv;
    hide EventOK;
    var row := s.phase.row;
    if reaches && row.jobID in s.cluster && s.cluster[row.jobID].reg.version == row.revertFrom {
      RevertEventOK(w, s, spec);
      var e := Reverted(row, s.cluster[row.jobID].reg, NextReg(s, row.jobID, spec));
      WriteEvolves(s, row.jobID, spec, status, e);
      LandKeeps(w, s, Note(Write(s, row.jobID, spec, status), e), e, if answered then Succeeded else Failed,
                if answered then s.raft + 1 else 0, if answered then "" else "revert");
    } else {
      MissKeeps(w, s, "revert");
    }
  }

  /** The row being applied is the only one that runs, and stands in the queue. */
  lemma RunsAlone(s: State)
    requires PhaseOK(s) && QueueInv(s.rows) && s.phase.Ending?
    ensures UniqueIDs(s.rows) && s.phase.row in s.rows && s.phase.row.status.InProgress? && s.phase.status.Terminal()
    ensures forall r :: r in s.rows && r.status.InProgress? ==> r == s.phase.row
  {
    hide Sourced;
    hide Named;
  }

  lemma IdlePhase(t: State, log: Log, e: Event)
    requires t.phase.Idle? && t.log == log + [e] && e.Finished?
    requires forall r :: r in t.rows && !r.status.Terminal() ==> r.status.Pending?
    ensures PhaseOK(t)
  {
    HandOutTraceGrows(log, e);
    hide Sourced;
    hide Named;
  }

  lemma FinishPhase(s: State)
    requires PhaseOK(s) && QueueInv(s.rows) && s.phase.Ending?
    ensures PhaseOK(StepFinish(s))
    ensures StepFinish(s).log == s.log + [Finished(Some(s.phase.row), s.phase.status)]
    ensures forall r :: r in StepFinish(s).rows && !r.status.Terminal() ==> r in s.rows
  {
    RunsAlone(s);
    hide PhaseOK;
    hide QueueInv;
    hide Complete;
    var row, p := s.phase.row, s.phase;
    FinishOne(s.rows, row, p.status, p.index, p.error, s.now);
    IdlePhase(StepFinish(s), s.log, Finished(Some(row), p.status));
  }

  lemma FinishEventOK(w: World, s: State)
    requires PhaseOK(s) && s.phase.Ending?
    ensures EventOK(w, s.log, Finished(Some(s.phase.row), s.phase.status))
  {
    hide Sourced;
    hide Named;
  }

  lemma FinishRows(w: World, s: State)
    requires Inv(w, s) && s.phase.Ending?
    ensures RowsOK(StepFinish(s).log, StepFinish(s).rows) && QueueInv(StepFinish(s).rows)
  {
    InvParts(w, s);
    hide Inv;
    hide LogOK;
    hide HistoryOK;
    hide WatchOK;
    hide IndexesOK;
    hide PhaseOK;
    hide QueueInv;
    hide Complete;
    hide Sourced;
    hide Named;
    RunsAlone(s);
    FinishPhase(s);
    CompleteKeepsInv(s.rows, s.phase.row.updateID, s.phase.status, s.phase.index, s.phase.error, s.now);
    RowsGrow(s.log, Finished(Some(s.phase.row), s.phase.status), s.rows);
  }

  lemma FinishKeeps(w: World, s: State)
    requires Inv(w, s) && s.phase.Ending?
    ensures Inv(w, StepFinish(s))
  {
    hide EventOK;
    hide HistoryOK;
    hide LogOK;
    hide QueueInv;
    hide RowsOK;
    hide PhaseOK;
    hide Complete;
    hide WatchOK;
    hide IndexesOK;
    FinishPhase(s);
    FinishEventOK(w, s);
    FinishRows(w, s);
    var t := StepFinish(s);
    PlainStep(s, t, Finished(Some(s.phase.row), s.phase.status));
    hide Evolves;
    hide ViewFollows;
    hide WatchFollows;
    hide NewestOK;
    Keep(w, s, t, Some(Finished(Some(s.phase.row), s.phase.status)));
  }

  lemma AppKeeps(w: World, s: State, a: ApplierAction)
    requires Inv(w, s) && EnabledApp(s, a)
    ensures Inv(w, StepApp(w, s, a))
  {
    hide Inv;
    match a {
      case Take => TakeKeeps(w, s);
      case Gate => GateKeeps(w, s);
      case Refuse => MissKeeps(w, s, Refusal(s.phase.row));
      case Replan(fails) => ReplanKeeps(w, s, fails);
      case CallRegister(reaches, answered, status) => RegisterKeeps(w, s, reaches, answered, status);
      case Recheck(fails) => RecheckKeeps(w, s, fails);
      case CallDeregister(reaches, answered) => DeregisterKeeps(w, s, reaches, answered);
      case CallRevert(reaches, answered, spec, status) => RevertKeeps(w, s, reaches, answered, spec, status);
      case Finish => FinishKeeps(w, s);
    }
  }

  /** Every step keeps the invariant. */
  lemma StepKeeps(w: World, s: State, a: Action)
    requires Inv(w, s) && Enabled(w, s, a)
    ensures Inv(w, Step(w, s, a))
  {
    hide Inv;
    hide EnabledEnv;
    hide EnabledDet;
    hide EnabledApp;
    match a {
      case Env(e) => EnvKeeps(w, s, e);
      case Det(d) => DetKeeps(w, s, d);
      case App(p) => AppKeeps(w, s, p);
    }
  }

  lemma InitOK(w: World, s: State)
    requires Init(s)
    ensures Inv(w, s)
  {
  }

  /** Main invariant, over every run: from any cluster and an empty queue, whatever detection, the
      applier, the freeze store and the outside world do, and in whatever order. */
  lemma {:induction false} RunKeeps(w: World, s: State, acts: seq<Action>)
    requires Init(s) && Run(w, s, acts).Some?
    ensures Inv(w, Run(w, s, acts).value)
  {
    hide Inv;
    hide Step;
    hide Enabled;
    if acts == [] {
      InitOK(w, s);
    } else {
      RunKeeps(w, s, acts[..|acts| - 1]);
      StepKeeps(w, Run(w, s, acts[..|acts| - 1]).value, acts[|acts| - 1]);
    }
  }
}
