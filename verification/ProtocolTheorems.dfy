/** The guarantees of the protocol, over every run: what stands before every write of the engine. */
module ProtocolTheorems {
  import opened Wrappers
  import opened Text
  import opened Identity
  import opened Jobs
  import opened PlanDiffs
  import opened Classifier
  import opened Updates
  import opened Decisions
  import opened Rollbacks
  import opened Protocol
  import opened ProtocolSafety
  import Orphans

  /** The log of a run that starts with an empty queue. */
  ghost predicate LogOf(w: World, log: Log) {
    exists s, acts :: Init(s) && Run(w, s, acts).Some? && Run(w, s, acts).value.log == log
  }

  lemma EventOfRun(w: World, log: Log, k: nat)
    requires LogOf(w, log) && k < |log|
    ensures EventOK(w, log[..k], log[k])
  {
    hide EventOK;
    WholeLogOK(w, log);
  }

  lemma WholeLogOK(w: World, log: Log)
    requires LogOf(w, log)
    ensures LogOK(w, log)
  {
    hide Run;
    hide Init;
    hide LogOK;
    var s, acts :| Init(s) && Run(w, s, acts).Some? && Run(w, s, acts).value.log == log;
    RunKeeps(w, s, acts);
  }

  /** What is said of a prefix of the log is said of the log. */
  lemma PrefixHandOut(log: Log, g: nat, k: nat)
    requires g < k <= |log|
    ensures SameHandOut(log, g, k) <==> SameHandOut(log[..k], g, |log[..k]|)
    ensures log[..k][g] == log[g]
  {
    if SameHandOut(log[..k], g, |log[..k]|) {
      forall m | g < m < k ensures !log[m].Took? {
        assert log[m] == log[..k][m];
      }
    }
  }

  // ---- Same hand-out ----

  /** Since the event the applier was not handed another row. */
  ghost predicate SameHandOut(log: Log, g: nat, k: nat) {
    g < k <= |log| && forall m :: g < m < k ==> !log[m].Took?
  }

  /** What the applier did in this hand-out is in the log, since the hand-out. */
  lemma {:induction false} InTrace(log: Log, n: nat) returns (g: nat)
    requires n < |HandOutTrace(log)|
    ensures g < |log| && log[g] == HandOutTrace(log)[n] && SameHandOut(log, g, |log|)
    ensures n + 1 < |HandOutTrace(log)| ==> g + 1 < |log|
  {
    var front, e := log[..|log| - 1], log[|log| - 1];
    if e.Took? {
      g := |log| - 1;
    } else if ByApplier(e) && n == |HandOutTrace(front)| {
      g := |log| - 1;
    } else {
      g := InTrace(front, n);
    }
  }

  /** The hand-out an event belongs to starts with the last row handed out. */
  lemma {:induction false} TraceStart(log: Log, k: nat)
    requires k < |log| && log[k].Took? && SameHandOut(log, k, |log|)
    ensures HandOutTrace(log) != [] && HandOutTrace(log)[0] == log[k]
  {
    if k < |log| - 1 {
      var front := log[..|log| - 1];
      assert forall m :: k < m < |front| ==> front[m] == log[m];
      TraceStart(front, k);
    }
  }

  // ---- Writes ----

  /** Policy holds at landing: whoever else writes to Nomad in between, a registration that lands
      makes a change that its job's policy, as its meta states it or by default, lets the engine make to
      the very registration it replaces. The applier itself only looks whether there is any change. */
  lemma PolicyHoldsAtLanding(w: World, log: Log, k: nat)
    requires LogOf(w, log) && k < |log| && log[k].Registered?
    ensures log[k].row.job.Some?
    ensures var job, before := log[k].row.job.value, log[k].before;
            Permitted(w.cfg, job, ClassAgainst(w, job, before), before.None?) && (before.None? ==> w.cfg.enableJobCreation)
  {
    hide LogOf;
    hide Sourced;
    hide Named;
    EventOfRun(w, log, k);
    LandedPermitted(w, log[..k], log[k]);
  }

  lemma LandedPermitted(w: World, log: Log, e: Event)
    requires e.Registered? && EventOK(w, log, e)
    ensures e.row.job.Some? && (e.before.None? ==> w.cfg.enableJobCreation)
    ensures Permitted(w.cfg, e.row.job.value, ClassAgainst(w, e.row.job.value, e.before), e.before.None?)
  {
    hide Sourced;
    hide ClassAgainst;
    PermittedExactly(w.cfg, e.row.job.value, ClassAgainst(w, e.row.job.value, e.before), e.before.None?);
  }

  /** The job is held to images: by its key, or by default without one. */
  ghost predicate HeldToImages(cfg: Config, job: Job) {
    KeyIs(cfg, MetaOf(job), "_update_policy", "image-only")
    || (KeyMissing(cfg, MetaOf(job), "_update_policy") && cfg.defaultPolicy.ImageOnly?)
  }

  /** What "image-only" comes to: of a job held to images a registration that lands adds and deletes no group
      and no task, and changes no field, on the job, on a group, on a task or in any object of theirs
      however deep, but images of a Config object, the engine's own meta keys and the Count and Scaling
      of groups the autoscaler owns. */
  lemma ImageOnlyTouchesImages(w: World, log: Log, k: nat, d: JobDiff<Field>, p: Place, path: seq<nat>, f: Field)
    requires LogOf(w, log) && k < |log| && log[k].Registered? && log[k].row.job.Some?
    requires HeldToImages(w.cfg, log[k].row.job.value)
    requires w.plan(log[k].row.job.value, log[k].before) == Some(d)
    ensures log[k].before.Some?
    ensures HasPlace(d, p) ==> !WholePlace(p)
    ensures ChangedAt(d, AutoscaledGroups(log[k].row.job.value), p, path, f) ==>
              ImageField(ObjectName(d, p, path), f) || OwnMetaField(ObjectName(d, p, path), f, w.cfg.metaPrefix)
  {
    hide LogOf;
    PolicyHoldsAtLanding(w, log, k);
    ImagesOnly(w.cfg, log[k].row.job.value, ClassAgainst(w, log[k].row.job.value, log[k].before), log[k].before.None?);
    hide Classify;
    hide ChangedAt;
    hide HasPlace;
    ImageClassIsSound(d, AutoscaledGroups(log[k].row.job.value), w.cfg.metaPrefix, p, path, f);
  }

  lemma ImagesOnly(cfg: Config, job: Job, change: DiffClass, creation: bool)
    requires HeldToImages(cfg, job) && Permitted(cfg, job, change, creation)
    ensures change.ImageChange? && !creation && EffectivePolicy(cfg, MetaOf(job)).ImageOnly?
  {
  }

  /** The counts a scaling policy owns are preserved: a registration that lands leaves Nomad's group counts in
      place exactly if some group of its job is named and has scaling that is not disabled. */
  lemma PreservesCounts(w: World, log: Log, k: nat)
    requires LogOf(w, log) && k < |log| && log[k].Registered?
    ensures log[k].row.job.Some?
    ensures log[k].row.preserveCounts
            <==> exists g :: g in log[k].row.job.value.groups && g.Some? && g.value.name.Some? && g.value.scaling.Some?
                             && g.value.scaling.value.enabled != Some(false)
  {
    hide LogOf;
    var q := AskBefore(w, log, k);
  }

  /** No lost writes: a registration lands on the registration that was read when its drift was
      detected, and since that read nobody wrote the job. One that was meant for an absent job lands
      only on an absent job. */
  lemma NoLostWrites(w: World, log: Log, k: nat)
    requires LogOf(w, log) && k < |log| && log[k].Registered?
    ensures log[k].before.None? <==> log[k].row.modifyIndex == 0
    ensures log[k].before.Some? ==>
              exists i :: 0 <= i < k && log[i].Read? && log[i].entry.job.id == log[k].row.jobID
                          && log[i].info.Found? && log[i].info.reg == log[k].before.value
                          && forall m :: i < m < k ==> !Writes(log[m], log[k].row.jobID)
  {
    if log[k].before.Some? {
      var i := ReadBefore(w, log, k);
    } else {
      hide LogOf;
      hide Sourced;
      EventOfRun(w, log, k);
    }
  }

  /** The read a registration that lands on a job goes back to. */
  lemma ReadBefore(w: World, log: Log, k: nat) returns (i: nat)
    requires LogOf(w, log) && k < |log| && log[k].Registered? && log[k].before.Some?
    ensures log[k].row.modifyIndex != 0 && log[k].row.job.Some?
    ensures i < k && log[i].Read? && log[i].entry.job.id == log[k].row.jobID
    ensures log[i].info.Found? && log[i].info.reg == log[k].before.value
    ensures forall m :: i < m < k ==> !Writes(log[m], log[k].row.jobID)
    ensures log[k].met == StatusSince(log[..k], i, log[k].row.jobID, log[i].info.status)
    ensures EffectivePolicy(w.cfg, MetaOf(log[k].row.job.value)).ImageOnly? ==> !TreatedAsMissing(w.cfg, log[i].info)
  {
    hide LogOf;
    EventOfRun(w, log, k);
    hide EffectivePolicy;
    var front := log[..k];
    i :| TokenFresh(w, front, i, log[k].row, log[k].before.value, log[k].met);
    assert log[i] == front[i];
    forall m | i < m < k ensures !Writes(log[m], log[k].row.jobID) {
      assert log[m] == front[m];
    }
  }

  ghost predicate StatusStays(log: Log, i: nat, k: nat, jobID: string) {
    forall l :: i < l < k && l < |log| ==> !(log[l].StatusChanged? && log[l].jobID == jobID)
  }

  /** The latest change of the job's status between two events says "dead". */
  ghost predicate DiedBetween(log: Log, i: nat, k: nat, jobID: string) {
    exists m: nat :: i < m < k && m < |log| && log[m] == StatusChanged(jobID, "dead") && StatusStays(log, m, k, jobID)
  }

  /** A status as the changes leave it is the one changed to last. */
  lemma {:induction false} StatusIsLatest(log: Log, i: nat, jobID: string, first: string)
    requires i < |log|
    ensures StatusSince(log, i, jobID, first) == "dead"
            <==> DiedBetween(log, i, |log|, jobID) || (first == "dead" && StatusStays(log, i, |log|, jobID))
  {
    if i + 1 < |log| {
      var front, e := log[..|log| - 1], log[|log| - 1];
      StatusIsLatest(front, i, jobID, first);
      assert front + [e] == log;
      if e.StatusChanged? && e.jobID == jobID {
        NewStatus(front, e, i, jobID);
      } else {
        SameStatusPrefix(front, e, i, jobID);
      }
      hide DiedBetween;
      hide StatusStays;
    }
  }

  lemma NewStatus(front: Log, e: Event, i: nat, jobID: string)
    requires i < |front| && e.StatusChanged? && e.jobID == jobID
    ensures var log := front + [e];
            (DiedBetween(log, i, |log|, jobID) <==> e.became == "dead") && !StatusStays(log, i, |log|, jobID)
  {
    var log := front + [e];
    assert log[|front|] == e;
    if m :| i < m < |log| && log[m] == StatusChanged(jobID, "dead")
            && forall l :: m < l < |log| ==> !(log[l].StatusChanged? && log[l].jobID == jobID) {
      assert m == |front|;
    }
  }

  lemma SameStatusPrefix(front: Log, e: Event, i: nat, jobID: string)
    requires i < |front| && !(e.StatusChanged? && e.jobID == jobID)
    ensures var log := front + [e];
            (DiedBetween(log, i, |log|, jobID) <==> DiedBetween(front, i, |front|, jobID))
            && (StatusStays(log, i, |log|, jobID) <==> StatusStays(front, i, |front|, jobID))
  {
    var log := front + [e];
    assert forall l :: 0 <= l < |front| ==> log[l] == front[l];
    assert log[|front|] == e;
    assert forall m :: i <= m < |front| ==> (StatusStays(log, m, |log|, jobID) <==> StatusStays(front, m, |front|, jobID)) by {
      forall m | i <= m < |front| ensures StatusStays(log, m, |log|, jobID) <==> StatusStays(front, m, |front|, jobID) {
        if StatusStays(log, m, |log|, jobID) {
          forall l | m < l < |front| ensures !(front[l].StatusChanged? && front[l].jobID == jobID) {
            assert log[l] == front[l];
          }
        }
      }
    }
    hide StatusStays;
    if m: nat :| i < m < |front| && front[m] == StatusChanged(jobID, "dead") && StatusStays(front, m, |front|, jobID) {
      assert log[m] == StatusChanged(jobID, "dead") && StatusStays(log, m, |log|, jobID);
    }
    if m: nat :| i < m < |log| && log[m] == StatusChanged(jobID, "dead") && StatusStays(log, m, |log|, jobID) {
      assert front[m] == StatusChanged(jobID, "dead") && StatusStays(front, m, |front|, jobID);
    }
  }

  /** "Image-only" never starts a job that was missing, nor one that counted as missing when it was read.
      The job may die before the registration gets to Nomad, for its status is no part of the index
      that is enforced: such a registration meets a job that counts as missing exactly when dead jobs
      are not included and the job's latest status change since the read says that it died. */
  lemma ImageOnlyMeetsDead(w: World, log: Log, k: nat) returns (i: nat)
    requires LogOf(w, log) && k < |log| && log[k].Registered? && log[k].row.job.Some?
    requires HeldToImages(w.cfg, log[k].row.job.value)
    ensures log[k].before.Some? && i < k && log[i].Read? && log[i].entry.job.id == log[k].row.jobID
    ensures log[i].info.Found? && log[i].info.reg == log[k].before.value && (w.cfg.includeDeadJobs || log[i].info.status != "dead")
    ensures !w.cfg.includeDeadJobs && log[k].met == "dead" <==> !w.cfg.includeDeadJobs && DiedBetween(log, i, k, log[k].row.jobID)
  {
    hide LogOf;
    PolicyHoldsAtLanding(w, log, k);
    ImagesOnly(w.cfg, log[k].row.job.value, ClassAgainst(w, log[k].row.job.value, log[k].before), log[k].before.None?);
    i := ReadBefore(w, log, k);
    var id := log[k].row.jobID;
    StatusIsLatest(log[..k], i, id, log[i].info.status);
    DiedInPrefix(log, i, k, id);
    hide DiedBetween;
    hide StatusStays;
    hide StatusSince;
    hide ClassAgainst;
    hide EffectivePolicy;
  }

  lemma DiedInPrefix(log: Log, i: nat, k: nat, jobID: string)
    requires i < k <= |log|
    ensures DiedBetween(log[..k], i, k, jobID) <==> DiedBetween(log, i, k, jobID)
  {
    var front := log[..k];
    assert forall l :: 0 <= l < k ==> log[l] == front[l];
    forall m: nat | i <= m ensures StatusStays(front, m, k, jobID) <==> StatusStays(log, m, k, jobID) {
      if StatusStays(front, m, k, jobID) {
        forall l | m < l < k ensures !(log[l].StatusChanged? && log[l].jobID == jobID) {
          assert log[l] == front[l];
        }
      }
    }
    hide StatusStays;
    if m: nat :| i < m < k && log[m] == StatusChanged(jobID, "dead") && StatusStays(log, m, k, jobID) {
      assert front[m] == StatusChanged(jobID, "dead");
    }
  }

  /** The job read counts as missing: it is not there, or dead with dead jobs not included. */
  ghost predicate Missing(w: World, e: Event)
    requires e.Read?
  {
    e.info.NotFound? || (e.info.status == "dead" && !w.cfg.includeDeadJobs)
  }

  /** The definition parsed, which stays stopped if the job that is there is stopped. */
  ghost function AsApplied(w: World, e: Event): Job
    requires e.Read?
  {
    e.entry.job.(stop := e.entry.job.stop || (!Missing(w, e) && e.info.reg.spec.stop))
  }

  /** The enqueue goes back through an approval and a drift to a job that a cycle parsed from the
      repository, and asks to register that very definition under the cycle's commit. */
  ghost predicate AskedByRepository(w: World, log: Log, q: nat, row: Row) {
    && q < |log| && log[q].Enqueued? && log[q].from < q && HasApproval(log, log[q].from)
    && (var d := log[log[q].from].at;
        var i := log[d].at;
        var y := log[i].at;
        && FromFile(w, log, y, log[i].entry) && log[q].u.hclFile == log[i].entry.file
        && log[i].entry.job.id == row.jobID && row.job == Some(AsApplied(w, log[i]))
        && log[q].u.updateID == row.updateID && log[q].u.commit == log[y].commit
        && ShortCommit(row.commit) == ShortCommit(log[y].commit))
  }

  /** What is registered is a definition a cycle parsed from the repository, approved as that cycle's
      drift and enqueued under its commit, which is the row's. */
  lemma RegistersFromTheRepository(w: World, log: Log, k: nat)
    requires LogOf(w, log) && k < |log| && log[k].Registered?
    ensures exists q: nat :: q < k && AskedByRepository(w, log, q, log[k].row)
  {
    var q := AskBefore(w, log, k);
    RowIsNamed(w, log, k);
    EventOfRun(w, log, q);
    hide LogOf;
    EnqueuedNamed(w, log[..q], log[q]);
    hide EventOK;
    AskReachesRepository(w, log, q, log[k].row);
    hide FromFile;
    hide AsApplied;
    var u, row := log[q].u, log[k].row;
    UpdateIDDetermines(u.jobID, u.commit, row.jobID, row.commit);
    assert AskedByRepository(w, log, q, row);
  }

  lemma AskBefore(w: World, log: Log, k: nat) returns (q: nat)
    requires LogOf(w, log) && k < |log| && log[k].Registered?
    ensures q < k && AsksRegister(log, q, log[k].row)
  {
    hide LogOf;
    EventOfRun(w, log, k);
    RegisteredSourced(w, log[..k], log[k]);
    hide EventOK;
    q := AskOf(log[..k], log[k].row);
    AskLater(log, k, q, log[k].row);
  }

  lemma RegisteredSourced(w: World, log: Log, e: Event)
    requires e.Registered? && EventOK(w, log, e)
    ensures e.row.operation.Register? && e.row.job.Some? && Sourced(log, e.row)
    ensures exists time, seen :: HandOutTrace(log) == [Took(e.row), GatePassed(e.row, time), Replanned(e.row, seen)]
  {
    hide Sourced;
  }

  lemma AskLater(log: Log, k: nat, q: nat, row: Row)
    requires k <= |log| && AsksRegister(log[..k], q, row)
    ensures AsksRegister(log, q, row)
  {
  }

  lemma EnqueuedNamed(w: World, log: Log, e: Event)
    requires e.Enqueued? && EventOK(w, log, e) && HasApproval(log, e.from)
    ensures Named(e.u) && BuildsOn(log, e.from, e.u)
  {
    hide Named;
    hide BuildsOn;
  }

  /** A row that registers carries the ID its job and commit give. */
  lemma RowIsNamed(w: World, log: Log, k: nat)
    requires LogOf(w, log) && k < |log| && log[k].Registered?
    ensures Named(log[k].row) && log[k].row.operation.Register?
  {
    hide LogOf;
    EventOfRun(w, log, k);
    RegisteredSourced(w, log[..k], log[k]);
    var g := InTrace(log[..k], 0);
    EventOfRun(w, log, g);
    TookNamed(w, log[..g], log[g]);
  }

  lemma TookNamed(w: World, log: Log, e: Event)
    requires e.Took? && EventOK(w, log, e)
    ensures Named(e.row) && e.row.status.InProgress?
  {
    hide Named;
  }

  lemma AskReachesRepository(w: World, log: Log, q: nat, row: Row)
    requires LogOf(w, log) && AsksRegister(log, q, row)
    ensures var i := log[log[log[q].from].at].at;
            FromFile(w, log, log[i].at, log[i].entry) && row.job == Some(AsApplied(w, log[i]))
            && log[i].entry.job.id == row.jobID && CandidateAt(log, log[q].from).file == log[i].entry.file
  {
    WholeLogOK(w, log);
    hide LogOf;
    hide EventOK;
    var i, seen := ApprovedMeans(w, log, log[q].from);
    EventInLog(w, log, i);
    ReadOfEntry(w, log[..i], log[i]);
    EntryIsFromFile(w, log, i, log[i].at, log[i].entry);
    hide FromFile;
    DetectedJob(w, log[i], seen);
  }

  lemma EventInLog(w: World, log: Log, k: nat)
    requires LogOK(w, log) && k < |log|
    ensures EventOK(w, log[..k], log[k])
  {
    hide EventOK;
  }

  lemma ReadOfEntry(w: World, log: Log, e: Event)
    requires e.Read? && EventOK(w, log, e)
    ensures HasCycle(log, e.at) && Orphans.EntryOf(w.cfg, w.glob, log[e.at].files, e.entry)
  {
    hide Orphans.EntryOf;
  }

  lemma DetectedJob(w: World, e: Event, seen: Option<Registration>)
    requires e.Read? && Detected(w, e, seen).Some?
    ensures var c := Detected(w, e, seen).value; c.job == AsApplied(w, e) && c.file == e.entry.file
  {
    hide Classify;
    hide HasContentDiff;
  }

  /** Every write of the engine was let through the freeze gate in its own hand-out. */
  lemma WritesPassTheGate(w: World, log: Log, k: nat)
    requires LogOf(w, log) && k < |log| && OwnWrite(log[k])
    ensures exists g, time :: 0 <= g < k && log[g] == GatePassed(log[k].row, time) && SameHandOut(log, g, k)
                              && !Blocked(w, LastRead(log[..g]), log[k].row.jobID, time)
  {
    hide LogOf;
    hide Sourced;
    hide Named;
    EventOfRun(w, log, k);
    var front := log[..k];
    var g := InTrace(front, 1);
    PrefixHandOut(log, g, k);
    EventOfRun(w, log, g);
  }

  lemma {:induction false} LastReadIsLatest(log: Log)
    ensures LastRead(log).None? ==> forall f :: 0 <= f < |log| ==> !log[f].FreezesRead?
    ensures LastRead(log).Some? ==>
              exists f :: 0 <= f < |log| && log[f] == FreezesRead(LastRead(log).value)
                          && forall m :: f < m < |log| ==> !log[m].FreezesRead?
  {
    if log != [] {
      var front := log[..|log| - 1];
      LastReadIsLatest(front);
      if log[|log| - 1].FreezesRead? {
        assert log[|log| - 1] == FreezesRead(LastRead(log).value);
      } else if LastRead(front).Some? {
        var f :| 0 <= f < |front| && front[f] == FreezesRead(LastRead(front).value)
                 && forall m :: f < m < |front| ==> !front[m].FreezesRead?;
        assert log[f] == FreezesRead(LastRead(log).value);
        assert forall m :: f < m < |front| ==> log[m] == front[m];
      }
    }
  }

  /** Bounded staleness of freezes: once the store was read, a write of the engine follows the latest
      successful read in which its job was not frozen, and passed the gate no longer than the limit
      after it, unless there is no limit or the operator chose to fail open. Failed reads leave no
      view behind that would let anything through. */
  lemma BoundedFreezeStaleness(w: World, log: Log, k: nat, g: nat)
    requires LogOf(w, log) && g < k < |log| && OwnWrite(log[k])
    requires log[g].GatePassed? && log[g].row == log[k].row && SameHandOut(log, g, k)
    requires exists f :: 0 <= f < g && log[f].FreezesRead?
    ensures exists f :: 0 <= f < g && log[f].FreezesRead? && log[k].row.jobID !in log[f].view.held
                        && (forall m :: f < m < g ==> !log[m].FreezesRead?)
                        && (w.freezeEnabled && !w.freezeFailOpen && w.maxStaleness > 0
                            ==> log[g].time - log[f].view.readAt <= w.maxStaleness)
  {
    hide LogOf;
    hide Sourced;
    hide Named;
    EventOfRun(w, log, g);
    hide EventOK;
    var front := log[..g];
    LastReadIsLatest(front);
    var f0 :| 0 <= f0 < g && log[f0].FreezesRead?;
    assert front[f0] == log[f0];
    var f :| 0 <= f < |front| && front[f] == FreezesRead(LastRead(front).value)
             && forall m :: f < m < |front| ==> !front[m].FreezesRead?;
    assert log[f] == front[f];
    assert forall m :: f < m < g ==> log[m] == front[m];
    GateOpen(w, log, g);
  }

  lemma GateOpen(w: World, log: Log, g: nat)
    requires g < |log| && log[g].GatePassed? && EventOK(w, log[..g], log[g])
    ensures !Blocked(w, LastRead(log[..g]), log[g].row.jobID, log[g].time)
  {
  }

  lemma GateShut(w: World, log: Log, g: nat)
    requires g < |log| && log[g].GateClosed? && EventOK(w, log[..g], log[g])
    ensures Blocked(w, LastRead(log[..g]), log[g].row.jobID, log[g].time)
  {
  }

  /** A reason to withhold a write to the job: the latest successful read of the freeze store found this very
      job frozen, or lies further back than the limit where there is one and the operator did not
      choose to fail open. */
  ghost predicate ReasonToHold(w: World, log: Log, g: nat, jobID: string, time: int) {
    exists f :: 0 <= f < g && g <= |log| && log[f].FreezesRead? && (forall m :: f < m < g ==> !log[m].FreezesRead?)
                && (jobID in log[f].view.held
                    || (w.freezeEnabled && !w.freezeFailOpen && w.maxStaleness > 0 && time - log[f].view.readAt > w.maxStaleness))
  }

  lemma ReasonIsBlocked(w: World, log: Log, g: nat, jobID: string, time: int)
    requires g <= |log|
    ensures ReasonToHold(w, log, g, jobID, time) <==> Blocked(w, LastRead(log[..g]), jobID, time)
  {
    var front := log[..g];
    LastReadIsLatest(front);
    assert forall m :: 0 <= m < g ==> front[m] == log[m];
    if ReasonToHold(w, log, g, jobID, time) {
      var f :| 0 <= f < g && log[f].FreezesRead? && (forall m :: f < m < g ==> !log[m].FreezesRead?)
               && (jobID in log[f].view.held
                   || (w.freezeEnabled && !w.freezeFailOpen && w.maxStaleness > 0 && time - log[f].view.readAt > w.maxStaleness));
      assert front[f].FreezesRead?;
    }
  }

  /** The gate is closed to a row exactly when there is a reason to withhold a write to its job; a freeze of
      another job is none. */
  lemma GateExactly(w: World, log: Log, g: nat)
    requires LogOf(w, log) && g < |log| && (log[g].GatePassed? || log[g].GateClosed?)
    ensures log[g].GateClosed? <==> ReasonToHold(w, log, g, log[g].row.jobID, log[g].time)
  {
    hide LogOf;
    hide Sourced;
    hide Named;
    EventOfRun(w, log, g);
    ReasonIsBlocked(w, log, g, log[g].row.jobID, log[g].time);
    hide ReasonToHold;
    if log[g].GatePassed? {
      GateOpen(w, log, g);
    } else {
      GateShut(w, log, g);
    }
  }

  /** A row ends held exactly when the gate was closed to it in its hand-out. */
  lemma HeldExactly(w: World, log: Log, k: nat)
    requires LogOf(w, log) && k < |log| && log[k].Finished?
    ensures log[k].completed.Some?
    ensures exists g :: 0 <= g < k && SameHandOut(log, g, k)
                        && (log[g].GateClosed? || log[g].GatePassed?) && log[g].row == log[k].completed.value
                        && (log[k].outcome.Held? <==> log[g].GateClosed?)
  {
    hide LogOf;
    EventOfRun(w, log, k);
    EndedAtTheGate(w, log[..k], log[k]);
    var g := InTrace(log[..k], 1);
    PrefixHandOut(log, g, k);
  }

  lemma EndedAtTheGate(w: World, log: Log, e: Event)
    requires e.Finished? && EventOK(w, log, e)
    ensures e.completed.Some? && |HandOutTrace(log)| >= 2
    ensures var gate := HandOutTrace(log)[1];
            (gate.GateClosed? || gate.GatePassed?) && gate.row == e.completed.value && (e.outcome.Held? <==> gate.GateClosed?)
  {
    hide HandOutTrace;
  }

  // ---- One row at a time ----

  /** At most one row is being applied at any time, and it is the row the applier was handed, as it
      was handed out. */
  lemma OneAtATime(w: World, s: State, acts: seq<Action>, r: Row)
    requires Init(s) && Run(w, s, acts).Some?
    requires r in Run(w, s, acts).value.rows && r.status.InProgress?
    ensures var t := Run(w, s, acts).value; !t.phase.Idle? && r == t.phase.row
  {
    RunKeeps(w, s, acts);
    hide Run;
  }

  /** The row handed out before is completed first. */
  lemma TookMeans(w: World, log: Log, k: nat)
    requires LogOf(w, log) && k < |log| && log[k].Took?
    ensures var trace := HandOutTrace(log[..k]); trace == [] || trace[|trace| - 1].Finished?
  {
    hide LogOf;
    hide Sourced;
    hide Named;
    EventOfRun(w, log, k);
  }

  /** What is completed is the row the hand-out started with. */
  lemma FinishedMeans(w: World, log: Log, k: nat)
    requires LogOf(w, log) && k < |log| && log[k].Finished?
    ensures log[k].completed.Some? && HandOutTrace(log[..k]) != []
    ensures HandOutTrace(log[..k])[0] == Took(log[k].completed.value)
  {
    hide LogOf;
    hide Sourced;
    hide Named;
    EventOfRun(w, log, k);
  }

  /** Between two hand-outs the first row is completed, found in the queue exactly as it was handed
      out. */
  lemma HandOutsAlternate(w: World, log: Log, k1: nat, k2: nat)
    requires LogOf(w, log) && k1 < k2 < |log| && log[k1].Took? && log[k2].Took? && SameHandOut(log, k1, k2)
    ensures exists m :: k1 < m < k2 && log[m].Finished? && log[m].completed == Some(log[k1].row)
  {
    hide LogOf;
    PrefixHandOut(log, k1, k2);
    TraceStart(log[..k2], k1);
    TookMeans(w, log, k2);
    var m := InTrace(log[..k2], |HandOutTrace(log[..k2])| - 1);
    PrefixHandOut(log, m, k2);
    assert log[..k2][k1].Took?;
    assert m > k1;
    PrefixHandOut(log, k1, m);
    TraceStart(log[..m], k1);
    FinishedMeans(w, log, m);
  }

  predicate WritesOrEnds(e: Event) {
    OwnWrite(e) || e.Finished?
  }

  /** Before a write the hand-out has neither written nor ended. */
  lemma WriteMeans(w: World, log: Log, k: nat)
    requires LogOf(w, log) && k < |log| && OwnWrite(log[k])
    ensures forall e :: e in HandOutTrace(log[..k]) ==> !WritesOrEnds(e)
  {
    hide LogOf;
    hide Sourced;
    hide Named;
    EventOfRun(w, log, k);
  }

  /** A hand-out makes at most one write, and only before it is completed. */
  lemma OneWritePerHandOut(w: World, log: Log, k1: nat, k2: nat)
    requires LogOf(w, log) && k1 < k2 < |log| && SameHandOut(log, k1, k2) && WritesOrEnds(log[k1])
    ensures !OwnWrite(log[k2])
  {
    hide LogOf;
    hide HandOutTrace;
    if OwnWrite(log[k2]) {
      PrefixHandOut(log, k1, k2);
      StaysInTrace(log[..k2], k1);
      WriteMeans(w, log, k2);
      assert false;
    }
  }

  lemma {:induction false} StaysInTrace(log: Log, k: nat)
    requires k < |log| && ByApplier(log[k]) && SameHandOut(log, k, |log|)
    ensures log[k] in HandOutTrace(log)
  {
    var front := log[..|log| - 1];
    if k < |log| - 1 {
      assert forall m :: k < m < |front| ==> front[m] == log[m];
      StaysInTrace(front, k);
    }
  }

  // ---- Deregistration and rollback ----

  lemma {:induction false} MomentAt(log: Log, m: nat)
    requires m < |log| && MomentOf(log[m]).Some?
    ensures |Moments(log[..m])| < |Moments(log)| && Moments(log)[|Moments(log[..m])|] == MomentOf(log[m]).value
  {
    hide MomentOf;
    if m < |log| - 1 {
      var front := log[..|log| - 1];
      assert front[..m] == log[..m];
      MomentAt(front, m);
    }
  }

  /** Every moment stands in the log, the earlier the earlier. */
  lemma {:induction false} MomentSource(log: Log, i: nat) returns (m: nat)
    requires i < |Moments(log)|
    ensures m < |log| && MomentOf(log[m]) == Some(Moments(log)[i]) && |Moments(log[..m])| == i
  {
    hide MomentOf;
    var front := log[..|log| - 1];
    if i < |Moments(front)| {
      m := MomentSource(front, i);
      assert front[..m] == log[..m];
    } else {
      m := |log| - 1;
    }
  }

  lemma {:induction false} MomentsMonotone(log: Log, c: nat, m: nat)
    requires c <= m <= |log|
    ensures |Moments(log[..c])| <= |Moments(log[..m])|
  {
    if c < m {
      MomentsMonotone(log, c, m - 1);
      assert log[..m][..m - 1] == log[..m - 1];
    }
  }

  /** The cycle listed the job, live or with dead jobs included, selected by name or by its tag, and no file
      that parsed defines it. */
  ghost predicate ListedOrphan(w: World, log: Log, at: nat, j: Orphans.Stub) {
    && at < |log| && log[at].CycleStarted? && j in log[at].jobs && (w.cfg.includeDeadJobs || j.status != "dead")
    && (w.glob(j.id) || KeyIs(w.cfg, j.meta, "_managed", "true"))
    && (j.id != "" ==> forall f :: f in log[at].files && f.content.Parsed? ==> f.content.job.id != j.id)
  }

  lemma OrphanIsListed(w: World, log: Log, at: nat, j: Orphans.Stub)
    requires SawOrphan(w, log, at, j)
    ensures ListedOrphan(w, log, at, j)
  {
    ManagedExactly(w.cfg, j.meta);
    hide Managed;
    hide KeyIs;
    forall f | f in log[at].files && f.content.Parsed? && f.content.job.id == j.id ensures j.id == "" {
    }
  }

  ghost predicate SawJobOrphaned(w: World, log: Log, at: nat, jobID: string) {
    exists j: Orphans.Stub :: j.id == jobID && ListedOrphan(w, log, at, j)
  }

  /** Every cycle committed in between saw the job orphaned. */
  ghost predicate OrphanedThroughout(w: World, log: Log, c: nat, a: nat, jobID: string) {
    forall m :: c <= m < a && m < |log| && log[m].CycleCommitted? ==> SawJobOrphaned(w, log, log[m].at, jobID)
  }

  /** Detection decided to remove the job: the cycle saw it orphaned and tagged, its policy is full, it is
      not frozen, its grace period is over not counting the time reads saw it frozen, and every cycle committed
      since an earlier one at least the grace period ago saw it orphaned. So a job is never removed by the
      first cycle that finds it orphaned. */
  ghost predicate RemovalGrounds(w: World, log: Log, c: nat, a: nat, jobID: string) {
    && c < a < |log| && log[a].RemovalApproved? && log[a].stub.id == jobID
    && ListedOrphan(w, log, log[a].at, log[a].stub)
    && KeyIs(w.cfg, log[a].stub.meta, "_managed", "true") && FullByMeta(w.cfg, log[a].stub.meta)
    && !ReasonToHold(w, log, a, jobID, log[a].time)
    && log[c].CycleCommitted? && log[c].at != log[a].at && log[a].time - log[c].time >= w.grace
    && OrphanedThroughout(w, log, c, a, jobID)
    && Orphans.GraceSpent(Moments(log[..a]), w.grace, log[a].time, jobID)
  }

  /** A key that was committed as an orphan's stands for a job the cycle saw orphaned. */
  lemma CommittedOrphan(w: World, log: Log, e: Event, jobID: string) returns (j: Orphans.Stub)
    requires e.CycleCommitted? && EventOK(w, log, e) && DriftKey(jobID, MissingFromHCL) in e.keys
    ensures j.id == jobID && SawOrphan(w, log, e.at, j)
  {
    DriftKeyRoundTrip(jobID, MissingFromHCL);
    assert DriftKey(jobID, MissingFromHCL) in OrphanKeys(w, log, e.at);
    hide SawOrphan;
    hide DriftKey;
    j :| j in log[e.at].jobs && SawOrphan(w, log, e.at, j) && DriftKey(j.id, MissingFromHCL) == DriftKey(jobID, MissingFromHCL);
    DriftKeyDetermines(j.id, MissingFromHCL, jobID, MissingFromHCL);
  }

  lemma SawOrphanLater(w: World, log: Log, k: nat, at: nat, j: Orphans.Stub)
    requires k <= |log| && SawOrphan(w, log[..k], at, j)
    ensures SawOrphan(w, log, at, j)
  {
  }

  lemma RemovalMeans(w: World, log: Log, e: Event)
    requires e.RemovalApproved? && EventOK(w, log, e)
    ensures w.cfg.enableDeregister && SawOrphan(w, log, e.at, e.stub) && Uncommitted(log, e.at) && TimesOK(Moments(log), e.time)
    ensures KeyIs(w.cfg, e.stub.meta, "_managed", "true") && FullByMeta(w.cfg, e.stub.meta)
    ensures !Blocked(w, LastRead(log), e.stub.id, e.time)
    ensures Orphans.GraceOver(Orphans.AfterRun(Moments(log)), w.grace, e.time, e.stub.id)
  {
    hide SawOrphan;
    hide Uncommitted;
    hide TimesOK;
    ManagedExactly(w.cfg, e.stub.meta);
    FullExactly(w.cfg, e.stub.meta);
    hide EffectivePolicy;
    hide Managed;
    hide KeyIs;
    hide FullByMeta;
    hide Blocked;
    hide Orphans.GraceOver;
  }

  /** With the grace period over there is a committed cycle, that long ago, since which every cycle saw
      the drift. */
  lemma GraceMeansSeen(run: seq<Orphans.Moment>, grace: int, now: int, jobID: string) returns (r: nat)
    requires TimesOK(run, now) && Orphans.GraceOver(Orphans.AfterRun(run), grace, now, jobID)
    ensures r < |run| && run[r].Committed? && now - run[r].time >= grace
    ensures Orphans.SeenSince(run, r, DriftKey(jobID, MissingFromHCL))
  {
    var k := DriftKey(jobID, MissingFromHCL);
    Orphans.FirstSeenIsRunStart(run, k);
    Orphans.OffsetNotNegative(run, jobID, now);
    r :| Orphans.StartsRun(run, r, k) && Orphans.AfterRun(run).firstSeen[k] == run[r].time;
  }

  lemma CommitSawJob(w: World, log: Log, m: nat, jobID: string)
    requires LogOf(w, log) && m < |log| && log[m].CycleCommitted? && DriftKey(jobID, MissingFromHCL) in log[m].keys
    ensures SawJobOrphaned(w, log, log[m].at, jobID)
  {
    hide LogOf;
    hide Sourced;
    hide Named;
    EventOfRun(w, log, m);
    hide LogOf;
    hide EventOK;
    var j := CommittedOrphan(w, log[..m], log[m], jobID);
    SawOrphanLater(w, log, m, log[m].at, j);
    OrphanIsListed(w, log, log[m].at, j);
    hide SawOrphan;
    hide ListedOrphan;
  }

  /** The cycles committed from the start of the run of sightings on. */
  lemma SeenInLog(w: World, log: Log, a: nat, c: nat, jobID: string)
    requires LogOf(w, log) && c < a <= |log|
    requires Orphans.SeenSince(Moments(log[..a]), |Moments(log[..c])|, DriftKey(jobID, MissingFromHCL))
    ensures OrphanedThroughout(w, log, c, a, jobID)
  {
    hide LogOf;
    hide DriftKey;
    hide SawJobOrphaned;
    var front := log[..a];
    forall m | c <= m < a && log[m].CycleCommitted? ensures SawJobOrphaned(w, log, log[m].at, jobID) {
      assert front[m] == log[m] && front[..m] == log[..m];
      MomentAt(front, m);
      MomentsMonotone(log, c, m);
      CommitSawJob(w, log, m, jobID);
    }
  }

  lemma RemovalIsGrounded(w: World, log: Log, a: nat) returns (c: nat)
    requires LogOf(w, log) && a < |log| && log[a].RemovalApproved?
    ensures w.cfg.enableDeregister && RemovalGrounds(w, log, c, a, log[a].stub.id)
  {
    hide LogOf;
    hide Sourced;
    hide Named;
    EventOfRun(w, log, a);
    hide LogOf;
    hide EventOK;
    var front, e := log[..a], log[a];
    RemovalMeans(w, front, e);
    hide SawOrphan;
    hide DriftKey;
    hide Orphans.GraceOver;
    SawOrphanLater(w, log, a, e.at, e.stub);
    OrphanIsListed(w, log, e.at, e.stub);
    ReasonIsBlocked(w, log, a, e.stub.id, e.time);
    hide ListedOrphan;
    hide ReasonToHold;
    hide KeyIs;
    hide FullByMeta;
    Orphans.GraceExactly(Moments(front), w.grace, e.time, e.stub.id);
    hide Orphans.GraceSpent;
    var r := GraceMeansSeen(Moments(front), w.grace, e.time, e.stub.id);
    c := MomentSource(front, r);
    assert front[c] == log[c] && front[..c] == log[..c];
    SeenInLog(w, log, a, c, e.stub.id);
    hide OrphanedThroughout;
    hide Blocked;
  }

  /** A job is only deregistered after a look at it, in the same hand-out, that found the managed tag;
      and detection had decided so on a job it saw orphaned, with no file that parsed defining it, in
      that cycle and in every cycle committed since one at least the grace period before. */
  lemma DeregistersOrphansOnly(w: World, log: Log, k: nat)
    requires LogOf(w, log) && k < |log| && log[k].Deregistered?
    ensures w.cfg.enableDeregister
    ensures exists r, reg :: 0 <= r < k && log[r] == Rechecked(log[k].row, reg)
                             && KeyIs(w.cfg, MetaOf(reg.spec), "_managed", "true") && SameHandOut(log, r, k)
    ensures exists c: nat, a: nat :: a < k && RemovalGrounds(w, log, c, a, log[k].row.jobID)
  {
    var r := DeregisterTrace(w, log, k);
    EventOfRun(w, log, r);
    ManagedExactly(w.cfg, MetaOf(log[r].reg.spec));
    var q := RemovalBefore(w, log, k);
    var c := RemovalIsGrounded(w, log, log[q].from);
    hide LogOf;
    hide RemovalGrounds;
    assert log[r] == Rechecked(log[k].row, log[r].reg);
  }

  lemma RemovalBefore(w: World, log: Log, k: nat) returns (q: nat)
    requires LogOf(w, log) && k < |log| && log[k].Deregistered?
    ensures q < k && log[q].Enqueued? && log[q].from < q && log[log[q].from].RemovalApproved?
    ensures log[log[q].from].stub.id == log[k].row.jobID
  {
    hide LogOf;
    EventOfRun(w, log, k);
    q :| AsksRemoval(log[..k], q, log[k].row);
    assert log[q] == log[..k][q] && log[log[q].from] == log[..k][log[q].from];
  }

  lemma DeregisterTrace(w: World, log: Log, k: nat) returns (r: nat)
    requires LogOf(w, log) && k < |log| && log[k].Deregistered?
    ensures r < k && log[r].Rechecked? && log[r].row == log[k].row && SameHandOut(log, r, k)
  {
    hide LogOf;
    EventOfRun(w, log, k);
    r := InTrace(log[..k], 2);
    PrefixHandOut(log, r, k);
  }

  /** A failed version is reverted from at most once while the job exists, whatever Nomad's own
      rollback and humans do in between. */
  lemma RevertAtMostOnce(w: World, log: Log, k1: nat, k2: nat)
    requires LogOf(w, log) && k1 < k2 < |log| && log[k1].Reverted? && log[k2].Reverted?
    requires log[k1].row.jobID == log[k2].row.jobID && log[k1].row.revertFrom == log[k2].row.revertFrom
    ensures exists m :: k1 < m < k2 && Purges(log[m], log[k1].row.jobID)
  {
    hide LogOf;
    hide Sourced;
    hide Named;
    EventOfRun(w, log, k2);
    var front := log[..k2];
    assert front[k1] == log[k1];
    assert RevertedOnce(front, log[k2].row);
    var m :| k1 < m < |front| && Purges(front[m], log[k2].row.jobID);
    assert log[m] == front[m];
  }

  /** Detection saw the failure: the job is one the cycle parsed from the repository and wants active
      rollback there, its registration at that time did not leave it to Nomad, it was not frozen, and
      the target is the greatest stable version below the failed one. */
  ghost predicate RevertGrounds(w: World, log: Log, a: nat, row: Row) {
    && a < |log| && log[a].FailureSeen? && log[a].entry.job.id == row.jobID && log[a].failed == row.revertFrom
    && FromFile(w, log, log[a].at, log[a].entry) && WantsRollback(w.cfg, MetaOf(log[a].entry.job))
    && log[a].live.spec.autoRevert != Some(true)
    && (forall g :: g in log[a].live.spec.groups && g.Some? ==> g.value.autoRevert != Some(true))
    && !ReasonToHold(w, log, a, row.jobID, log[a].time)
    && LastStable(log[a].versions, log[a].failed) == Some(row.revertTo)
  }

  /** What is reverted to is what was decided on seeing the failure; the job was still at the failed
      version when the revert landed, and still the registration seen then, unless it was written
      since. */
  lemma RevertTarget(w: World, log: Log, k: nat)
    requires LogOf(w, log) && k < |log| && log[k].Reverted?
    ensures log[k].found.version == log[k].row.revertFrom && log[k].row.revertTo < log[k].row.revertFrom
    ensures exists a: nat :: a < k && RevertGrounds(w, log, a, log[k].row)
                             && (log[k].found == log[a].live || exists m :: a < m < k && Writes(log[m], log[k].row.jobID))
  {
    var a := FailureBefore(w, log, k);
    RevertIsGrounded(w, log, a, log[k].row);
    hide LogOf;
    hide RevertGrounds;
  }

  lemma FailureBefore(w: World, log: Log, k: nat) returns (a: nat)
    requires LogOf(w, log) && k < |log| && log[k].Reverted?
    ensures log[k].found.version == log[k].row.revertFrom && log[k].row.revertTo < log[k].row.revertFrom
    ensures a < k && log[a].FailureSeen? && log[a].entry.job.id == log[k].row.jobID && log[a].failed == log[k].row.revertFrom
    ensures LastStable(log[a].versions, log[a].failed) == Some(log[k].row.revertTo)
    ensures log[k].found == log[a].live || exists m :: a < m < k && Writes(log[m], log[k].row.jobID)
  {
    hide LogOf;
    EventOfRun(w, log, k);
    var front := log[..k];
    var q: nat :| AsksRevert(front, q, log[k].row);
    a := front[q].from;
    assert log[a] == front[a];
    assert SeenOrWritten(front, log[k].row.jobID, log[k].found);
    if !Quiet(front, a, log[k].row.jobID) {
      var m :| a < m < |front| && Writes(front[m], log[k].row.jobID);
      assert log[m] == front[m];
    }
  }

  lemma RevertIsGrounded(w: World, log: Log, a: nat, row: Row)
    requires LogOf(w, log) && a < |log| && log[a].FailureSeen? && log[a].entry.job.id == row.jobID
    requires log[a].failed == row.revertFrom && LastStable(log[a].versions, log[a].failed) == Some(row.revertTo)
    ensures RevertGrounds(w, log, a, row)
  {
    hide LogOf;
    EventOfRun(w, log, a);
    FailureMeans(w, log[..a], log[a]);
    EntryIsFromFile(w, log, a, log[a].at, log[a].entry);
    WantsRollbackExactly(w.cfg, MetaOf(log[a].entry.job));
    ReasonIsBlocked(w, log, a, row.jobID, log[a].time);
    hide EventOK;
    hide Blocked;
    hide LastRead;
    hide EffectiveRollback;
    hide WantsRollback;
    hide ReasonToHold;
    hide FromFile;
  }

  lemma FailureMeans(w: World, log: Log, e: Event)
    requires e.FailureSeen? && EventOK(w, log, e)
    ensures HasCycle(log, e.at) && Orphans.EntryOf(w.cfg, w.glob, log[e.at].files, e.entry)
    ensures EffectiveRollback(w.cfg, MetaOf(e.entry.job)) && !Blocked(w, LastRead(log), e.entry.job.id, e.time)
    ensures !JobHasAutoRevert(e.live.spec)
  {
    hide Blocked;
    hide LastRead;
    hide EffectiveRollback;
    hide JobHasAutoRevert;
    hide Orphans.EntryOf;
  }

  /** The entry is a job that one of the cycle's files defines, selected by name or by its tag. */
  ghost predicate FromFile(w: World, log: Log, at: nat, e: Entry) {
    && at < |log| && log[at].CycleStarted?
    && e.job.id != "" && (w.glob(e.job.id) || KeyIs(w.cfg, MetaOf(e.job), "_managed", "true")) && e.globSel == w.glob(e.job.id)
    && exists f :: f in log[at].files && f.name == e.file && f.content == Orphans.Parsed(e.job)
  }

  lemma EntryIsFromFile(w: World, log: Log, k: nat, at: nat, e: Entry)
    requires k <= |log| && HasCycle(log[..k], at) && Orphans.EntryOf(w.cfg, w.glob, log[..k][at].files, e)
    ensures FromFile(w, log, at, e)
  {
    ManagedExactly(w.cfg, MetaOf(e.job));
    hide Managed;
    hide KeyIs;
  }

  // ---- Out of the box ----

  /** No job these files define may undergo any change, and none wants active rollback. */
  ghost predicate AskNothing(w: World, files: seq<Orphans.RepoFile>) {
    forall f :: f in files && f.content.Parsed? ==>
      (forall change, creation :: !Permitted(w.cfg, f.content.job, change, creation)) && !WantsRollback(w.cfg, MetaOf(f.content.job))
  }

  lemma NothingPermitted(cfg: Config, job: Job)
    requires !Permitted(cfg, job, ImageChange, false)
    ensures EffectivePolicy(cfg, MetaOf(job)).NoUpdates?
  {
    PermittedExactly(cfg, job, ImageChange, false);
    hide Permitted;
    hide EffectivePolicy;
  }

  /** So for all the repository ever holds. */
  ghost predicate HandsOff(w: World, a: Action) {
    a.Det? && a.det.StartCycle? ==> AskNothing(w, a.det.files)
  }

  ghost predicate Harmless(w: World, e: Event) {
    match e
    case CycleStarted(_, files, _) => AskNothing(w, files)
    case CycleCommitted(_, _, _) => true
    case Read(_, entry, _) => EffectivePolicy(w.cfg, MetaOf(entry.job)).NoUpdates?
    case Drift(_, _, c) => EffectivePolicy(w.cfg, MetaOf(c.job)).NoUpdates?
    case FreezesRead(_) => true
    case Thawed(_, _) => true
    case OutsideWrote(_, _) => true
    case OutsidePurged(_) => true
    case StatusChanged(_, _) => true
    case _ => false
  }

  ghost predicate Untouched(w: World, s: State) {
    s.rows == [] && s.phase.Idle? && forall k :: 0 <= k < |s.log| ==> Harmless(w, s.log[k])
  }

  lemma DriftIsHarmless(w: World, e: Event, seen: Option<Registration>)
    requires e.Read? && Harmless(w, e) && Detected(w, e, seen).Some?
    ensures EffectivePolicy(w.cfg, MetaOf(Detected(w, e, seen).value.job)).NoUpdates?
  {
    hide Classify;
    hide HasContentDiff;
  }

  lemma EntryAsksNothing(w: World, files: seq<Orphans.RepoFile>, e: Entry)
    requires AskNothing(w, files) && Orphans.EntryOf(w.cfg, w.glob, files, e)
    ensures EffectivePolicy(w.cfg, MetaOf(e.job)).NoUpdates? && !EffectiveRollback(w.cfg, MetaOf(e.job))
  {
    hide Permitted;
    hide WantsRollback;
    assert !Permitted(w.cfg, e.job, ImageChange, false) && !WantsRollback(w.cfg, MetaOf(e.job));
    NothingPermitted(w.cfg, e.job);
    WantsRollbackExactly(w.cfg, MetaOf(e.job));
    hide EffectivePolicy;
    hide EffectiveRollback;
  }

  /** Nothing that leads to a write can be decided. */
  lemma NothingToApprove(w: World, s: State, a: DetectAction)
    requires Untouched(w, s) && !w.cfg.enableDeregister && !a.StartCycle? && !a.ReadJob? && !a.PlanJob? && !a.CommitCycle?
    ensures !EnabledDet(w, s, a)
  {
    hide EffectivePolicy;
    hide EffectiveRollback;
    hide Blocked;
    hide Orphans.EntryOf;
    hide AskNothing;
    match a {
      case Approve(at, knownFailed) =>
        if HasCandidate(s.log, at) {
          assert Harmless(w, s.log[at]);
          NoUpdatesQueuesNothing(w.cfg, s.log[at].c, CommitOf(s.log, at),
                                 Blocked(w, s.view, s.log[at].c.jobID, s.now), knownFailed);
        }
      case TagVersion(at, _) =>
        if HasCandidate(s.log, at) {
          assert Harmless(w, s.log[at]);
          NoUpdatesQueuesNothing(w.cfg, s.log[at].c, CommitOf(s.log, at), Blocked(w, s.view, s.log[at].c.jobID, s.now), false);
        }
      case ApproveRemoval(_, _) =>
      case SeeFailure(at, entry, _, _) =>
        if HasCycle(s.log, at) && Orphans.EntryOf(w.cfg, w.glob, s.log[at].files, entry) {
          assert Harmless(w, s.log[at]);
          EntryAsksNothing(w, s.log[at].files, entry);
        }
      case EnqueueUpdate(at) => assert at < |s.log| ==> Harmless(w, s.log[at]);
      case EnqueueRemoval(at) => assert at < |s.log| ==> Harmless(w, s.log[at]);
      case EnqueueRevert(at) => assert at < |s.log| ==> Harmless(w, s.log[at]);
      case _ =>
    }
  }

  lemma NoteUntouched(w: World, s: State, t: State, e: Event)
    requires Untouched(w, s) && t.rows == s.rows && t.phase == s.phase && t.log == s.log + [e] && Harmless(w, e)
    ensures Untouched(w, t)
  {
    hide Harmless;
  }

  lemma QuietDetection(w: World, s: State, a: DetectAction)
    requires Untouched(w, s) && !w.cfg.enableDeregister && EnabledDet(w, s, a) && HandsOff(w, Det(a))
    ensures Untouched(w, StepDet(w, s, a))
  {
    var t := StepDet(w, s, a);
    match a {
      case StartCycle(commit, files, _, jobs) => NoteUntouched(w, s, t, CycleStarted(commit, files, jobs));
      case ReadJob(at, entry) =>
        hide EffectivePolicy;
        hide EffectiveRollback;
        hide AskNothing;
        assert Harmless(w, s.log[at]);
        EntryAsksNothing(w, s.log[at].files, entry);
        NoteUntouched(w, s, t, Read(at, entry, InfoOf(s, entry.job.id)));
      case PlanJob(at) =>
        hide EffectivePolicy;
        hide Detected;
        var seen := RegOf(s, s.log[at].entry.job.id);
        DriftIsHarmless(w, s.log[at], seen);
        NoteUntouched(w, s, t, Drift(at, seen, DetectedAt(w, s, at).value));
      case CommitCycle(at, others) =>
        NoteUntouched(w, s, t, CycleCommitted(at, s.now, others + OrphanKeys(w, s.log, at)));
      case _ =>
        NothingToApprove(w, s, a);
        assert false;
    }
  }

  lemma QuietStep(w: World, s: State, a: Action)
    requires Untouched(w, s) && !w.cfg.enableDeregister && Enabled(w, s, a) && HandsOff(w, a)
    ensures Untouched(w, Step(w, s, a))
  {
    hide Harmless;
    match a {
      case Env(e) => QuietOutside(w, s, e);
      case Det(d) =>
        hide StepDet;
        hide EnabledDet;
        QuietDetection(w, s, d);
      case App(p) => assert false;
    }
  }

  lemma QuietOutside(w: World, s: State, a: OutsideAction)
    requires Untouched(w, s) && EnabledEnv(w, s, a)
    ensures Untouched(w, StepEnv(w, s, a))
  {
    hide AskNothing;
    hide EffectivePolicy;
  }

  /** Out of the box the engine never writes: with deregistration off, policy "none" for every job the
      repository ever defines and no rollback, the queue stays empty over every run and no call that
      changes Nomad, not even the tagging of a version, is ever made. */
  lemma {:induction false} OutOfTheBox(w: World, s: State, acts: seq<Action>)
    requires Init(s) && Run(w, s, acts).Some? && !w.cfg.enableDeregister
    requires forall a :: a in acts ==> HandsOff(w, a)
    ensures var t := Run(w, s, acts).value;
            t.rows == [] && forall e :: e in t.log ==> !OwnWrite(e) && !e.Tagged? && !e.Enqueued?
    ensures Untouched(w, Run(w, s, acts).value)
  {
    hide Step;
    hide Enabled;
    hide HandsOff;
    if acts != [] {
      OutOfTheBox(w, s, acts[..|acts| - 1]);
      QuietStep(w, Run(w, s, acts[..|acts| - 1]).value, acts[|acts| - 1]);
    }
  }
}
