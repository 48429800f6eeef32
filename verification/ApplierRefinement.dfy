/** The applier's methods and the applier's steps in the protocol agree: left alone with a row, the
    steps end as the methods do after the same conversation with Nomad. And the protocol takes a rollback
    into account exactly when the rollback poll does. */
module ApplierRefinement {
  import opened Wrappers
  import opened Jobs
  import opened Classifier
  import opened Updates
  import opened Decisions
  import opened Protocol
  import opened Appliers
  import FlapGuards
  import Orphans
  import Rollbacks

  /** A hand-out has ended in the protocol the way the conversation ends in the applier. */
  predicate EndsAs(w: World, s: State, row: Row, blocked: bool, talk: seq<Call>) {
    s.phase.Ending? && s.phase.row == row
    && VerdictOf(w.cfg, row, blocked, talk).Some?
    && (var v := VerdictOf(w.cfg, row, blocked, talk).value;
        v.status == s.phase.status && v.index == s.phase.index && v.error == s.phase.error)
  }

  lemma HeldAgrees(w: World, s: State)
    requires s.phase.Taken? && Blocked(w, s.view, s.phase.row.jobID, s.now)
    ensures EnabledApp(s, Gate) && EndsAs(w, StepGate(w, s), s.phase.row, true, [])
  {
  }

  /** A row is refused only if its operation is unsupported or it has no job to register. */
  lemma RefuseAgrees(w: World, s: State)
    requires EnabledApp(s, Refuse)
    ensures s.phase.Gated? && EndsAs(w, StepApp(w, s, Refuse), s.phase.row, false, [])
  {
    if s.phase.row.operation.Register? {
      NoJobTalk(w.cfg, s.phase.row);
    }
  }

  /** What a registration is answered. */
  function RegisterAnswer(s: State, row: Row, reaches: bool, answered: bool): Option<nat>
    requires row.job.Some?
  {
    if reaches && RegisterLands(s, row) && answered then Some(s.raft + 1) else None
  }

  lemma RegisterAgrees(w: World, s: State, planFails: bool, reaches: bool, answered: bool, status: string)
    requires s.phase.Gated? && s.phase.row.operation.Register? && s.phase.row.job.Some?
    ensures var row := s.phase.row;
            var plan := if planFails then PlanError else Planned(w.plan(row.job.value, RegOf(s, row.job.value.id)));
            var asked := PlanCall(row.job.value, plan);
            var call := RegisterCall(row.job.value, row.modifyIndex, row.preserveCounts, RegisterAnswer(s, row, reaches, answered));
            var t := StepReplan(w, s, planFails);
            EnabledApp(s, Replan(planFails))
            && if t.phase.Ready? then
                 EnabledApp(t, CallRegister(reaches, answered, status))
                 && EndsAs(w, StepRegister(w, t, reaches, answered, status), row, false, [asked, call])
               else EndsAs(w, t, row, false, [asked])
  {
    hide Classify;
    hide NextReg;
    var row := s.phase.row;
    var plan := if planFails then PlanError else Planned(w.plan(row.job.value, RegOf(s, row.job.value.id)));
    var answer := RegisterAnswer(s, row, reaches, answered);
    RegisterTalks(w.cfg, row, plan, answer);
    var asked := PlanCall(row.job.value, plan);
    var call := RegisterCall(row.job.value, row.modifyIndex, row.preserveCounts, answer);
    assert [asked] + [call] == [asked, call];
  }

  /** What a look at the job is answered. */
  function RecheckAnswer(s: State, jobID: string, fails: bool): InfoAnswer {
    if fails then InfoFailed
    else if jobID !in s.cluster then Gone
    else LiveJob(MetaOf(s.cluster[jobID].reg.spec))
  }

  lemma RecheckAgrees(w: World, s: State, fails: bool)
    requires s.phase.Gated? && s.phase.row.operation.Deregister?
    ensures var row := s.phase.row;
            var t := StepRecheck(w, s, fails);
            var info := RecheckAnswer(s, row.jobID, fails);
            EnabledApp(s, Recheck(fails))
            && if t.phase.Confirmed? then t.phase.row == row && t.cluster == s.cluster && info.LiveJob? && Managed(w.cfg, info.meta)
               else EndsAs(w, t, row, false, [InfoCall(row.jobID, info)])
  {
    hide Managed;
    hide DeregisterTalk;
    var row := s.phase.row;
    DeregisterTalks(w.cfg, row, RecheckAnswer(s, row.jobID, fails), true);
    UntaggedMeans(w.cfg, row.jobID, RecheckAnswer(s, row.jobID, fails));
  }

  /** The job may be gone by now, purged since the look at it; the call then reports an error. */
  lemma RemovalAgrees(w: World, s: State, info: InfoAnswer, reaches: bool, answered: bool)
    requires s.phase.Confirmed? && s.phase.row.operation.Deregister? && info.LiveJob? && Managed(w.cfg, info.meta)
    ensures var row := s.phase.row;
            var done := reaches && row.jobID in s.cluster && answered;
            EnabledApp(s, CallDeregister(reaches, answered))
            && EndsAs(w, StepDeregister(w, s, reaches, answered), row, false,
                   [InfoCall(row.jobID, info), DeregisterCall(row.jobID, w.cfg.deregisterPurge, done)])
  {
    var row := s.phase.row;
    var done := reaches && row.jobID in s.cluster && answered;
    RemovalEnds(w, s, reaches, answered);
    hide Managed;
    hide DeregisterTalk;
    hide StepDeregister;
    DeregisterTalks(w.cfg, row, info, done);
    assert [InfoCall(row.jobID, info)] + [DeregisterCall(row.jobID, w.cfg.deregisterPurge, done)]
           == [InfoCall(row.jobID, info), DeregisterCall(row.jobID, w.cfg.deregisterPurge, done)];
  }

  lemma RemovalEnds(w: World, s: State, reaches: bool, answered: bool)
    requires s.phase.Confirmed?
    ensures StepDeregister(w, s, reaches, answered).phase
            == if reaches && s.phase.row.jobID in s.cluster && answered then Ending(s.phase.row, Succeeded, 0, "")
               else Ending(s.phase.row, Failed, 0, "deregister")
  {
    hide NextReg;
  }

  lemma RevertAgrees(w: World, s: State, reaches: bool, answered: bool, spec: Job, status: string)
    requires s.phase.Gated? && s.phase.row.operation.Revert?
    ensures var row := s.phase.row;
            var lands := reaches && row.jobID in s.cluster && s.cluster[row.jobID].reg.version == row.revertFrom;
            EnabledApp(s, CallRevert(reaches, answered, spec, status))
            && EndsAs(w, StepRevert(s, reaches, answered, spec, status), row, false,
                   [RevertCall(row.jobID, row.revertTo, row.revertFrom, if lands && answered then Some(s.raft + 1) else None)])
  {
  }

  /** The protocol sees a failure of a job that is there exactly when the poll, given the same answers, queues a
      rollback of it, and it asks for the same update. */
  lemma PollAgrees(w: World, s: State, at: nat, entry: Entry, failed: nat, versions: seq<Option<Rollbacks.JobVersion>>)
    requires HasCycle(s.log, at) && Orphans.EntryOf(w.cfg, w.glob, s.log[at].files, entry) && entry.job.id in s.cluster
    ensures var answers := FlapGuards.JobAnswers(Some(Some(FlapGuards.Deployment(true, failed))),
                                                 Some(s.cluster[entry.job.id].reg.spec), Some(versions));
            var r := FlapGuards.RollbackOf(w.cfg, MetaOf(entry.job), Blocked(w, s.view, entry.job.id, s.now), answers);
            (EnabledDet(w, s, SeeFailure(at, entry, failed, versions)) <==> r.Some?)
            && (r.Some? ==>
                  var t := StepDet(w, s, SeeFailure(at, entry, failed, versions));
                  |t.log| > 0 && HasFailure(t.log, |t.log| - 1)
                  && RevertRow(t, |t.log| - 1) == FlapGuards.RollbackRow(entry.job.id, r.value, t.raft, t.now))
  {
    hide EffectiveRollback;
    hide Blocked;
    hide JobHasAutoRevert;
    hide Orphans.EntryOf;
  }
}
