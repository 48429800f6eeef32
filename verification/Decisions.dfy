/** What the engine decides about one job: which drift it finds, and whether it may act on it. */
module Decisions {
  import opened Wrappers
  import opened Text
  import opened Jobs
  import opened PlanDiffs
  import opened Classifier
  import opened Updates

  datatype FlapMode = HistoryMode | TagMode | GuardOff

  // Prior repository state. `parent` is the file at the first parent of a commit, `opted` says
  // whether a text carries the opt-in key, `policyText` finds a policy value in it.
  datatype History =
    | NoHistory
    | History(parent: (string, string) -> Option<string>, opted: string -> bool, policyText: string -> Option<string>)

  // An empty prefix disables everything that is read from job meta.
  datatype Config = Config(metaPrefix: string, defaultPolicy: UpdatePolicy, enableJobCreation: bool,
                           applyMetaOnlyChanges: bool, applyExistingDrift: bool,
                           enableDeregister: bool, deregisterPurge: bool, includeDeadJobs: bool,
                           flapGuard: FlapMode, allowRollback: bool, history: History)

  // ---- Settings of one job ----

  function ParsePolicy(text: string): Option<UpdatePolicy> {
    if text == "full" then Some(Full)
    else if text == "image-only" then Some(ImageOnly)
    else if text == "none" then Some(NoUpdates)
    else None
  }

  function ParseFlapMode(text: string): Option<FlapMode> {
    if text == "history" then Some(HistoryMode)
    else if text == "tag" then Some(TagMode)
    else if text == "off" then Some(GuardOff)
    else None
  }

  /** The value of one of the engine's own meta keys. */
  function OwnKey(cfg: Config, meta: map<string, string>, key: string): Option<string> {
    if cfg.metaPrefix != "" && cfg.metaPrefix + key in meta then Some(meta[cfg.metaPrefix + key]) else None
  }

  /** A value that is present decides; one that is not a policy means no updates at all. */
  function PolicyFrom(cfg: Config, text: Option<string>): UpdatePolicy {
    match text
    case None => cfg.defaultPolicy
    case Some(v) => ParsePolicy(v).GetOr(NoUpdates)
  }

  function EffectivePolicy(cfg: Config, meta: map<string, string>): UpdatePolicy {
    PolicyFrom(cfg, OwnKey(cfg, meta, "_update_policy"))
  }

  /** Here an invalid value falls back to the default. */
  function EffectiveFlapGuard(cfg: Config, meta: map<string, string>): FlapMode {
    match OwnKey(cfg, meta, "_flap_guard")
    case None => cfg.flapGuard
    case Some(v) => ParseFlapMode(v).GetOr(cfg.flapGuard)
  }

  predicate EffectiveRollback(cfg: Config, meta: map<string, string>) {
    match OwnKey(cfg, meta, "_rollback")
    case None => cfg.allowRollback
    case Some(v) => if v == "true" || v == "false" then v == "true" else cfg.allowRollback
  }

  predicate Managed(cfg: Config, meta: map<string, string>) {
    OwnKey(cfg, meta, "_managed") == Some("true")
  }

  // ---- What Nomad knows about a job ----

  // The registered definition. Its index changes with every registration of the job.
  datatype Registration = Registration(modifyIndex: nat, version: nat, spec: Job)

  datatype Info = NotFound | Found(reg: Registration, status: string)

  // A plan of the engine's definition against what is registered.
  datatype PlanResult = PlanError | Planned(diff: Option<JobDiff<Field>>)

  // ---- Detection ----

  datatype Entry = Entry(job: Job, file: string, globSel: bool)

  datatype Candidate = Candidate(jobID: string, file: string, job: Job, modifyIndex: nat,
                                 change: DiffClass, creation: bool, globSel: bool)

  /** A dead job counts as missing unless dead jobs are included. */
  predicate TreatedAsMissing(cfg: Config, info: Info) {
    info.NotFound? || (!cfg.includeDeadJobs && info.status == "dead")
  }

  /** The definition that is planned and, if it comes to that, registered: a stopped job stays stopped. */
  function JobToApply(job: Job, info: Info): Job {
    if info.Found? && info.reg.spec.stop then job.(stop := true) else job
  }

  /** What is detected about a job of the repository: nothing, or a candidate. The plan is not asked
      for when the job counts as missing. */
  function CheckEntry(cfg: Config, e: Entry, info: Info, plan: PlanResult): Option<Candidate> {
    if info.NotFound? then
      Some(Candidate(e.job.id, e.file, e.job, 0, OtherChange, true, e.globSel))
    else if TreatedAsMissing(cfg, info) then
      Some(Candidate(e.job.id, e.file, e.job, info.reg.modifyIndex, OtherChange, true, e.globSel))
    else if plan.PlanError? || NoDiff(plan.diff) then None
    else if info.status == "dead" && !HasContentDiff(plan.diff) then None
    else
      Some(Candidate(e.job.id, e.file, JobToApply(e.job, info), info.reg.modifyIndex,
                     Classify(plan.diff, AutoscaledGroups(e.job), cfg.metaPrefix), false, e.globSel))
  }

  // ---- Policy ----

  predicate PolicyPermits(policy: UpdatePolicy, change: DiffClass) {
    match policy
    case Full => true
    case ImageOnly => change == ImageChange
    case NoUpdates => false
  }

  /** Drift that was there before the commit widened what the engine may do with the job. */
  predicate IsPreExistingDrift(cfg: Config, c: Candidate, commit: string) {
    !c.creation && !c.globSel && cfg.history.History? && cfg.metaPrefix != "" && c.file != ""
    && cfg.history.parent(commit, c.file).Some?
    && (var parent := cfg.history.parent(commit, c.file).value;
        if !cfg.history.opted(parent) then true
        else if c.change == ManagedMetaOnly then false
        else !PolicyPermits(PolicyFrom(cfg, cfg.history.policyText(parent)), c.change)
             && PolicyPermits(EffectivePolicy(cfg, MetaOf(c.job)), c.change))
  }

  datatype ApplyAction =
    | Queued | PolicyBlocked | PreExisting | CreationBlocked | MetaOnly | NothingToDo | KnownFailed | Frozen
    | ObservationOnly | DeregisterQueued | DeregisterGrace

  /** The gates before the freeze, in order: the first that holds is the reason reported. */
  function EarlyGates(cfg: Config, c: Candidate, commit: string): Option<ApplyAction> {
    if c.change == NoChange && !c.creation then Some(NothingToDo)
    else if !c.creation && IsPreExistingDrift(cfg, c, commit) && !cfg.applyExistingDrift then Some(PreExisting)
    else if c.change == ManagedMetaOnly && !c.creation && !cfg.applyMetaOnlyChanges then Some(MetaOnly)
    else
      var policy := EffectivePolicy(cfg, MetaOf(c.job));
      if policy.NoUpdates? then Some(PolicyBlocked)
      else if policy.ImageOnly? && (c.creation || c.change != ImageChange) then Some(PolicyBlocked)
      else if c.creation && !cfg.enableJobCreation then Some(CreationBlocked)
      else None
  }

  /** The flap guard, which may tag versions in Nomad, is asked only at the very end. */
  predicate ConsultsFlapGuard(cfg: Config, c: Candidate, commit: string, frozen: bool) {
    EarlyGates(cfg, c, commit).None? && !frozen && !c.creation && !EffectiveFlapGuard(cfg, MetaOf(c.job)).GuardOff?
  }

  function DecideApply(cfg: Config, c: Candidate, commit: string, frozen: bool, knownFailed: bool): ApplyAction {
    match EarlyGates(cfg, c, commit)
    case Some(reason) => reason
    case None =>
      if frozen then Frozen
      else if ConsultsFlapGuard(cfg, c, commit, frozen) && knownFailed then KnownFailed
      else Queued
  }

  function DecideDeregister(cfg: Config, meta: map<string, string>, frozen: bool, graceElapsed: bool): ApplyAction {
    if !cfg.enableDeregister then ObservationOnly
    else if !EffectivePolicy(cfg, meta).Full? then PolicyBlocked
    else if frozen then Frozen
    else if !graceElapsed then DeregisterGrace
    else DeregisterQueued
  }

  // ---- What being queued means ----

  /** A change its job's policy lets the engine make: anything under "full", under "image-only" a
      change confined to images of a job that is there. */
  predicate MayApply(policy: UpdatePolicy, change: DiffClass, creation: bool) {
    PolicyPermits(policy, change) && (creation ==> policy.Full?)
  }

  // ---- Settings by the text of a job's meta keys ----

  /** The text of one of the engine's own keys in a job's meta. */
  ghost predicate KeyIs(cfg: Config, meta: map<string, string>, key: string, text: string) {
    cfg.metaPrefix != "" && cfg.metaPrefix + key in meta && meta[cfg.metaPrefix + key] == text
  }

  ghost predicate KeyMissing(cfg: Config, meta: map<string, string>, key: string) {
    cfg.metaPrefix == "" || cfg.metaPrefix + key !in meta
  }

  /** A change the job may undergo: any under "full", under "image-only" one confined to images of a job
      that is there. Without the key the default says which of the two applies, if any. */
  ghost predicate Permitted(cfg: Config, job: Job, change: DiffClass, creation: bool) {
    var meta := MetaOf(job);
    KeyIs(cfg, meta, "_update_policy", "full") || (KeyMissing(cfg, meta, "_update_policy") && cfg.defaultPolicy.Full?)
    || ((KeyIs(cfg, meta, "_update_policy", "image-only") || (KeyMissing(cfg, meta, "_update_policy") && cfg.defaultPolicy.ImageOnly?))
        && change.ImageChange? && !creation)
  }

  /** The flap guard is on: by the job's key if that names a mode, by the default if not. */
  ghost predicate Guarded(cfg: Config, job: Job) {
    var meta := MetaOf(job);
    KeyIs(cfg, meta, "_flap_guard", "history") || KeyIs(cfg, meta, "_flap_guard", "tag")
    || (!KeyIs(cfg, meta, "_flap_guard", "off") && !cfg.flapGuard.GuardOff?)
  }

  /** Rollback is wanted: by the job's key if that says yes or no, by the default if not. */
  ghost predicate WantsRollback(cfg: Config, meta: map<string, string>) {
    KeyIs(cfg, meta, "_rollback", "true") || (!KeyIs(cfg, meta, "_rollback", "false") && cfg.allowRollback)
  }

  /** The policy is full, by the job's key or by default without one. */
  ghost predicate FullByMeta(cfg: Config, meta: map<string, string>) {
    KeyIs(cfg, meta, "_update_policy", "full") || (KeyMissing(cfg, meta, "_update_policy") && cfg.defaultPolicy.Full?)
  }

  lemma FullExactly(cfg: Config, meta: map<string, string>)
    ensures EffectivePolicy(cfg, meta).Full? <==> FullByMeta(cfg, meta)
  {
  }

  /** The opt-in tag. */
  lemma ManagedExactly(cfg: Config, meta: map<string, string>)
    ensures Managed(cfg, meta) <==> KeyIs(cfg, meta, "_managed", "true")
  {
  }

  lemma PermittedExactly(cfg: Config, job: Job, change: DiffClass, creation: bool)
    ensures MayApply(EffectivePolicy(cfg, MetaOf(job)), change, creation) <==> Permitted(cfg, job, change, creation)
  {
  }

  lemma GuardedExactly(cfg: Config, job: Job)
    ensures !EffectiveFlapGuard(cfg, MetaOf(job)).GuardOff? <==> Guarded(cfg, job)
    ensures EffectiveFlapGuard(cfg, MetaOf(job)).TagMode?
            <==> KeyIs(cfg, MetaOf(job), "_flap_guard", "tag")
                 || (Guarded(cfg, job) && !KeyIs(cfg, MetaOf(job), "_flap_guard", "history") && cfg.flapGuard.TagMode?)
  {
  }

  lemma WantsRollbackExactly(cfg: Config, meta: map<string, string>)
    ensures EffectiveRollback(cfg, meta) <==> WantsRollback(cfg, meta)
  {
  }

  /** What the parent version of a file let the engine make of the change, by the text of its key. */
  ghost predicate PermittedBefore(cfg: Config, parent: string, change: DiffClass)
    requires cfg.history.History?
  {
    var text := cfg.history.policyText(parent);
    text == Some("full") || (text.None? && cfg.defaultPolicy.Full?)
    || ((text == Some("image-only") || (text.None? && cfg.defaultPolicy.ImageOnly?)) && change.ImageChange?)
  }

  /** The drift is older than what the commit allows: the parent version of the job's own file lacked the
      opt-in, or its policy did not permit the change that the policy of now permits. */
  ghost predicate OlderThanScope(cfg: Config, c: Candidate, commit: string) {
    !c.creation && !c.globSel && c.file != "" && cfg.metaPrefix != "" && cfg.history.History?
    && exists parent :: cfg.history.parent(commit, c.file) == Some(parent)
         && (!cfg.history.opted(parent)
             || (!c.change.ManagedMetaOnly? && !PermittedBefore(cfg, parent, c.change) && Permitted(cfg, c.job, c.change, false)))
  }

  lemma OlderExactly(cfg: Config, c: Candidate, commit: string)
    ensures IsPreExistingDrift(cfg, c, commit) <==> OlderThanScope(cfg, c, commit)
  {
    PermittedExactly(cfg, c.job, c.change, false);
    hide Permitted;
    hide EffectivePolicy;
    if cfg.history.History? && cfg.history.parent(commit, c.file).Some? {
      var parent := cfg.history.parent(commit, c.file).value;
      assert cfg.history.parent(commit, c.file) == Some(parent);
      assert PolicyPermits(PolicyFrom(cfg, cfg.history.policyText(parent)), c.change) <==> PermittedBefore(cfg, parent, c.change);
    }
  }

  /** The reason reported is the first gate that holds, in this order; an update is queued exactly when none
      does. */
  lemma ReasonExactly(cfg: Config, c: Candidate, commit: string, frozen: bool, knownFailed: bool)
    requires c.creation ==> c.change.OtherChange?
    ensures DecideApply(cfg, c, commit, frozen, knownFailed)
            == if c.change.NoChange? then NothingToDo
               else if OlderThanScope(cfg, c, commit) && !cfg.applyExistingDrift then PreExisting
               else if c.change.ManagedMetaOnly? && !cfg.applyMetaOnlyChanges then MetaOnly
               else if !Permitted(cfg, c.job, c.change, c.creation) then PolicyBlocked
               else if c.creation && !cfg.enableJobCreation then CreationBlocked
               else if frozen then Frozen
               else if !c.creation && Guarded(cfg, c.job) && knownFailed then KnownFailed
               else Queued
  {
    OlderExactly(cfg, c, commit);
    PermittedExactly(cfg, c.job, c.change, c.creation);
    GuardedExactly(cfg, c.job);
    assert c.creation ==> !OlderThanScope(cfg, c, commit);
    hide OlderThanScope;
    hide Permitted;
    hide Guarded;
    hide EffectivePolicy;
    hide EffectiveFlapGuard;
    hide IsPreExistingDrift;
  }

  /** An update is queued exactly when every gate lets it pass, whatever order they are asked in:
      there is something to do, the job's policy permits it, the drift is not older than the scope, the
      job is not frozen and its definition is not known to fail. */
  lemma QueuedExactly(cfg: Config, c: Candidate, commit: string, frozen: bool, knownFailed: bool)
    requires c.creation ==> c.change.OtherChange?
    ensures DecideApply(cfg, c, commit, frozen, knownFailed).Queued?
            <==> !c.change.NoChange?
                 && Permitted(cfg, c.job, c.change, c.creation)
                 && (c.creation ==> cfg.enableJobCreation)
                 && (c.change.ManagedMetaOnly? ==> cfg.applyMetaOnlyChanges)
                 && (OlderThanScope(cfg, c, commit) ==> cfg.applyExistingDrift)
                 && !frozen
                 && (!c.creation && Guarded(cfg, c.job) ==> !knownFailed)
  {
    ReasonExactly(cfg, c, commit, frozen, knownFailed);
    hide DecideApply;
    hide OlderThanScope;
    hide Permitted;
    hide Guarded;
  }

  /** The flap guard is asked, and may tag versions on the way, exactly about updates of jobs that are there which
      would otherwise be queued. */
  lemma AskedExactly(cfg: Config, c: Candidate, commit: string, frozen: bool)
    requires c.creation ==> c.change.OtherChange?
    ensures ConsultsFlapGuard(cfg, c, commit, frozen)
            <==> DecideApply(cfg, c, commit, frozen, false).Queued? && !c.creation && Guarded(cfg, c.job)
  {
    GuardedExactly(cfg, c.job);
    hide Guarded;
    hide IsPreExistingDrift;
    hide EffectivePolicy;
    hide EffectiveFlapGuard;
  }

  /** A removal is decided exactly for a job whose policy is full, by its key or by default, with
      deregistration on, no freeze, and the grace period over. */
  lemma RemovalExactly(cfg: Config, meta: map<string, string>, frozen: bool, graceElapsed: bool)
    ensures DecideDeregister(cfg, meta, frozen, graceElapsed).DeregisterQueued?
            <==> cfg.enableDeregister && !frozen && graceElapsed && FullByMeta(cfg, meta)
  {
  }

  /** A job tagged "image-only" is held to images, whatever the default, and is never deregistered; one
      tagged "none" is never touched. */
  lemma TagsHold(cfg: Config, c: Candidate, commit: string, frozen: bool, knownFailed: bool, graceElapsed: bool)
    requires c.creation ==> c.change.OtherChange?
    requires c.job.meta.Some?
    ensures KeyIs(cfg, c.job.meta.value, "_update_policy", "image-only") ==>
              (DecideApply(cfg, c, commit, frozen, knownFailed).Queued? ==> c.change.ImageChange? && !c.creation)
              && !DecideDeregister(cfg, c.job.meta.value, frozen, graceElapsed).DeregisterQueued?
    ensures KeyIs(cfg, c.job.meta.value, "_update_policy", "none") ==>
              !DecideApply(cfg, c, commit, frozen, knownFailed).Queued?
              && !DecideDeregister(cfg, c.job.meta.value, frozen, graceElapsed).DeregisterQueued?
  {
    QueuedExactly(cfg, c, commit, frozen, knownFailed);
    RemovalExactly(cfg, c.job.meta.value, frozen, graceElapsed);
    hide DecideApply;
    hide DecideDeregister;
    hide Guarded;
    hide OlderThanScope;
  }

  /** The freeze is the reported reason only when it is the actual one: frozen, a job is reported so
      exactly if unfrozen its update would have been queued or put to the flap guard. */
  lemma FrozenIsTheActualReason(cfg: Config, c: Candidate, commit: string, knownFailed: bool)
    ensures DecideApply(cfg, c, commit, true, knownFailed).Frozen? <==> DecideApply(cfg, c, commit, false, false).Queued?
    ensures DecideApply(cfg, c, commit, false, true).KnownFailed?
            <==> DecideApply(cfg, c, commit, false, false).Queued? && ConsultsFlapGuard(cfg, c, commit, false)
  {
  }

  /** What detection makes of a creation. */
  lemma CreationIsOther(cfg: Config, e: Entry, info: Info, plan: PlanResult)
    requires CheckEntry(cfg, e, info, plan).Some?
    ensures var c := CheckEntry(cfg, e, info, plan).value;
            (c.creation <==> TreatedAsMissing(cfg, info))
            && (c.creation ==> c.change.OtherChange? && c.job == e.job)
            && c.modifyIndex == if info.Found? then info.reg.modifyIndex else 0
  {
  }

  /** Drift is reported exactly for a job that counts as missing and for one whose plan shows a change,
      which for a dead job must be more than allocation bookkeeping. Errors report nothing. */
  lemma DriftDetectedExactly(cfg: Config, e: Entry, info: Info, plan: PlanResult)
    ensures CheckEntry(cfg, e, info, plan).Some?
            <==> TreatedAsMissing(cfg, info)
                 || (plan.Planned? && !NoDiff(plan.diff) && (info.status == "dead" ==> HasContentDiff(plan.diff)))
    ensures CheckEntry(cfg, e, info, plan).Some? && !TreatedAsMissing(cfg, info) ==>
              CheckEntry(cfg, e, info, plan).value.change == Classify(plan.diff, AutoscaledGroups(e.job), cfg.metaPrefix)
              && (CheckEntry(cfg, e, info, plan).value.job.stop <==> e.job.stop || info.reg.spec.stop)
  {
    hide Classify;
    hide HasContentDiff;
  }

  /** Under policy "none" nothing is ever queued, and the flap guard is not even asked. */
  lemma NoUpdatesQueuesNothing(cfg: Config, c: Candidate, commit: string, frozen: bool, knownFailed: bool)
    requires EffectivePolicy(cfg, MetaOf(c.job)).NoUpdates?
    ensures !DecideApply(cfg, c, commit, frozen, knownFailed).Queued?
    ensures !ConsultsFlapGuard(cfg, c, commit, frozen)
  {
  }

  /** The pre-existing-drift gate looks at one parent only. The drift it holds back at the commit that
      opts a job in is let through at the next commit, when nothing about the job has changed: it is
      held at exactly the first of two such commits. */
  lemma GateHoldsOneCommitOnly(cfg: Config, c: Candidate, optIn: string, next: string)
    requires !c.creation && !c.globSel && cfg.history.History? && cfg.metaPrefix != "" && c.file != ""
    requires !c.change.NoChange? && !c.change.ManagedMetaOnly? && !cfg.applyExistingDrift
    requires PolicyPermits(EffectivePolicy(cfg, MetaOf(c.job)), c.change)
    requires cfg.history.parent(optIn, c.file).Some? && !cfg.history.opted(cfg.history.parent(optIn, c.file).value)
    requires cfg.history.parent(next, c.file).Some? && cfg.history.opted(cfg.history.parent(next, c.file).value)
    requires PolicyFrom(cfg, cfg.history.policyText(cfg.history.parent(next, c.file).value)) == EffectivePolicy(cfg, MetaOf(c.job))
    ensures DecideApply(cfg, c, optIn, false, false).PreExisting?
    ensures DecideApply(cfg, c, next, false, false).Queued?
  {
    assert IsPreExistingDrift(cfg, c, optIn);
    assert !IsPreExistingDrift(cfg, c, next);
  }

  /** The job without one of its meta keys. */
  function Without(job: Job, key: string): Job {
    job.(meta := Some(MetaOf(job) - {key}))
  }

  /** The default policy stands in for the key in the parent version too, and would not have applied the
      change that "full" applies now. */
  ghost predicate HeldByParentDefault(cfg: Config, c: Candidate, commit: string) {
    !c.creation && !c.globSel && cfg.history.History? && cfg.metaPrefix != "" && c.file != ""
    && cfg.history.parent(commit, c.file).Some?
    && (var parent := cfg.history.parent(commit, c.file).value;
        cfg.history.opted(parent) && cfg.history.policyText(parent).None?)
    && c.change != NoChange && c.change != ManagedMetaOnly && !cfg.applyExistingDrift
    && (cfg.defaultPolicy.NoUpdates? || (cfg.defaultPolicy.ImageOnly? && !c.change.ImageChange?))
  }

  /** A job tagged "full" is decided like one without the key where the default is full, except exactly when
      the default also speaks for the parent version and held the change back there. */
  lemma TaggedFull(cfg: Config, c: Candidate, commit: string, frozen: bool, knownFailed: bool)
    requires KeyIs(cfg, MetaOf(c.job), "_update_policy", "full")
    ensures var without := c.(job := Without(c.job, cfg.metaPrefix + "_update_policy"));
            DecideApply(cfg, c, commit, frozen, knownFailed)
            == DecideApply(cfg.(defaultPolicy := Full), without, commit, frozen, knownFailed)
            <==> !HeldByParentDefault(cfg, c, commit)
    ensures forall graceElapsed ::
              DecideDeregister(cfg, MetaOf(c.job), frozen, graceElapsed)
              == DecideDeregister(cfg.(defaultPolicy := Full), MetaOf(Without(c.job, cfg.metaPrefix + "_update_policy")),
                                  frozen, graceElapsed)
  {
    assert |cfg.metaPrefix + "_flap_guard"| != |cfg.metaPrefix + "_update_policy"|;
  }

  /** A policy that is misspelt stops the job, whatever the default: no update of it is queued, the flap
      guard is not asked, and it is not deregistered. */
  lemma InvalidPolicyStops(cfg: Config, c: Candidate, commit: string, frozen: bool, knownFailed: bool, graceElapsed: bool)
    requires var key := cfg.metaPrefix + "_update_policy";
             cfg.metaPrefix != "" && key in MetaOf(c.job) && MetaOf(c.job)[key] !in {"full", "image-only", "none"}
    ensures !DecideApply(cfg, c, commit, frozen, knownFailed).Queued? && !ConsultsFlapGuard(cfg, c, commit, frozen)
    ensures !DecideDeregister(cfg, MetaOf(c.job), frozen, graceElapsed).DeregisterQueued?
  {
    assert EffectivePolicy(cfg, MetaOf(c.job)).NoUpdates?;
    NoUpdatesQueuesNothing(cfg, c, commit, frozen, knownFailed);
  }

  /** Unlike that, a misspelt guard mode or rollback value changes nothing: what is decided about the job is
      what would be decided without the key. */
  lemma InvalidOverrideIsIgnored(cfg: Config, c: Candidate, commit: string, frozen: bool, knownFailed: bool)
    ensures var key, without := cfg.metaPrefix + "_flap_guard", c.(job := Without(c.job, cfg.metaPrefix + "_flap_guard"));
            key in MetaOf(c.job) && MetaOf(c.job)[key] !in {"history", "tag", "off"} ==>
              DecideApply(cfg, c, commit, frozen, knownFailed) == DecideApply(cfg, without, commit, frozen, knownFailed)
              && (ConsultsFlapGuard(cfg, c, commit, frozen) <==> ConsultsFlapGuard(cfg, without, commit, frozen))
    ensures var key := cfg.metaPrefix + "_rollback";
            key in MetaOf(c.job) && MetaOf(c.job)[key] !in {"true", "false"} ==>
              (EffectiveRollback(cfg, MetaOf(c.job)) <==> EffectiveRollback(cfg, MetaOf(Without(c.job, key))))
  {
    var guard := cfg.metaPrefix + "_flap_guard";
    assert |guard| != |cfg.metaPrefix + "_update_policy"|;
    assert EffectivePolicy(cfg, MetaOf(c.job)) == EffectivePolicy(cfg, MetaOf(Without(c.job, guard)));
    hide EffectivePolicy;
  }
}
