/** The applier: drains the queue, one row after the other, against a Nomad that may refuse, fail or
    answer anything. */
module Appliers {
  import opened Wrappers
  import opened Jobs
  import opened PlanDiffs
  import opened Classifier
  import opened Updates
  import opened Decisions
  import opened Freezes
  import opened UpdateQueues
  import opened FreezeViews
  import opened SkipStates
  import GraceClock
  import Protocol
  import ProtocolSafety

  datatype InfoAnswer = InfoFailed | Gone | NoJob | LiveJob(meta: map<string, string>)

  // A request to Nomad with its answer; None stands for an error.
  datatype Call =
    | PlanCall(planned: Job, plan: PlanResult)
    | RegisterCall(job: Job, enforced: nat, preserveCounts: bool, registered: Option<nat>)
    | InfoCall(asked: string, info: InfoAnswer)
    | DeregisterCall(removed: string, purge: bool, done: bool)
    | RevertCall(jobID: string, version: nat, priorVersion: nat, reverted: Option<nat>)

  /** Nomad's answers are arbitrary; every request and its answer is recorded. */
  class NomadClient {
    var calls: seq<Call>

    constructor ()
      ensures calls == []
    {
      calls := [];
    }

    method Plan(job: Job) returns (answer: PlanResult)
      modifies this
      ensures calls == old(calls) + [PlanCall(job, answer)]
    {
      answer := *;
      calls := calls + [PlanCall(job, answer)];
    }

    method Register(job: Job, enforced: nat, preserveCounts: bool) returns (answer: Option<nat>)
      modifies this
      ensures calls == old(calls) + [RegisterCall(job, enforced, preserveCounts, answer)]
    {
      answer := *;
      calls := calls + [RegisterCall(job, enforced, preserveCounts, answer)];
    }

    method Info(jobID: string) returns (answer: InfoAnswer)
      modifies this
      ensures calls == old(calls) + [InfoCall(jobID, answer)]
    {
      answer := *;
      calls := calls + [InfoCall(jobID, answer)];
    }

    method Deregister(jobID: string, purge: bool) returns (answer: bool)
      modifies this
      ensures calls == old(calls) + [DeregisterCall(jobID, purge, answer)]
    {
      answer := *;
      calls := calls + [DeregisterCall(jobID, purge, answer)];
    }

    method Revert(jobID: string, version: nat, priorVersion: nat) returns (answer: Option<nat>)
      modifies this
      ensures calls == old(calls) + [RevertCall(jobID, version, priorVersion, answer)]
    {
      answer := *;
      calls := calls + [RevertCall(jobID, version, priorVersion, answer)];
    }
  }

  // ---- What one apply may say to Nomad, and how it ends ----

  // `invalidates` says whether the next check is forced to run in full.
  datatype Verdict = Verdict(status: Status, index: nat, error: string, invalidates: bool)

  function Fail(error: string): Verdict {
    Verdict(Status.Failed, 0, error, true)
  }

  function Success(index: nat): Verdict {
    Verdict(Succeeded, index, "", false)
  }

  function RegisterTalk(cfg: Config, row: Row, talk: seq<Call>): Option<Verdict> {
    if row.job.None? then
      if talk == [] then Some(Verdict(Status.Failed, 0, "internal error: update has no parsed job", false)) else None
    else if talk == [] || !talk[0].PlanCall? || talk[0].planned != row.job.value then None
    else if talk[0].plan.PlanError? then
      if |talk| == 1 then Some(Fail("plan")) else None
    else if Classify(talk[0].plan.diff, AutoscaledGroups(row.job.value), cfg.metaPrefix).NoChange? then
      if |talk| == 1 then Some(Success(0)) else None
    else if |talk| != 2 || !talk[1].RegisterCall? then None
    else if talk[1] != RegisterCall(row.job.value, row.modifyIndex, row.preserveCounts, talk[1].registered) then None
    else if talk[1].registered.None? then Some(Fail("register"))
    else Some(Success(talk[1].registered.value))
  }

  function DeregisterTalk(cfg: Config, row: Row, talk: seq<Call>): Option<Verdict> {
    if talk == [] || !talk[0].InfoCall? || talk[0].asked != row.jobID then None
    else if talk[0].info.Gone? then
      if |talk| == 1 then Some(Success(0)) else None
    else if talk[0].info.InfoFailed? then
      if |talk| == 1 then Some(Fail("recheck")) else None
    else if talk[0].info.NoJob? || !Managed(cfg, talk[0].info.meta) then
      if |talk| == 1 then Some(Fail("live job no longer carries the managed tag")) else None
    else if |talk| != 2 || !talk[1].DeregisterCall? then None
    else if talk[1] != DeregisterCall(row.jobID, cfg.deregisterPurge, talk[1].done) then None
    else if talk[1].done then Some(Success(0))
    else Some(Fail("deregister"))
  }

  function RevertTalk(row: Row, talk: seq<Call>): Option<Verdict> {
    if |talk| != 1 || !talk[0].RevertCall? then None
    else if talk[0] != RevertCall(row.jobID, row.revertTo, row.revertFrom, talk[0].reverted) then None
    else if talk[0].reverted.None? then Some(Fail("revert"))
    else Some(Success(talk[0].reverted.value))
  }

  /** How an apply that says `talk` to Nomad ends; None when no apply of the row says that. */
  function VerdictOf(cfg: Config, row: Row, blocked: bool, talk: seq<Call>): Option<Verdict> {
    if blocked then
      if talk == [] then Some(Verdict(Held, 0, "frozen", false)) else None
    else
      match row.operation
      case Deregister => DeregisterTalk(cfg, row, talk)
      case Revert => RevertTalk(row, talk)
      case Register => RegisterTalk(cfg, row, talk)
      case Unsupported(_) =>
        if talk == [] then Some(Verdict(Status.Failed, 0, "unsupported operation", false)) else None
  }

  /** The conversations of a removal, case by case. */
  lemma DeregisterTalks(cfg: Config, row: Row, info: InfoAnswer, done: bool)
    ensures var ask, call := InfoCall(row.jobID, info), DeregisterCall(row.jobID, cfg.deregisterPurge, done);
            (info.Gone? ==> DeregisterTalk(cfg, row, [ask]) == Some(Success(0)))
            && (info.InfoFailed? ==> DeregisterTalk(cfg, row, [ask]) == Some(Fail("recheck")))
            && (Untagged(cfg, ask) ==> DeregisterTalk(cfg, row, [ask]) == Some(Fail("live job no longer carries the managed tag")))
            && (info.LiveJob? && Managed(cfg, info.meta) ==>
                  DeregisterTalk(cfg, row, [ask] + [call]) == Some(if done then Success(0) else Fail("deregister")))
  {
  }

  lemma RegisterTalks(cfg: Config, row: Row, plan: PlanResult, registered: Option<nat>)
    requires row.job.Some?
    ensures var ask := PlanCall(row.job.value, plan);
            var call := RegisterCall(row.job.value, row.modifyIndex, row.preserveCounts, registered);
            (plan.PlanError? ==> RegisterTalk(cfg, row, [ask]) == Some(Fail("plan")))
            && (plan.Planned? ==>
                  if NothingToRegister(cfg, row, plan) then RegisterTalk(cfg, row, [ask]) == Some(Success(0))
                  else RegisterTalk(cfg, row, [ask] + [call])
                       == Some(if registered.None? then Fail("register") else Success(registered.value)))
  {
  }

  predicate NothingToRegister(cfg: Config, row: Row, plan: PlanResult)
    requires row.job.Some? && plan.Planned?
  {
    Classify(plan.diff, AutoscaledGroups(row.job.value), cfg.metaPrefix).NoChange?
  }

  lemma NoJobTalk(cfg: Config, row: Row)
    requires row.job.None?
    ensures RegisterTalk(cfg, row, []) == Some(Verdict(Status.Failed, 0, "internal error: update has no parsed job", false))
  {
  }

  lemma NothingMeans(cfg: Config, row: Row, plan: PlanResult)
    requires row.job.Some? && plan.Planned?
    ensures NothingToRegister(cfg, row, plan)
            <==> Classify(plan.diff, AutoscaledGroups(row.job.value), cfg.metaPrefix) == NoChange
  {
  }

  lemma UntaggedMeans(cfg: Config, jobID: string, info: InfoAnswer)
    ensures Untagged(cfg, InfoCall(jobID, info)) <==> info.NoJob? || (info.LiveJob? && !Managed(cfg, info.meta))
  {
  }

  ghost predicate WriteCall(c: Call) {
    c.RegisterCall? || c.DeregisterCall? || c.RevertCall?
  }

  /** The call went wrong. */
  predicate Refused(c: Call) {
    match c
    case PlanCall(_, plan) => plan.PlanError?
    case RegisterCall(_, _, _, registered) => registered.None?
    case InfoCall(_, info) => info.InfoFailed?
    case DeregisterCall(_, _, done) => !done
    case RevertCall(_, _, _, reverted) => reverted.None?
  }

  /** A recheck that found nothing to deregister: no job object, or one without the tag. */
  predicate Untagged(cfg: Config, c: Call) {
    c.InfoCall? && (c.info.NoJob? || (c.info.LiveJob? && !Managed(cfg, c.info.meta)))
  }

  /** The next check is forced to run in full exactly when a call went wrong or the recheck found the
      tag gone. Not when the row was held by a freeze: a thaw by itself leads to no apply. */
  lemma InvalidatesExactly(cfg: Config, row: Row, blocked: bool, talk: seq<Call>)
    requires VerdictOf(cfg, row, blocked, talk).Some?
    ensures var v := VerdictOf(cfg, row, blocked, talk).value;
            (v.invalidates <==> exists c :: c in talk && (Refused(c) || Untagged(cfg, c)))
            && (v.invalidates ==> v.status.Failed?)
            && (v.status.Held? <==> blocked) && (blocked ==> talk == [])
            && v.status.Terminal()
  {
    if talk != [] {
      assert talk[0] in talk;
      if |talk| > 1 {
        assert talk[1] in talk && talk == [talk[0], talk[1]];
      }
    }
  }

  /** How the apply ends told by the calls alone: held exactly if blocked, else failed exactly if a call went
      wrong, the recheck found the tag gone or nothing was there to say, and with an index exactly if a
      registration or a revert was answered with one. */
  lemma VerdictExactly(cfg: Config, row: Row, blocked: bool, talk: seq<Call>)
    requires VerdictOf(cfg, row, blocked, talk).Some?
    ensures var v := VerdictOf(cfg, row, blocked, talk).value;
            v.status == (if blocked then Held
                         else if talk == [] || exists c :: c in talk && (Refused(c) || Untagged(cfg, c)) then Status.Failed
                         else Succeeded)
            && v.index == (if talk == [] then 0
                           else match talk[|talk| - 1]
                                case RegisterCall(_, _, _, Some(index)) => index
                                case RevertCall(_, _, _, Some(index)) => index
                                case _ => 0)
            && (v.error == "" <==> v.status.Succeeded?)
    ensures !blocked && talk == [] ==> row.operation.Unsupported? || (row.operation.Register? && row.job.None?)
  {
    if talk != [] {
      assert talk[0] in talk;
      if |talk| > 1 {
        assert talk[1] in talk && talk == [talk[0], talk[1]];
      }
    }
  }

  /** At most one write, as the last call, and never an unprepared one: a registration follows a plan of
      the same definition that shows a change, a removal follows a look that found the tag. */
  lemma WritesArePrepared(cfg: Config, row: Row, blocked: bool, talk: seq<Call>, i: nat)
    requires VerdictOf(cfg, row, blocked, talk).Some? && i < |talk| && WriteCall(talk[i])
    ensures !blocked && i == |talk| - 1
    ensures talk[i].RegisterCall? ==>
              row.operation.Register? && i == 1 && row.job.Some?
              && talk[0].PlanCall? && talk[0].planned == talk[1].job == row.job.value
              && talk[1].enforced == row.modifyIndex && talk[1].preserveCounts == row.preserveCounts
              && talk[0].plan.Planned? && !Classify(talk[0].plan.diff, AutoscaledGroups(row.job.value), cfg.metaPrefix).NoChange?
    ensures talk[i].DeregisterCall? ==>
              row.operation.Deregister? && i == 1 && talk[0].InfoCall? && talk[0].asked == talk[1].removed == row.jobID
              && talk[1].purge == cfg.deregisterPurge
              && talk[0].info.LiveJob? && KeyIs(cfg, talk[0].info.meta, "_managed", "true")
    ensures talk[i].RevertCall? ==>
              row.operation.Revert? && talk[i] == RevertCall(row.jobID, row.revertTo, row.revertFrom, talk[i].reverted)
  {
  }

  // ---- The drained rows ----

  // A row as it was handed out, what was said about it to Nomad, and how that ended.
  datatype Applied = Applied(row: Row, now: int, talk: seq<Call>, verdict: Verdict)

  /** The row was put to the gate, against this view, and then applied as its operation asks. */
  ghost predicate AppliedWell(cfg: Config, w: Protocol.World, view: Option<Protocol.View>, a: Applied) {
    VerdictOf(cfg, a.row, Protocol.Blocked(w, view, a.row.jobID, a.now), a.talk) == Some(a.verdict)
  }

  /** All that was said, one row after the other. */
  function TalkOf(applied: seq<Applied>): seq<Call> {
    if applied == [] then [] else TalkOf(applied[..|applied| - 1]) + applied[|applied| - 1].talk
  }

  /** The queue after each row in turn was handed out and completed with its verdict. */
  function RowsAfter(rows: seq<Row>, applied: seq<Applied>): seq<Row> {
    if applied == [] then rows
    else
      var a := applied[|applied| - 1];
      Updates.Complete(HandOut(RowsAfter(rows, applied[..|applied| - 1])), a.row.updateID, a.verdict.status, a.verdict.index,
                       a.verdict.error, a.now)
  }

  ghost predicate AnyInvalidates(applied: seq<Applied>) {
    exists a :: a in applied && a.verdict.invalidates
  }

  /** Every row that was applied, as long as it is listed, carries the verdict of what was said about it. */
  ghost predicate Carried(rows: seq<Row>, applied: seq<Applied>) {
    forall a, r :: a in applied && r in rows && r.updateID == a.row.updateID ==>
      EndedAs(r, a.row, a.verdict.status, a.verdict.index, a.verdict.error, a.now)
  }

  ghost predicate AllFinal(applied: seq<Applied>) {
    forall a :: a in applied ==> a.verdict.status.Terminal()
  }

  lemma NoneCarried(rows: seq<Row>)
    ensures Carried(rows, []) && AllFinal([])
  {
  }

  /** The row applied now was waiting, so it is none of those applied before. */
  lemma CarriedOn(before: seq<Row>, after: seq<Row>, applied: seq<Applied>, a: Applied)
    requires Carried(before, applied) && AllFinal(applied) && a.verdict.status.Terminal()
    requires a.row.(status := Pending) in before
    requires forall r :: r in after ==>
               if r.updateID == a.row.updateID then EndedAs(r, a.row, a.verdict.status, a.verdict.index, a.verdict.error, a.now)
               else r in before
    ensures Carried(after, applied + [a]) && AllFinal(applied + [a])
  {
    var waiting := a.row.(status := Pending);
    assert waiting in before && waiting.updateID == a.row.updateID;
    assert forall x :: x in applied ==> x.row.updateID != a.row.updateID;
    hide EndedAs;
  }

  /** Handing out changes the row that was waiting first, and no other. */
  lemma HandedOut(before: seq<Row>)
    requires FindPending(before) < |before| && UniqueIDs(before)
    ensures UniqueIDs(HandOut(before))
    ensures var i := FindPending(before);
            before[i] in before && before[i].status.Pending? && HandOut(before) == before[i := before[i].(status := InProgress)]
  {
  }

  lemma OthersThere(before: seq<Row>, i: nat, row: Row)
    requires i < |before| && row.updateID == before[i].updateID
    ensures row in before[i := row]
    ensures forall r :: r in before[i := row] && r.updateID != row.updateID ==> r in before
  {
    var out := before[i := row];
    assert out[i] in out;
    forall r | r in out && r.updateID != row.updateID ensures r in before {
      var k :| 0 <= k < |out| && out[k] == r;
      assert before[k] == r;
    }
  }

  /** What handing out a row and completing it leaves. */
  lemma OneCarried(before: seq<Row>, row: Row, v: Verdict, now: int)
    requires FindPending(before) < |before| && UniqueIDs(before)
    requires row == HandOut(before)[FindPending(before)] == before[FindPending(before)].(status := InProgress)
    ensures row.(status := Pending) in before
    ensures forall r :: r in Updates.Complete(HandOut(before), row.updateID, v.status, v.index, v.error, now) ==>
              if r.updateID == row.updateID then EndedAs(r, row, v.status, v.index, v.error, now) else r in before
  {
    HandedOut(before);
    hide *;
    OthersThere(before, FindPending(before), row);
    var out := HandOut(before);
    forall r | r in Updates.Complete(out, row.updateID, v.status, v.index, v.error, now)
      ensures if r.updateID == row.updateID then EndedAs(r, row, v.status, v.index, v.error, now) else r in before
    {
      CompleteRecords(out, row, v.status, v.index, v.error, now, r);
    }
  }

  /** The rows as they waited. */
  function AsWaiting(applied: seq<Applied>): seq<Row> {
    if applied == [] then [] else AsWaiting(applied[..|applied| - 1]) + [applied[|applied| - 1].row.(status := Pending)]
  }

  lemma NoneApplied(rows: seq<Row>)
    ensures AsWaiting([]) + Waitings(rows) == Waitings(rows) && TalkOf([]) == [] && RowsAfter(rows, []) == rows && !AnyInvalidates([])
  {
  }

  lemma OneMoreApplied(rows: seq<Row>, applied: seq<Applied>, a: Applied, waiting: seq<Row>, calls: seq<Call>)
    ensures AsWaiting(applied + [a]) + waiting == AsWaiting(applied) + ([a.row.(status := Pending)] + waiting)
    ensures calls + TalkOf(applied + [a]) == calls + TalkOf(applied) + a.talk
    ensures RowsAfter(rows, applied + [a])
            == Updates.Complete(HandOut(RowsAfter(rows, applied)), a.row.updateID, a.verdict.status, a.verdict.index,
                                a.verdict.error, a.now)
    ensures AnyInvalidates(applied + [a]) <==> AnyInvalidates(applied) || a.verdict.invalidates
  {
    var more := applied + [a];
    assert more[..|applied|] == applied && more[|applied|] == a && a in more;
    assert forall x :: x in applied ==> x in more;
  }

  lemma AllApplied(cfg: Config, w: Protocol.World, view: Option<Protocol.View>, applied: seq<Applied>, a: Applied)
    requires forall x :: x in applied || x == a ==>
               AppliedWell(cfg, w, view, x) && (x.verdict.status.Held? <==> Protocol.Blocked(w, view, x.row.jobID, x.now))
    ensures forall x :: x in applied + [a] ==>
              AppliedWell(cfg, w, view, x) && (x.verdict.status.Held? <==> Protocol.Blocked(w, view, x.row.jobID, x.now))
  {
    hide AppliedWell;
    hide Protocol.Blocked;
  }

  /** A row ends held exactly if the gate was closed to it. */
  lemma HeldIfBlocked(cfg: Config, w: Protocol.World, view: Option<Protocol.View>, a: Applied)
    requires AppliedWell(cfg, w, view, a)
    ensures a.verdict.status.Held? <==> Protocol.Blocked(w, view, a.row.jobID, a.now)
  {
    InvalidatesExactly(cfg, a.row, Protocol.Blocked(w, view, a.row.jobID, a.now), a.talk);
    hide Protocol.Blocked;
    hide VerdictOf;
  }

  lemma SameRows(a: seq<JobUpdate>, b: seq<JobUpdate>)
    requires All(a) <= All(b)
    ensures forall i :: 0 <= i < |a| ==> a[i] in b
  {
    forall i | 0 <= i < |a| ensures a[i] in b {
      assert a[i] in All(a);
    }
  }

  class Applier {
    const cfg: Config
    const queue: UpdateQueue
    const client: NomadClient
    const freezes: FreezeView
    const skip: SkipState

    ghost predicate Valid()
      reads this, queue, queue.updates, freezes
    {
      queue.Valid() && freezes.Valid()
    }

    constructor (cfg: Config, client: NomadClient, freezes: FreezeView, skip: SkipState)
      requires freezes.Valid()
      ensures Valid() && queue.updates == [] && fresh(queue)
      ensures this.cfg == cfg && this.client == client && this.freezes == freezes && this.skip == skip
    {
      this.cfg, this.client, this.freezes, this.skip := cfg, client, freezes, skip;
      queue := new UpdateQueue();
    }

    method CompleteUpdate(u: JobUpdate, v: Verdict, now: int)
      requires Valid() && v.status.Terminal()
      modifies queue, queue.updates
      ensures All(queue.updates) <= old(All(queue.updates))
      ensures Valid()
      ensures queue.Rows() == Updates.Complete(old(queue.Rows()), u.updateID, v.status, v.index, v.error, now)
    {
      queue.Complete(u.updateID, v.status, v.index, v.error, now);
    }

    /** Completes an update; after a failure the next check must run in full, to find out again what
        there is to do and against which index. */
    method Conclude(u: JobUpdate, v: Verdict, now: int)
      requires Valid() && v.status.Terminal()
      modifies skip`lastNomadIndex, queue, queue.updates
      ensures All(queue.updates) <= old(All(queue.updates))
      ensures Valid()
      ensures queue.Rows() == Updates.Complete(old(queue.Rows()), u.updateID, v.status, v.index, v.error, now)
      ensures skip.lastNomadIndex == if v.invalidates then 0 else old(skip.lastNomadIndex)
    {
      hide *;
      CompleteUpdate(u, v, now);
      if v.invalidates {
        skip.Invalidate();
      }
    }

    /** Looks at the live job first and removes it only if it still carries the tag. */
    method ApplyDeregister(u: JobUpdate) returns (v: Verdict, ghost talk: seq<Call>)
      modifies client
      ensures client.calls == old(client.calls) + talk
      ensures DeregisterTalk(cfg, u.View(), talk) == Some(v)
    {
      ghost var row := u.View();
      assert row.jobID == u.jobID;
      hide *;
      var live := client.Info(u.jobID);
      talk := [InfoCall(u.jobID, live)];
      DeregisterTalks(cfg, row, live, true);
      if live.Gone? {
        return Success(0), talk;
      }
      if live.InfoFailed? {
        return Fail("recheck"), talk;
      }
      UntaggedMeans(cfg, u.jobID, live);
      if live.NoJob? || !Managed(cfg, live.meta) {
        return Fail("live job no longer carries the managed tag"), talk;
      }
      var done := client.Deregister(u.jobID, cfg.deregisterPurge);
      DeregisterTalks(cfg, row, live, done);
      talk := talk + [DeregisterCall(u.jobID, cfg.deregisterPurge, done)];
      if !done {
        return Fail("deregister"), talk;
      }
      return Success(0), talk;
    }

    /** Reverts, provided the job is still at the failed version. */
    method ApplyRevert(u: JobUpdate) returns (v: Verdict, ghost talk: seq<Call>)
      modifies client
      ensures client.calls == old(client.calls) + talk
      ensures RevertTalk(u.View(), talk) == Some(v)
    {
      var enforce := u.revertFrom;
      var answer := client.Revert(u.jobID, u.revertTo, enforce);
      talk := [RevertCall(u.jobID, u.revertTo, enforce, answer)];
      if answer.None? {
        return Fail("revert"), talk;
      }
      return Success(answer.value), talk;
    }

    /** Plans again and registers, enforcing the index detection read. */
    method ApplyRegister(u: JobUpdate) returns (v: Verdict, ghost talk: seq<Call>)
      modifies client
      ensures client.calls == old(client.calls) + talk
      ensures RegisterTalk(cfg, u.View(), talk) == Some(v)
    {
      ghost var row := u.View();
      assert row.job == u.job && row.modifyIndex == u.modifyIndex && row.preserveCounts == u.preserveCounts;
      hide *;
      talk := [];
      if u.job.None? {
        NoJobTalk(cfg, row);
        return Verdict(Status.Failed, 0, "internal error: update has no parsed job", false), talk;
      }
      var plan := client.Plan(u.job.value);
      talk := [PlanCall(u.job.value, plan)];
      RegisterTalks(cfg, row, plan, None);
      if plan.PlanError? {
        return Fail("plan"), talk;
      }
      NothingMeans(cfg, row, plan);
      if Classify(plan.diff, AutoscaledGroups(u.job.value), cfg.metaPrefix) == NoChange {
        return Success(0), talk;
      }
      var answer := client.Register(u.job.value, u.modifyIndex, u.preserveCounts);
      RegisterTalks(cfg, row, plan, answer);
      talk := talk + [RegisterCall(u.job.value, u.modifyIndex, u.preserveCounts, answer)];
      if answer.None? {
        return Fail("register"), talk;
      }
      return Success(answer.value), talk;
    }

    /** Executes an update, up to its outcome: the freeze gate, then what its operation asks for. */
    method Execute(u: JobUpdate, now: int, ghost w: Protocol.World) returns (v: Verdict, ghost talk: seq<Call>)
      requires freezes.Valid() && freezes.Configured(w)
      modifies client
      ensures client.calls == old(client.calls) + talk
      ensures VerdictOf(cfg, u.View(), Protocol.Blocked(w, freezes.AsView(), u.jobID, now), talk) == Some(v)
    {
      hide DeregisterTalk;
      hide RegisterTalk;
      hide RevertTalk;
      hide Protocol.Blocked;
      talk := [];
      var blocked := freezes.Blocks(u.jobID, now, w);
      if blocked {
        return Verdict(Held, 0, "frozen", false), talk;
      }
      if u.operation.Deregister? {
        v, talk := ApplyDeregister(u);
        return;
      }
      if u.operation.Revert? {
        v, talk := ApplyRevert(u);
        return;
      }
      if !u.operation.Register? {
        return Verdict(Status.Failed, 0, "unsupported operation", false), talk;
      }
      v, talk := ApplyRegister(u);
    }

    /** Applies one update. Whatever Nomad answers, the update is completed exactly once. */
    method ApplyUpdate(u: JobUpdate, now: int, ghost w: Protocol.World)
        returns (ghost v: Verdict, ghost talk: seq<Call>)
      requires Valid() && freezes.Configured(w)
      modifies skip`lastNomadIndex, queue, queue.updates, client
      ensures All(queue.updates) <= old(All(queue.updates))
      ensures Valid() && client.calls == old(client.calls) + talk
      ensures VerdictOf(cfg, old(u.View()), Protocol.Blocked(w, freezes.AsView(), u.jobID, now), talk) == Some(v)
      ensures queue.Rows() == Updates.Complete(old(queue.Rows()), u.updateID, v.status, v.index, v.error, now)
      ensures skip.lastNomadIndex == if v.invalidates then 0 else old(skip.lastNomadIndex)
      ensures queue.Valid() && v.status.Terminal()
      ensures forall was, r :: was in old(queue.Rows()) && was.status.InProgress? && was.updateID == u.updateID
                               && r in queue.Rows() ==>
                if r.updateID == u.updateID then EndedAs(r, was, v.status, v.index, v.error, now) else r in old(queue.Rows())
    {
      hide VerdictOf;
      hide EndedAs;
      hide Updates.Complete;
      ghost var row := u.View();
      var verdict;
      verdict, talk := Execute(u, now, w);
      v := verdict;
      InvalidatesExactly(cfg, row, Protocol.Blocked(w, freezes.AsView(), u.jobID, now), talk);
      CompletionsRecord(queue.Rows(), u.updateID, v.status, v.index, v.error, now);
      Conclude(u, verdict, now);
    }

    method NextRow() returns (u: JobUpdate?, ghost row: Option<Row>)
      requires queue.Valid()
      modifies queue.updates
      ensures queue.Valid()
      ensures u == null <==> row.None?
      ensures u == null ==> Waitings(old(queue.Rows())) == [] && queue.Rows() == old(queue.Rows())
      ensures u != null ==> u.View() == row.value && FindPending(old(queue.Rows())) < |old(queue.Rows())|
                            && row.value == HandOut(old(queue.Rows()))[FindPending(old(queue.Rows()))]
                            && queue.Rows() == HandOut(old(queue.Rows()))
    {
      ghost var before := queue.Rows();
      NoneWaiting(before);
      u := queue.NextPending();
      row := if u == null then None else Some(u.View());
    }

    /** Takes the next waiting update and applies it. */
    method ApplyNext(now: int, ghost w: Protocol.World) returns (done: bool, ghost a: Option<Applied>)
      requires Valid() && freezes.Configured(w)
      requires NoneRunning(queue.Rows())
      modifies skip`lastNomadIndex, queue, queue.updates, client
      ensures All(queue.updates) <= old(All(queue.updates))
      ensures Valid()
      ensures NoneRunning(queue.Rows())
      ensures done <==> a.None?
      ensures done ==> Waitings(old(queue.Rows())) == [] && queue.Rows() == old(queue.Rows()) && client.calls == old(client.calls)
                       && skip.lastNomadIndex == old(skip.lastNomadIndex)
      ensures !done ==> Waitings(old(queue.Rows())) == [a.value.row.(status := Pending)] + Waitings(queue.Rows())
                        && a.value.row.status.InProgress?
      ensures !done ==> a.value.row.(status := Pending) in old(queue.Rows()) && a.value.verdict.status.Terminal()
      ensures !done ==> forall r :: r in queue.Rows() ==>
                if r.updateID == a.value.row.updateID
                then EndedAs(r, a.value.row, a.value.verdict.status, a.value.verdict.index, a.value.verdict.error, a.value.now)
                else r in old(queue.Rows())
      ensures !done ==> AppliedWell(cfg, w, freezes.AsView(), a.value) && client.calls == old(client.calls) + a.value.talk
                        && queue.Rows() == RowsAfter(old(queue.Rows()), [a.value])
                        && skip.lastNomadIndex == if a.value.verdict.invalidates then 0 else old(skip.lastNomadIndex)
    {
      ghost var before := queue.Rows();
      assert queue.Valid() && freezes.Valid();
      hide *;
      var u;
      ghost var row;
      u, row := NextRow();
      if u == null {
        return true, None;
      }
      AppliersValid();
      ghost var v, talk;
      v, talk := ApplyUpdate(u, now, w);
      TakenAndEnded(before, v, row.value, now);
      OneCarried(before, row.value, v, now);
      a := Some(Applied(row.value, now, talk, v));
      IsApplied(cfg, w, freezes.AsView(), before, a.value);
      return false, a;
    }

    /** Drains the queue. With nobody enqueuing meanwhile the drain ends; every row that waited was handed
        out once, in queue order, put to the gate and applied as its operation asks; nothing else was
        said to Nomad; each was completed with the verdict of what was said, and nothing is left waiting
        or running. `listed` is what a read of the freeze store returns, asked for only when there is
        something to apply. */
    method DrainUpdates(listed: Option<seq<FreezeRecord>>, readAt: int, ghost w: Protocol.World)
        returns (ghost applied: seq<Applied>)
      requires Valid() && freezes.Configured(w) && NoneRunning(queue.Rows())
      modifies skip`lastNomadIndex, queue, queue.updates, client, freezes
      ensures Valid()
      ensures NoneRunning(queue.Rows()) && Waitings(queue.Rows()) == []
      ensures AsWaiting(applied) == Waitings(old(queue.Rows()))
      ensures forall a :: a in applied ==> AppliedWell(cfg, w, freezes.AsView(), a)
                                           && (a.verdict.status.Held? <==> Protocol.Blocked(w, freezes.AsView(), a.row.jobID, a.now))
      ensures client.calls == old(client.calls) + TalkOf(applied)
      ensures queue.Rows() == RowsAfter(old(queue.Rows()), applied) && Carried(queue.Rows(), applied)
      ensures skip.lastNomadIndex == if AnyInvalidates(applied) then 0 else old(skip.lastNomadIndex)
      ensures freezes.AsView() == if freezes.enabled && PendingCount(old(queue.Rows())) > 0 && listed.Some?
                                  then Some(Protocol.View(readAt, HeldJobs(ClassifyAll(listed.value, readAt))))
                                  else old(freezes.AsView())
    {
      hide *;
      AppliersParts();
      var pending := queue.PendingRows();
      if freezes.enabled && pending > 0 {
        RefreshFreezes(listed, readAt);
      }
      ghost var rows := queue.Rows();
      ghost var view := freezes.AsView();
      applied := [];
      NoneApplied(rows);
      NoneCarried(rows);
      var done := false;
      while !done
        invariant Valid() && NoneRunning(queue.Rows()) && freezes.AsView() == view
        invariant forall i :: 0 <= i < |queue.updates| ==> queue.updates[i] in old(queue.updates)
        invariant AsWaiting(applied) + Waitings(queue.Rows()) == Waitings(rows)
        invariant done ==> Waitings(queue.Rows()) == []
        invariant forall a :: a in applied ==> AppliedWell(cfg, w, view, a)
                                               && (a.verdict.status.Held? <==> Protocol.Blocked(w, view, a.row.jobID, a.now))
        invariant client.calls == old(client.calls) + TalkOf(applied)
        invariant queue.Rows() == RowsAfter(rows, applied) && Carried(queue.Rows(), applied) && AllFinal(applied)
        invariant skip.lastNomadIndex == if AnyInvalidates(applied) then 0 else old(skip.lastNomadIndex)
        decreases |Waitings(queue.Rows())|, !done
      {
        var now: int := *;
        ghost var held, before := queue.updates, queue.Rows();
        ghost var a: Option<Applied>;
        done, a := ApplyNext(now, w);
        SameRows(queue.updates, held);
        if !done {
          OneMoreApplied(rows, applied, a.value, Waitings(queue.Rows()), old(client.calls));
          OneApplied(before, a.value);
          CarriedOn(before, queue.Rows(), applied, a.value);
          HeldIfBlocked(cfg, w, view, a.value);
          AllApplied(cfg, w, view, applied, a.value);
          applied := applied + [a.value];
        }
      }
    }

    method RefreshFreezes(listed: Option<seq<FreezeRecord>>, readAt: int)
      requires Valid()
      modifies freezes
      ensures Valid() && queue.Rows() == old(queue.Rows())
      ensures freezes.AsView() == if listed.Some? then Some(Protocol.View(readAt, HeldJobs(ClassifyAll(listed.value, readAt))))
                                  else old(freezes.AsView())
    {
      freezes.Refresh(listed, readAt);
    }

    lemma AppliersParts()
      requires Valid()
      ensures queue.Valid() && freezes.Valid()
    {
    }

    lemma AppliersValid()
      requires queue.Valid() && freezes.Valid()
      ensures Valid()
    {
    }
  }

  lemma OneApplied(rows: seq<Row>, a: Applied)
    ensures RowsAfter(rows, [a])
            == Updates.Complete(HandOut(rows), a.row.updateID, a.verdict.status, a.verdict.index, a.verdict.error, a.now)
  {
    assert [a][..0] == [];
  }

  lemma IsApplied(cfg: Config, w: Protocol.World, view: Option<Protocol.View>, rows: seq<Row>, a: Applied)
    requires VerdictOf(cfg, a.row, Protocol.Blocked(w, view, a.row.jobID, a.now), a.talk) == Some(a.verdict)
    ensures AppliedWell(cfg, w, view, a)
    ensures RowsAfter(rows, [a])
            == Updates.Complete(HandOut(rows), a.row.updateID, a.verdict.status, a.verdict.index, a.verdict.error, a.now)
  {
    OneApplied(rows, a);
  }

  ghost predicate NoneRunning(rows: seq<Row>) {
    forall r :: r in rows ==> !r.status.InProgress?
  }

  lemma Taken(before: seq<Row>, row: Row)
    requires FindPending(before) < |before| && QueueInv(HandOut(before)) && NoneRunning(before)
    requires row == HandOut(before)[FindPending(before)]
    ensures row in HandOut(before) && row.status.InProgress? && UniqueIDs(HandOut(before))
    ensures forall r :: r in HandOut(before) && r.status.InProgress? ==> r == row
  {
    ProtocolSafety.TakeRunsOne(before);
  }

  lemma PendingDoesNotRun(rows: seq<Row>, kept: seq<Row>)
    requires forall r :: r in rows && !r.status.Terminal() ==> r in kept && r.status.Pending?
    ensures NoneRunning(rows)
  {
  }

  /** Handing out a row and completing it: the row is found, it was the first waiting one, the other
      waiting rows stay, nothing runs. */
  lemma TakenAndEnded(before: seq<Row>, v: Verdict, row: Row, now: int)
    requires FindPending(before) < |before| && QueueInv(HandOut(before)) && v.status.Terminal()
    requires NoneRunning(before)
    requires row == HandOut(before)[FindPending(before)] == before[FindPending(before)].(status := InProgress)
    ensures var after := Updates.Complete(HandOut(before), row.updateID, v.status, v.index, v.error, now);
            NoneRunning(after) && row.status.InProgress?
            && Waitings(before) == [row.(status := Pending)] + Waitings(after)
  {
    Taken(before, row);
    hide *;
    var out := HandOut(before);
    ProtocolSafety.FinishOne(out, row, v.status, v.index, v.error, now);
    PendingDoesNotRun(Updates.Complete(out, row.updateID, v.status, v.index, v.error, now), out);
    WaitingsHandOut(before);
    WaitingsComplete(out, row.updateID, v.status, v.index, v.error, now);
  }
}
