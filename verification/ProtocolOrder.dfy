/** The order in which the queue hands out its rows, over every run and with detection enqueuing all the
    while. */
module ProtocolOrder {
  import opened Updates
  import opened Decisions
  import opened Protocol
  import opened ProtocolSafety
  import opened ProtocolTheorems

  predicate Adds(e: Event, id: string) {
    e.Enqueued? && e.added && e.u.updateID == id
  }

  /** The position after the latest event that added a row under the ID, 0 when none did. An enqueue that
      finds the ID waiting or running adds nothing. */
  function AddedAt(log: Log, id: string): (n: nat)
    ensures n <= |log|
    ensures n > 0 ==> Adds(log[n - 1], id)
    ensures forall m :: n <= m < |log| ==> !Adds(log[m], id)
  {
    if log == [] then 0
    else if Adds(log[|log| - 1], id) then |log|
    else AddedAt(log[..|log| - 1], id)
  }

  /** When the row was added that an event hands out. */
  function TakenAt(log: Log, k: nat): nat
    requires k < |log| && log[k].Took?
  {
    AddedAt(log[..k], log[k].row.updateID)
  }

  /** The waiting rows stand in the order they were added. */
  ghost predicate Ordered(log: Log, waiting: seq<Row>) {
    (forall i :: 0 <= i < |waiting| ==> AddedAt(log, waiting[i].updateID) > 0)
    && forall i, j :: 0 <= i < j < |waiting| ==> AddedAt(log, waiting[i].updateID) < AddedAt(log, waiting[j].updateID)
  }

  /** What was handed out had been added before any row that waits. */
  ghost predicate TakenFirst(log: Log, waiting: seq<Row>) {
    forall k, i :: 0 <= k < |log| && log[k].Took? && 0 <= i < |waiting| ==>
      TakenAt(log, k) < AddedAt(log, waiting[i].updateID)
  }

  ghost predicate TakenInOrder(log: Log) {
    forall k1, k2 :: 0 <= k1 < k2 < |log| && log[k1].Took? && log[k2].Took? ==> TakenAt(log, k1) < TakenAt(log, k2)
  }

  ghost predicate Fifo(log: Log, waiting: seq<Row>) {
    Ordered(log, waiting) && TakenFirst(log, waiting) && TakenInOrder(log)
    && forall k :: 0 <= k < |log| && log[k].Took? ==> TakenAt(log, k) > 0
  }

  // ---- What the queue operations do to the waiting rows ----

  ghost predicate SameIDs(a: seq<Row>, b: seq<Row>) {
    |a| == |b| && forall i :: 0 <= i < |a| ==> a[i].updateID == b[i].updateID
  }

  lemma {:induction false} WaitingsRefresh(rows: seq<Row>, i: nat, r: Row)
    requires i < |rows| && rows[i].status.Pending? && r.status.Pending? && r.updateID == rows[i].updateID
    ensures SameIDs(Waitings(rows[i := r]), Waitings(rows))
  {
    if i > 0 {
      WaitingsRefresh(rows[1..], i - 1, r);
      assert rows[i := r][1..] == rows[1..][i - 1 := r];
    } else {
      assert rows[i := r][1..] == rows[1..];
    }
  }

  lemma {:induction false} WaitingsDropFinished(rows: seq<Row>, id: string)
    ensures Waitings(DropFinished(rows, id)) == Waitings(rows)
  {
    if rows != [] && !(rows[0].updateID == id && rows[0].status.Terminal()) {
      WaitingsDropFinished(rows[1..], id);
      var rest := DropFinished(rows[1..], id);
      assert ([rows[0]] + rest)[1..] == rest;
    }
  }

  lemma {:induction false} WaitingsSupersede(rows: seq<Row>, jobID: string)
    ensures Embeds(Waitings(SupersedeJob(rows, jobID)), Waitings(rows))
  {
    if rows != [] {
      WaitingsSupersede(rows[1..], jobID);
      assert SupersedeJob(rows, jobID)[1..] == SupersedeJob(rows[1..], jobID);
      var rest, thinned := Waitings(rows[1..]), Waitings(SupersedeJob(rows[1..], jobID));
      if rows[0].status.Pending? {
        assert ([rows[0]] + rest)[1..] == rest;
        assert ([rows[0]] + thinned)[1..] == thinned;
      }
    }
  }

  /** An update that is added waits behind those that are left waiting. */
  lemma WaitingsAdd(rows: seq<Row>, u: Row)
    ensures Waitings(Append(rows, u)) == Waitings(SupersedeJob(rows, u.jobID)) + [u.(status := Pending)]
  {
    var left := DropFinished(SupersedeJob(rows, u.jobID), u.updateID);
    var all := left + [u.(status := Pending)];
    WaitingsDropFinished(SupersedeJob(rows, u.jobID), u.updateID);
    WaitingsSnoc(left, u.(status := Pending));
    WaitingsDrop(all, Excess(all));
  }

  // ---- What the steps do to the order ----

  lemma AddedAtGrows(log: Log, e: Event, id: string)
    ensures AddedAt(log + [e], id) == if Adds(e, id) then |log| + 1 else AddedAt(log, id)
  {
    assert (log + [e])[..|log|] == log;
  }

  lemma TakenAtGrows(log: Log, e: Event, k: nat)
    requires k < |log| && log[k].Took?
    ensures TakenAt(log + [e], k) == TakenAt(log, k)
  {
    assert (log + [e])[..k] == log[..k];
  }

  lemma {:induction false} OrderedEmbeds(log: Log, sub: seq<Row>, all: seq<Row>)
    requires Embeds(sub, all) && Ordered(log, all)
    ensures Ordered(log, sub)
  {
    if sub != [] {
      assert Ordered(log, all[1..]);
      if sub[0] == all[0] && Embeds(sub[1..], all[1..]) {
        OrderedEmbeds(log, sub[1..], all[1..]);
        EmbeddedMembers(sub[1..], all[1..]);
        forall i, j | 0 <= i < j < |sub| ensures AddedAt(log, sub[i].updateID) < AddedAt(log, sub[j].updateID) {
          if i == 0 {
            assert sub[1..][j - 1] in all[1..];
          } else {
            assert sub[i] == sub[1..][i - 1] && sub[j] == sub[1..][j - 1];
          }
        }
      } else {
        OrderedEmbeds(log, sub, all[1..]);
      }
    }
  }

  lemma FifoEmbeds(log: Log, sub: seq<Row>, all: seq<Row>)
    requires Embeds(sub, all) && Fifo(log, all)
    ensures Fifo(log, sub)
  {
    OrderedEmbeds(log, sub, all);
    EmbeddedMembers(sub, all);
    hide AddedAt;
    hide Embeds;
    forall k, i | 0 <= k < |log| && log[k].Took? && 0 <= i < |sub|
      ensures TakenAt(log, k) < AddedAt(log, sub[i].updateID)
    {
      assert sub[i] in all;
    }
  }

  /** An event that neither adds nor hands out. */
  lemma FifoGoesOn(log: Log, e: Event, waiting: seq<Row>, after: seq<Row>)
    requires Fifo(log, waiting) && SameIDs(after, waiting) && !e.Took? && !(e.Enqueued? && e.added)
    ensures Fifo(log + [e], after)
  {
    var grown := log + [e];
    forall id ensures AddedAt(grown, id) == AddedAt(log, id) {
      AddedAtGrows(log, e, id);
    }
    forall k | 0 <= k < |grown| && grown[k].Took? ensures k < |log| && TakenAt(grown, k) == TakenAt(log, k) {
      TakenAtGrows(log, e, k);
    }
    hide AddedAt;
    hide TakenAt;
  }

  lemma OrderedAdds(log: Log, e: Event, waiting: seq<Row>)
    requires Ordered(log, waiting) && e.Enqueued? && e.added && forall i :: 0 <= i < |waiting| ==> waiting[i].updateID != e.u.updateID
    ensures Ordered(log + [e], waiting + [e.u.(status := Pending)])
  {
    forall id ensures AddedAt(log + [e], id) == if id == e.u.updateID then |log| + 1 else AddedAt(log, id) {
      AddedAtGrows(log, e, id);
    }
    assert forall id :: AddedAt(log, id) <= |log|;
    hide AddedAt;
  }

  lemma TakenBeforeAdds(log: Log, e: Event, waiting: seq<Row>)
    requires Fifo(log, waiting) && e.Enqueued? && e.added && forall i :: 0 <= i < |waiting| ==> waiting[i].updateID != e.u.updateID
    ensures TakenFirst(log + [e], waiting + [e.u.(status := Pending)])
  {
    var grown, after := log + [e], waiting + [e.u.(status := Pending)];
    forall k, i | 0 <= k < |grown| && grown[k].Took? && 0 <= i < |after|
      ensures TakenAt(grown, k) < AddedAt(grown, after[i].updateID)
    {
      TakenAtGrows(log, e, k);
      AddedAtGrows(log, e, after[i].updateID);
      assert TakenAt(log, k) <= |log|;
    }
  }

  lemma FifoAdds(log: Log, u: Row, from: nat, waiting: seq<Row>)
    requires Fifo(log, waiting) && forall i :: 0 <= i < |waiting| ==> waiting[i].updateID != u.updateID
    ensures Fifo(log + [Enqueued(u, from, true)], waiting + [u.(status := Pending)])
  {
    var e := Enqueued(u, from, true);
    OrderedAdds(log, e, waiting);
    TakenBeforeAdds(log, e, waiting);
    hide Ordered;
    hide TakenFirst;
    forall k | 0 <= k < |log| + 1 && (log + [e])[k].Took? ensures k < |log| && TakenAt(log + [e], k) == TakenAt(log, k) {
      TakenAtGrows(log, e, k);
    }
    hide TakenAt;
  }

  lemma OrderedTakes(log: Log, e: Event, waiting: seq<Row>)
    requires waiting != [] && Ordered(log, waiting) && e.Took?
    ensures Ordered(log + [e], waiting[1..])
  {
    var rest := waiting[1..];
    forall id ensures AddedAt(log + [e], id) == AddedAt(log, id) {
      AddedAtGrows(log, e, id);
    }
    hide AddedAt;
    forall i | 0 <= i < |rest| ensures AddedAt(log + [e], rest[i].updateID) > 0 {
      assert rest[i] == waiting[i + 1];
    }
    forall i, j | 0 <= i < j < |rest| ensures AddedAt(log + [e], rest[i].updateID) < AddedAt(log + [e], rest[j].updateID) {
      assert rest[i] == waiting[i + 1] && rest[j] == waiting[j + 1];
    }
  }

  /** When the rows were added that the hand-outs are of, one more hand-out included. */
  lemma TakenAtNow(log: Log, row: Row, k: nat)
    requires k <= |log| && (log + [Took(row)])[k].Took?
    ensures TakenAt(log + [Took(row)], k) == if k < |log| then TakenAt(log, k) else AddedAt(log, row.updateID)
  {
    if k < |log| {
      TakenAtGrows(log, Took(row), k);
    } else {
      assert (log + [Took(row)])[..k] == log;
    }
  }

  lemma TakenBeforeTakes(log: Log, row: Row, waiting: seq<Row>)
    requires waiting != [] && Fifo(log, waiting) && row.updateID == waiting[0].updateID
    ensures TakenFirst(log + [Took(row)], waiting[1..])
  {
    var grown, rest := log + [Took(row)], waiting[1..];
    forall k, i | 0 <= k < |grown| && grown[k].Took? && 0 <= i < |rest|
      ensures TakenAt(grown, k) < AddedAt(grown, rest[i].updateID)
    {
      TakenAtNow(log, row, k);
      AddedAtGrows(log, Took(row), rest[i].updateID);
      assert rest[i] == waiting[i + 1];
      hide AddedAt;
      hide TakenAt;
    }
  }

  lemma FifoTakes(log: Log, row: Row, waiting: seq<Row>)
    requires waiting != [] && Fifo(log, waiting) && row.updateID == waiting[0].updateID
    ensures Fifo(log + [Took(row)], waiting[1..])
  {
    var grown := log + [Took(row)];
    OrderedTakes(log, Took(row), waiting);
    TakenBeforeTakes(log, row, waiting);
    forall k | 0 <= k < |grown| && grown[k].Took?
      ensures TakenAt(grown, k) == if k < |log| then TakenAt(log, k) else AddedAt(log, row.updateID)
    {
      TakenAtNow(log, row, k);
    }
    hide AddedAt;
    hide TakenAt;
  }

  lemma PutIsFifo(s: State, u: Row, from: nat)
    requires QueueInv(s.rows) && Fifo(s.log, Waitings(s.rows))
    ensures Fifo(Put(s, u, from).log, Waitings(Put(s, u, from).rows))
  {
    var i := FindID(s.rows, u.updateID);
    hide QueueInv;
    hide Fifo;
    hide Append;
    if Waiting(s.rows, u.updateID) {
      if s.rows[i].status.Pending? {
        WaitingsRefresh(s.rows, i, Refresh(s.rows[i], u));
      }
      FifoGoesOn(s.log, Enqueued(u, from, false), Waitings(s.rows), Waitings(Put(s, u, from).rows));
    } else {
      var left := Waitings(SupersedeJob(s.rows, u.jobID));
      WaitingsSupersede(s.rows, u.jobID);
      FifoEmbeds(s.log, left, Waitings(s.rows));
      NoneUnderID(s.rows, u, left);
      FifoAdds(s.log, u, from, left);
      WaitingsAdd(s.rows, u);
    }
  }

  lemma NoneUnderID(rows: seq<Row>, u: Row, left: seq<Row>)
    requires QueueInv(rows) && !Waiting(rows, u.updateID) && left == Waitings(SupersedeJob(rows, u.jobID))
    ensures forall i :: 0 <= i < |left| ==> left[i].updateID != u.updateID
  {
    WaitingsSupersede(rows, u.jobID);
    EmbeddedMembers(left, Waitings(rows));
    forall i | 0 <= i < |left| ensures left[i].updateID != u.updateID {
      assert left[i] in Waitings(rows);
      InWaitings(rows, left[i]);
      var k :| 0 <= k < |rows| && rows[k] == left[i];
    }
  }

  lemma TakeIsFifo(s: State)
    requires s.phase.Idle? && FindPending(s.rows) < |s.rows| && Fifo(s.log, Waitings(s.rows))
    ensures Fifo(StepTake(s).log, Waitings(StepTake(s).rows))
  {
    var row := StepTake(s).phase.row;
    WaitingsHandOut(s.rows);
    var rest := Waitings(HandOut(s.rows));
    assert ([s.rows[FindPending(s.rows)]] + rest)[1..] == rest;
    assert row.updateID == s.rows[FindPending(s.rows)].updateID;
    hide Fifo;
    FifoTakes(s.log, row, Waitings(s.rows));
  }

  lemma FinishIsFifo(s: State)
    requires s.phase.Ending? && s.phase.status.Terminal() && Fifo(s.log, Waitings(s.rows))
    ensures Fifo(StepFinish(s).log, Waitings(StepFinish(s).rows))
  {
    var p, t := s.phase, StepFinish(s);
    WaitingsComplete(s.rows, p.row.updateID, p.status, p.index, p.error, s.now);
    hide Fifo;
    hide Complete;
    hide FindRunning;
    FifoGoesOn(s.log, t.log[|s.log|], Waitings(s.rows), Waitings(t.rows));
  }

  /** The step leaves the queue alone, and its event, if any, is no hand-out and no enqueue. */
  predicate LeavesQueue(s: State, t: State) {
    t.rows == s.rows
    && (t.log == s.log
        || (|t.log| == |s.log| + 1 && t.log == s.log + [t.log[|s.log|]] && !t.log[|s.log|].Took? && !t.log[|s.log|].Enqueued?))
  }

  lemma EnvLeavesQueue(w: World, s: State, a: OutsideAction)
    requires EnabledEnv(w, s, a)
    ensures LeavesQueue(s, StepEnv(w, s, a))
  {
  }

  predicate Enqueues(a: DetectAction) {
    a.EnqueueUpdate? || a.EnqueueRemoval? || a.EnqueueRevert?
  }

  lemma DetLeavesQueue(w: World, s: State, a: DetectAction)
    requires EnabledDet(w, s, a) && !Enqueues(a)
    ensures LeavesQueue(s, StepDet(w, s, a))
  {
    hide OrphanKeys;
    hide Detected;
    hide DecideApply;
    hide Blocked;
  }

  lemma AppLeavesQueue(w: World, s: State, a: ApplierAction)
    requires EnabledApp(s, a) && !a.Take? && !a.Finish?
    ensures LeavesQueue(s, StepApp(w, s, a))
  {
    hide ClassAgainst;
    hide Managed;
    hide Blocked;
    hide NextReg;
  }

  lemma LeftIsFifo(s: State, t: State)
    requires LeavesQueue(s, t) && Fifo(s.log, Waitings(s.rows))
    ensures Fifo(t.log, Waitings(t.rows))
  {
    hide Fifo;
    if t.log != s.log {
      FifoGoesOn(s.log, t.log[|s.log|], Waitings(s.rows), Waitings(t.rows));
    }
  }

  lemma DetectionIsFifo(w: World, s: State, a: DetectAction)
    requires QueueInv(s.rows) && Fifo(s.log, Waitings(s.rows)) && EnabledDet(w, s, a)
    ensures Fifo(StepDet(w, s, a).log, Waitings(StepDet(w, s, a).rows))
  {
    hide Fifo;
    hide QueueInv;
    hide Put;
    match a {
      case EnqueueUpdate(at) => PutIsFifo(s, RegisterRow(w, s, at), at);
      case EnqueueRemoval(at) => PutIsFifo(s, RemovalRow(w, s, at), at);
      case EnqueueRevert(at) => PutIsFifo(s, RevertRow(s, at), at);
      case _ =>
        DetLeavesQueue(w, s, a);
        LeftIsFifo(s, StepDet(w, s, a));
    }
  }

  lemma ApplierIsFifo(w: World, s: State, a: ApplierAction)
    requires Fifo(s.log, Waitings(s.rows)) && EnabledApp(s, a) && (s.phase.Ending? ==> s.phase.status.Terminal())
    ensures Fifo(StepApp(w, s, a).log, Waitings(StepApp(w, s, a).rows))
  {
    hide Fifo;
    match a {
      case Take => TakeIsFifo(s);
      case Finish => FinishIsFifo(s);
      case _ =>
        AppLeavesQueue(w, s, a);
        hide StepApp;
        LeftIsFifo(s, StepApp(w, s, a));
    }
  }

  lemma StepIsFifo(w: World, s: State, a: Action)
    requires Inv(w, s) && Enabled(w, s, a) && Fifo(s.log, Waitings(s.rows))
    ensures Fifo(Step(w, s, a).log, Waitings(Step(w, s, a).rows))
  {
    InvParts(w, s);
    EndsWell(s);
    hide Inv;
    hide PhaseOK;
    hide LogOK;
    hide HistoryOK;
    hide RowsOK;
    hide QueueInv;
    hide WatchOK;
    hide IndexesOK;
    hide Fifo;
    hide Waitings;
    hide StepEnv;
    hide StepDet;
    hide StepApp;
    hide EnabledEnv;
    hide EnabledDet;
    hide EnabledApp;
    match a {
      case Env(e) =>
        EnvLeavesQueue(w, s, e);
        LeftIsFifo(s, StepEnv(w, s, e));
      case Det(d) => DetectionIsFifo(w, s, d);
      case App(p) => ApplierIsFifo(w, s, p);
    }
  }

  lemma EndsWell(s: State)
    requires PhaseOK(s)
    ensures s.phase.Ending? ==> s.phase.status.Terminal()
  {
    hide Sourced;
    hide Named;
  }

  lemma {:induction false} RunIsFifo(w: World, s: State, acts: seq<Action>)
    requires Init(s) && Run(w, s, acts).Some?
    ensures Fifo(Run(w, s, acts).value.log, Waitings(Run(w, s, acts).value.rows))
  {
    hide Inv;
    hide Step;
    hide Enabled;
    if acts != [] {
      RunIsFifo(w, s, acts[..|acts| - 1]);
      RunKeeps(w, s, acts[..|acts| - 1]);
      hide Fifo;
      StepIsFifo(w, Run(w, s, acts[..|acts| - 1]).value, acts[|acts| - 1]);
    }
  }

  // ---- The theorems ----

  /** Rows are handed out in the order they were added, whatever is enqueued, refreshed or superseded
      meanwhile: of any two hand-outs the earlier is of the row that was added earlier. */
  lemma HandOutsInOrder(w: World, log: Log, k1: nat, k2: nat)
    requires LogOf(w, log) && k1 < k2 < |log| && log[k1].Took? && log[k2].Took?
    ensures 0 < TakenAt(log, k1) < TakenAt(log, k2) <= k2
  {
    hide Run;
    hide Init;
    var s, acts :| Init(s) && Run(w, s, acts).Some? && Run(w, s, acts).value.log == log;
    RunIsFifo(w, s, acts);
    hide AddedAt;
  }

  /** An update is handed out again only after it was added again: between two hand-outs under one ID
      lies an enqueue that added a row under it. */
  lemma HandedOutOnce(w: World, log: Log, k1: nat, k2: nat)
    requires LogOf(w, log) && k1 < k2 < |log| && log[k1].Took? && log[k2].Took?
    requires log[k1].row.updateID == log[k2].row.updateID
    ensures exists m :: k1 < m < k2 && Adds(log[m], log[k1].row.updateID)
  {
    HandOutsInOrder(w, log, k1, k2);
    hide *;
    AddedUnder(log, k1, k2);
  }

  /** Where the later of two hand-outs under one ID was added later, an addition lies between them. */
  lemma AddedUnder(log: Log, k1: nat, k2: nat)
    requires k1 < k2 < |log| && log[k1].Took? && log[k2].Took? && log[k1].row.updateID == log[k2].row.updateID
    requires 0 < TakenAt(log, k1) < TakenAt(log, k2) <= k2
    ensures exists m :: k1 < m < k2 && Adds(log[m], log[k1].row.updateID)
  {
    var id, n := log[k1].row.updateID, TakenAt(log, k2);
    var m := n - 1;
    assert Adds(log[..k2][m], id) && log[..k2][m] == log[m];
  }
}
