/** The in-memory queue between detection and application: rows are shared objects, the applier
    keeps the one it was handed while detection goes on enqueuing. */
module UpdateQueues {
  import opened Wrappers
  import opened Jobs
  import opened Updates

  class JobUpdate {
    const updateID: string
    const jobID: string
    const hclFile: string
    const commit: string
    const operation: Operation
    const policy: UpdatePolicy
    const detectedAt: Option<int>
    const revertTo: nat
    const revertFrom: nat
    var status: Status
    var modifyIndex: nat
    var raftIndex: nat
    var appliedAt: Option<int>
    var error: string
    var job: Option<Job>
    var preserveCounts: bool

    function View(): Row
      reads this
    {
      Row(updateID, jobID, hclFile, commit, operation, status, policy, modifyIndex, raftIndex,
          detectedAt, appliedAt, error, revertTo, revertFrom, job, preserveCounts)
    }

    constructor (r: Row)
      ensures View() == r
    {
      updateID, jobID, hclFile, commit := r.updateID, r.jobID, r.hclFile, r.commit;
      operation, status, policy := r.operation, r.status, r.policy;
      modifyIndex, raftIndex := r.modifyIndex, r.raftIndex;
      detectedAt, appliedAt, error := r.detectedAt, r.appliedAt, r.error;
      revertTo, revertFrom := r.revertTo, r.revertFrom;
      job, preserveCounts := r.job, r.preserveCounts;
    }

    method RefreshFrom(u: Row)
      modifies this
      ensures View() == Refresh(old(View()), u)
    {
      modifyIndex := u.modifyIndex;
      raftIndex := u.raftIndex;
      job := u.job;
      preserveCounts := u.preserveCounts;
    }

    /** Marks a waiting update of the job. */
    method SupersedeFor(otherJob: string) returns (waited: bool)
      modifies this
      ensures View() == SupersedeRow(old(View()), otherJob)
      ensures waited == (jobID == otherJob && old(status).Pending?)
      ensures !old(status).Pending? ==> unchanged(this)
    {
      waited := jobID == otherJob && status.Pending?;
      if waited {
        status := Superseded;
      }
    }

    method Finish(newStatus: Status, appliedIndex: nat, message: string, now: int)
      modifies this
      ensures View() == Outcome(old(View()), newStatus, appliedIndex, message, now)
    {
      status := newStatus;
      error := message;
      if newStatus.Succeeded? {
        appliedAt := Some(now);
        if appliedIndex != 0 {
          modifyIndex := appliedIndex;
        }
      }
    }
  }

  ghost function Views(us: seq<JobUpdate>): (rows: seq<Row>)
    reads us
    ensures |rows| == |us|
    ensures forall i :: 0 <= i < |us| ==> rows[i] == us[i].View()
  {
    seq(|us|, i requires 0 <= i < |us| reads us => us[i].View())
  }

  ghost predicate Distinct(us: seq<JobUpdate>) {
    forall i, j :: 0 <= i < j < |us| ==> us[i] != us[j]
  }

  ghost function All(us: seq<JobUpdate>): set<JobUpdate> {
    set r | r in us
  }

  /** The rows waiting or being applied. */
  ghost function Open(us: seq<JobUpdate>): set<JobUpdate>
    reads us
  {
    set r | r in us && !r.status.Terminal()
  }

  /** One object stands once in a queue whose IDs are unique. */
  lemma UniqueIsDistinct(us: seq<JobUpdate>)
    requires UniqueIDs(Views(us))
    ensures Distinct(us)
  {
    forall i, j | 0 <= i < j < |us| ensures us[i] != us[j] {
      assert Views(us)[i].updateID != Views(us)[j].updateID;
    }
  }

  lemma DropFinishedAt(rows: seq<Row>, id: string, i: nat)
    requires i < |rows| && rows[i].updateID == id && rows[i].status.Terminal()
    requires forall k :: 0 <= k < i ==> !(rows[k].updateID == id && rows[k].status.Terminal())
    ensures DropFinished(rows, id) == rows[..i] + rows[i + 1..]
  {
    if i > 0 {
      DropFinishedAt(rows[1..], id, i - 1);
    }
  }

  lemma DropFinishedNone(rows: seq<Row>, id: string)
    requires forall k :: 0 <= k < |rows| ==> !(rows[k].updateID == id && rows[k].status.Terminal())
    ensures DropFinished(rows, id) == rows
  {
    if rows != [] {
      DropFinishedNone(rows[1..], id);
    }
  }

  /** The rows left when the `n` oldest finished ones go. */
  ghost function Survivors(us: seq<JobUpdate>, n: nat): seq<JobUpdate>
    reads us
  {
    if us == [] || n == 0 then us
    else if us[0].status.Terminal() then Survivors(us[1..], n - 1)
    else [us[0]] + Survivors(us[1..], n)
  }

  lemma {:induction false} SurvivorsView(us: seq<JobUpdate>, n: nat)
    ensures Views(Survivors(us, n)) == DropOldest(Views(us), n)
  {
    if us != [] && n > 0 {
      assert Views(us)[1..] == Views(us[1..]);
      if us[0].status.Terminal() {
        SurvivorsView(us[1..], n - 1);
      } else {
        SurvivorsView(us[1..], n);
        assert Views([us[0]] + Survivors(us[1..], n)) == [us[0].View()] + Views(Survivors(us[1..], n));
      }
    }
  }

  lemma Cons(u: JobUpdate, us: seq<JobUpdate>)
    ensures All([u] + us) == {u} + All(us)
    ensures Open([u] + us) == Open(us) + if u.status.Terminal() then {} else {u}
  {
  }

  lemma {:induction false} SurvivorsMembers(us: seq<JobUpdate>, n: nat)
    ensures All(Survivors(us, n)) <= All(us)
    ensures Open(Survivors(us, n)) == Open(us)
  {
    if us != [] && n > 0 {
      assert us == [us[0]] + us[1..];
      Cons(us[0], us[1..]);
      if us[0].status.Terminal() {
        SurvivorsMembers(us[1..], n - 1);
      } else {
        SurvivorsMembers(us[1..], n);
        Cons(us[0], Survivors(us[1..], n));
      }
    }
  }

  /** Writing at or before the position being read leaves what is still to be read. */
  lemma OverwriteFront<T>(s: seq<T>, k: nat, i: nat, x: T)
    requires k <= i < |s|
    ensures s[k := x][i + 1..] == s[i..][1..] == s[i + 1..]
    ensures s[k := x][..k + 1] == s[..k] + [x]
  {
  }

  lemma Reassociate<T>(a: seq<T>, x: T, b: seq<T>)
    ensures a + ([x] + b) == (a + [x]) + b
  {
  }

  lemma PruneByCount(rows: seq<Row>)
    ensures Prune(rows) == if TerminalCount(rows) <= MAX_TERMINAL then rows else DropOldest(rows, TerminalCount(rows) - MAX_TERMINAL)
  {
  }

  lemma SurvivorsStep(us: seq<JobUpdate>, n: nat)
    requires us != []
    ensures Survivors(us, n) == if n > 0 && us[0].status.Terminal() then Survivors(us[1..], n - 1)
                                else [us[0]] + Survivors(us[1..], n)
  {
    if n == 0 {
      assert Survivors(us[1..], n) == us[1..];
    }
  }

  lemma CompletionsRecord(rows: seq<Row>, id: string, status: Status, index: nat, error: string, now: int)
    requires QueueInv(rows)
    ensures forall was, r :: was in rows && was.status.InProgress? && was.updateID == id
                             && r in Updates.Complete(rows, id, status, index, error, now) ==>
              if r.updateID == id then EndedAs(r, was, status, index, error, now) else r in rows
  {
    hide EndedAs;
    forall was, r | was in rows && was.status.InProgress? && was.updateID == id
                    && r in Updates.Complete(rows, id, status, index, error, now)
      ensures if r.updateID == id then EndedAs(r, was, status, index, error, now) else r in rows
    {
      CompleteRecords(rows, was, status, index, error, now, r);
    }
  }

  lemma RunningFound(rows: seq<Row>, id: string, i: nat, status: Status, index: nat, error: string, now: int)
    requires i < |rows| && rows[i].updateID == id && rows[i].status.InProgress?
    requires forall k :: 0 <= k < i ==> !(rows[k].updateID == id && rows[k].status.InProgress?)
    ensures Updates.Complete(rows, id, status, index, error, now) == Prune(rows[i := Outcome(rows[i], status, index, error, now)])
  {
    assert FindRunning(rows, id) == i;
  }

  lemma NoneFound(rows: seq<Row>, id: string, status: Status, index: nat, error: string, now: int)
    requires forall k :: 0 <= k < |rows| ==> !(rows[k].updateID == id && rows[k].status.InProgress?)
    ensures Updates.Complete(rows, id, status, index, error, now) == rows
  {
  }

  lemma NonePending(rows: seq<Row>, jobID: string)
    ensures PendingOfJob(rows[..0], jobID) == 0
  {
  }

  lemma SupersededAll(before: seq<Row>, after: seq<Row>, jobID: string)
    requires |after| == |before| && forall k :: 0 <= k < |after| ==> after[k] == SupersedeRow(before[k], jobID)
    ensures after == SupersedeJob(before, jobID)
  {
  }

  lemma PendingOneMore(rows: seq<Row>, i: nat, jobID: string)
    requires i < |rows|
    ensures PendingOfJob(rows[..i + 1], jobID)
            == PendingOfJob(rows[..i], jobID) + if rows[i].jobID == jobID && rows[i].status.Pending? then 1 else 0
  {
    assert rows[..i + 1][..i] == rows[..i];
  }

  class UpdateQueue {
    var updates: seq<JobUpdate>

    ghost predicate Valid()
      reads this, updates
    {
      QueueInv(Rows())
    }

    ghost function Rows(): seq<Row>
      reads this, updates
    {
      Views(updates)
    }

    constructor ()
      ensures Valid() && updates == []
    {
      updates := [];
    }

    /** Records an intended update. A row being applied stays the object it is, untouched. */
    method Enqueue(u: Row) returns (superseded: nat)
      requires Valid()
      modifies this, updates
      ensures Valid()
      ensures Rows() == Updates.Enqueue(old(Rows()), u)
      ensures superseded == SupersededBy(old(Rows()), u) <= 1
      ensures forall r :: r in old(Open(updates)) && old(r.status).InProgress? ==>
                r in Open(updates) && r.View() == old(r.View())
    {
      EnqueueKeepsInv(Rows(), u);
      PendingOfJobBound(Rows(), u.jobID);
      UniqueIsDistinct(updates);
      superseded := Place(u);
    }

    method Place(u: Row) returns (superseded: nat)
      requires Distinct(updates)
      modifies this, updates
      ensures Rows() == Updates.Enqueue(old(Rows()), u)
      ensures superseded == SupersededBy(old(Rows()), u)
      ensures forall r :: r in old(Open(updates)) && old(r.status).InProgress? ==>
                r in Open(updates) && r.View() == old(r.View())
    {
      var i := IndexOf(u.updateID);
      if i < |updates| && updates[i].status.Pending? {
        RefreshAt(i, u);
        return 0;
      }
      if i < |updates| && updates[i].status.InProgress? {
        return 0;
      }
      superseded := AppendRow(u);
    }

    method RefreshAt(i: nat, u: Row)
      requires i < |updates| && Distinct(updates)
      modifies updates[i]
      ensures Rows() == old(Rows())[i := Refresh(old(Rows())[i], u)]
      ensures Open(updates) == old(Open(updates))
    {
      updates[i].RefreshFrom(u);
    }

    /** Position of the first row with an ID, the number of rows when there is none. */
    method IndexOf(id: string) returns (i: nat)
      ensures i == FindID(Rows(), id)
    {
      i := 0;
      while i < |updates|
        invariant i <= |updates|
        invariant forall k :: 0 <= k < i ==> updates[k].updateID != id
      {
        if updates[i].updateID == id {
          break;
        }
        i := i + 1;
      }
    }

    /** Supersedes what the new update replaces and adds it as the last row. */
    method AppendRow(u: Row) returns (superseded: nat)
      requires Distinct(updates)
      modifies this, updates
      ensures Rows() == Append(old(Rows()), u)
      ensures superseded == PendingOfJob(old(Rows()), u.jobID)
      ensures forall r :: r in old(updates) && !old(r.status).Pending? ==> unchanged(r)
      ensures forall r :: r in old(updates) && !r.status.Terminal() ==> r in Open(updates)
    {
      superseded := Supersede(u.jobID);
      Admit(u);
    }

    /** A finished row of the same ID gives way, the update joins as last row, the queue is pruned. */
    method Admit(u: Row)
      modifies `updates
      ensures Rows() == Prune(DropFinished(old(Rows()), u.updateID) + [u.(status := Pending)])
      ensures old(Open(updates)) <= Open(updates)
    {
      DropRetried(u.updateID);
      PushPending(u);
      PruneRows();
    }

    method PushPending(u: Row)
      modifies `updates
      ensures Rows() == old(Rows()) + [u.(status := Pending)]
      ensures old(Open(updates)) <= Open(updates)
    {
      var entry := new JobUpdate(u.(status := Pending));
      updates := updates + [entry];
    }

    /** Marks every pending row of a job superseded. */
    method Supersede(jobID: string) returns (superseded: nat)
      requires Distinct(updates)
      modifies updates
      ensures Rows() == SupersedeJob(old(Rows()), jobID)
      ensures superseded == PendingOfJob(old(Rows()), jobID)
      ensures forall r :: r in updates && !old(r.status).Pending? ==> unchanged(r)
    {
      hide PendingOfJob;
      hide SupersedeJob;
      hide SupersedeRow;
      ghost var before := Rows();
      superseded := 0;
      NonePending(before, jobID);
      for i := 0 to |updates|
        invariant forall k :: 0 <= k < |updates| ==>
                    updates[k].View() == if k < i then SupersedeRow(before[k], jobID) else before[k]
        invariant superseded == PendingOfJob(before[..i], jobID)
        invariant forall r :: r in updates && !old(r.status).Pending? ==> unchanged(r)
      {
        PendingOneMore(before, i, jobID);
        var existing := updates[i];
        assert forall k :: 0 <= k < |updates| && k != i ==> updates[k] != existing;
        var waited := existing.SupersedeFor(jobID);
        if waited {
          superseded := superseded + 1;
        }
      }
      assert before[..|updates|] == before;
      SupersededAll(before, Rows(), jobID);
    }

    /** Removes the finished row a retry takes over from. */
    method DropRetried(id: string)
      modifies `updates
      ensures Rows() == DropFinished(old(Rows()), id)
      ensures All(updates) <= old(All(updates))
      ensures Open(updates) == old(Open(updates))
    {
      ghost var before := Rows();
      for i := 0 to |updates|
        invariant updates == old(updates)
        invariant forall k :: 0 <= k < i ==> !(before[k].updateID == id && before[k].status.Terminal())
      {
        if updates[i].updateID == id && updates[i].status.Terminal() {
          DropFinishedAt(before, id, i);
          updates := updates[..i] + updates[i + 1..];
          assert Rows() == before[..i] + before[i + 1..];
          return;
        }
      }
      DropFinishedNone(before, id);
    }

    method TerminalRows() returns (n: nat)
      ensures n == TerminalCount(Rows())
    {
      n := 0;
      for i := 0 to |updates|
        invariant n == TerminalCount(Rows()[..i])
      {
        assert Rows()[..i + 1][..i] == Rows()[..i];
        if updates[i].status.Terminal() {
          n := n + 1;
        }
      }
      assert Rows()[..|updates|] == Rows();
    }

    /** Drops the oldest finished rows beyond the cap. */
    method PruneRows()
      modifies `updates
      ensures Rows() == Prune(old(Rows()))
      ensures All(updates) <= old(All(updates))
      ensures Open(updates) == old(Open(updates))
    {
      var keep := Recent();
      Replace(keep);
    }

    method Recent() returns (keep: seq<JobUpdate>)
      ensures Views(keep) == Prune(Rows())
      ensures All(keep) <= All(updates)
      ensures Open(keep) == Open(updates)
    {
      hide *;
      var terminal := TerminalRows();
      PruneByCount(Rows());
      if terminal <= MAX_TERMINAL {
        AsViews();
        return updates;
      }
      keep := Compact(terminal);
      AsViews();
      SurvivorsView(updates, terminal - MAX_TERMINAL);
      SurvivorsMembers(updates, terminal - MAX_TERMINAL);
    }

    lemma AsViews()
      ensures Rows() == Views(updates)
    {
    }

    /** The compaction loop: the kept rows are written over the front of the very sequence that is
        being read. */
    method Compact(count: nat) returns (keep: seq<JobUpdate>)
      requires count >= MAX_TERMINAL
      ensures keep == Survivors(updates, count - MAX_TERMINAL)
    {
      var terminal := count;
      var backing := updates;
      var kept := 0;
      ghost var target := Survivors(updates, terminal - MAX_TERMINAL);
      ghost var tail := target;
      for i := 0 to |backing|
        invariant kept <= i && |backing| == |updates|
        invariant terminal >= MAX_TERMINAL
        invariant tail == Survivors(backing[i..], terminal - MAX_TERMINAL)
        invariant target == backing[..kept] + tail
      {
        var u := backing[i];
        SurvivorsStep(backing[i..], terminal - MAX_TERMINAL);
        assert backing[i..][1..] == backing[i + 1..];
        if terminal > MAX_TERMINAL && u.status.Terminal() {
          terminal := terminal - 1;
        } else {
          OverwriteFront(backing, kept, i, u);
          Reassociate(backing[..kept], u, tail[1..]);
          assert tail == [u] + tail[1..];
          backing := backing[kept := u];
          kept := kept + 1;
          tail := tail[1..];
        }
      }
      keep := backing[..kept];
      assert tail == [];
    }

    method Replace(keep: seq<JobUpdate>)
      modifies `updates
      ensures updates == keep
      ensures Views(keep) == old(Views(keep))
    {
      updates := keep;
    }

    /** Hands out the oldest pending row, marking it in progress. */
    method NextPending() returns (next: JobUpdate?)
      requires Valid()
      modifies updates
      ensures Valid()
      ensures Rows() == HandOut(old(Rows()))
      ensures next == null <==> FindPending(old(Rows())) == |updates|
      ensures next != null ==>
                next in updates && next == updates[FindPending(old(Rows()))]
                && next.View() == old(next.View()).(status := InProgress)
      ensures forall r :: r in updates && r != next ==> unchanged(r)
    {
      ghost var before := Rows();
      HandOutKeepsInv(before);
      UniqueIsDistinct(updates);
      for i := 0 to |updates|
        invariant forall k :: 0 <= k < i ==> !before[k].status.Pending?
      {
        var u := updates[i];
        if u.status.Pending? {
          assert FindPending(before) == i;
          u.status := InProgress;
          assert Rows() == before[i := before[i].(status := InProgress)];
          return u;
        }
      }
      return null;
    }

    /** Records the outcome of an apply attempt. */
    method Complete(id: string, status: Status, appliedIndex: nat, error: string, now: int)
      requires Valid() && status.Terminal()
      modifies this, updates
      ensures Valid()
      ensures Rows() == Updates.Complete(old(Rows()), id, status, appliedIndex, error, now)
      ensures All(updates) <= old(All(updates))
      ensures forall was, r :: was in old(Rows()) && was.status.InProgress? && was.updateID == id && r in Rows() ==>
                if r.updateID == id then EndedAs(r, was, status, appliedIndex, error, now) else r in old(Rows())
    {
      CompletionsRecord(Rows(), id, status, appliedIndex, error, now);
      hide *;
      Record(id, status, appliedIndex, error, now);
    }

    /** The loop that finds the running row. */
    method Record(id: string, status: Status, appliedIndex: nat, error: string, now: int)
      requires Valid() && status.Terminal()
      modifies this, updates
      ensures Valid()
      ensures Rows() == Updates.Complete(old(Rows()), id, status, appliedIndex, error, now)
      ensures All(updates) <= old(All(updates))
    {
      ghost var before := Rows();
      CompleteKeepsInv(before, id, status, appliedIndex, error, now);
      UniqueIsDistinct(updates);
      hide FindRunning;
      hide Updates.Complete;
      hide QueueInv;
      for i := 0 to |updates|
        invariant updates == old(updates)
        invariant forall k :: 0 <= k < |updates| ==> updates[k].View() == before[k]
        invariant forall k :: 0 <= k < i ==> !(before[k].updateID == id && before[k].status.InProgress?)
      {
        var u := updates[i];
        if u.updateID == id && u.status.InProgress? {
          RunningFound(before, id, i, status, appliedIndex, error, now);
          u.Finish(status, appliedIndex, error, now);
          assert Rows() == before[i := Outcome(before[i], status, appliedIndex, error, now)];
          PruneRows();
          return;
        }
      }
      NoneFound(before, id, status, appliedIndex, error, now);
    }

    /** How many rows wait. */
    method PendingRows() returns (n: nat)
      requires Valid()
      ensures n == PendingCount(Rows())
    {
      n := 0;
      for i := 0 to |updates|
        invariant n == PendingCount(Rows()[..i])
      {
        assert Rows()[..i + 1][..i] == Rows()[..i];
        if updates[i].status.Pending? {
          n := n + 1;
        }
      }
      assert Rows()[..|updates|] == Rows();
    }

    /** A copy of every row without its parsed job. */
    method Snapshot() returns (out: seq<Row>)
      requires Valid()
      ensures |out| == |Rows()|
      ensures forall i :: 0 <= i < |out| ==> out[i] == Rows()[i].(job := None)
    {
      out := [];
      for i := 0 to |updates|
        invariant |out| == i
        invariant forall k :: 0 <= k < i ==> out[k] == Rows()[k].(job := None)
      {
        out := out + [updates[i].View().(job := None)];
      }
    }

    /** How long the oldest unfinished row has waited. */
    method OldestNonTerminalAge(now: int) returns (age: nat)
      requires Valid()
      ensures age == QueueAge(Rows(), now)
    {
      var oldest := 0;
      for i := 0 to |updates|
        invariant oldest == OldestSeen(Rows()[..i])
      {
        var u := updates[i];
        assert Rows()[..i + 1][..i] == Rows()[..i];
        if u.status.Terminal() || u.detectedAt.None? {
          continue;
        }
        var t := u.detectedAt.value;
        if oldest == 0 || t < oldest {
          oldest := t;
        }
      }
      assert Rows()[..|updates|] == Rows();
      if oldest == 0 {
        return 0;
      }
      return if now - oldest > 0 then now - oldest else 0;
    }
  }
}
