/** The update queue as a value: what each queue operation does to the sequence of rows,
    and what every operation keeps. UpdateQueue.dfy holds the queue itself. */
module Updates {
  import opened Wrappers
  import opened Identity
  import opened Jobs

  datatype UpdatePolicy = Full | ImageOnly | NoUpdates

  datatype Operation = Register | Deregister | Revert | Unsupported(name: string)

  datatype Status = Pending | InProgress | Succeeded | Failed | Superseded | Held
  {
    predicate Terminal() {
      Succeeded? || Failed? || Superseded? || Held?
    }
  }

  // `detectedAt` is None when the stored text does not parse as a timestamp.
  datatype Row = Row(updateID: string, jobID: string, hclFile: string, commit: string,
                     operation: Operation, status: Status, policy: UpdatePolicy,
                     modifyIndex: nat, raftIndex: nat,
                     detectedAt: Option<int>, appliedAt: Option<int>, error: string,
                     revertTo: nat, revertFrom: nat,
                     job: Option<Job>, preserveCounts: bool)

  // How many terminal rows the queue retains.
  const MAX_TERMINAL: nat := 200

  /** Index of the first row with an ID, the number of rows when there is none. */
  function FindID(rows: seq<Row>, id: string): (i: nat)
    ensures i <= |rows|
    ensures i < |rows| ==> rows[i].updateID == id
    ensures forall k :: 0 <= k < i ==> rows[k].updateID != id
  {
    if rows == [] then 0
    else if rows[0].updateID == id then 0
    else 1 + FindID(rows[1..], id)
  }

  /** Index of the first pending row, the number of rows when nothing waits. */
  function FindPending(rows: seq<Row>): (i: nat)
    ensures i <= |rows|
    ensures i < |rows| ==> rows[i].status.Pending?
    ensures forall k :: 0 <= k < i ==> !rows[k].status.Pending?
  {
    if rows == [] then 0
    else if rows[0].status.Pending? then 0
    else 1 + FindPending(rows[1..])
  }

  /** What a repeated detection updates on a row that has not started. */
  function Refresh(r: Row, u: Row): Row {
    r.(modifyIndex := u.modifyIndex, raftIndex := u.raftIndex, job := u.job, preserveCounts := u.preserveCounts)
  }

  function SupersedeRow(r: Row, jobID: string): Row {
    if r.jobID == jobID && r.status.Pending? then r.(status := Superseded) else r
  }

  function SupersedeJob(rows: seq<Row>, jobID: string): (r: seq<Row>)
    ensures |r| == |rows|
  {
    seq(|rows|, i requires 0 <= i < |rows| => SupersedeRow(rows[i], jobID))
  }

  function PendingOfJob(rows: seq<Row>, jobID: string): nat {
    if rows == [] then 0
    else PendingOfJob(rows[..|rows| - 1], jobID)
         + if rows[|rows| - 1].jobID == jobID && rows[|rows| - 1].status.Pending? then 1 else 0
  }

  /** Drops the first finished row that carries an ID. */
  function DropFinished(rows: seq<Row>, id: string): seq<Row> {
    if rows == [] then []
    else if rows[0].updateID == id && rows[0].status.Terminal() then rows[1..]
    else [rows[0]] + DropFinished(rows[1..], id)
  }

  function TerminalCount(rows: seq<Row>): (n: nat)
    ensures n <= |rows|
  {
    if rows == [] then 0
    else TerminalCount(rows[..|rows| - 1]) + if rows[|rows| - 1].status.Terminal() then 1 else 0
  }

  function PendingCount(rows: seq<Row>): (n: nat)
    ensures n <= |rows|
  {
    if rows == [] then 0
    else PendingCount(rows[..|rows| - 1]) + if rows[|rows| - 1].status.Pending? then 1 else 0
  }

  /** Drops the first `n` finished rows. */
  function DropOldest(rows: seq<Row>, n: nat): seq<Row> {
    if rows == [] || n == 0 then rows
    else if rows[0].status.Terminal() then DropOldest(rows[1..], n - 1)
    else [rows[0]] + DropOldest(rows[1..], n)
  }

  function Excess(rows: seq<Row>): nat {
    if TerminalCount(rows) <= MAX_TERMINAL then 0 else TerminalCount(rows) - MAX_TERMINAL
  }

  function Prune(rows: seq<Row>): seq<Row> {
    DropOldest(rows, Excess(rows))
  }

  /** An update that is neither waiting nor being applied enters as a new last row. */
  function Append(rows: seq<Row>, u: Row): seq<Row> {
    Prune(DropFinished(SupersedeJob(rows, u.jobID), u.updateID) + [u.(status := Pending)])
  }

  function Enqueue(rows: seq<Row>, u: Row): seq<Row> {
    var i := FindID(rows, u.updateID);
    if i < |rows| && rows[i].status.Pending? then rows[i := Refresh(rows[i], u)]
    else if i < |rows| && rows[i].status.InProgress? then rows
    else Append(rows, u)
  }

  function SupersededBy(rows: seq<Row>, u: Row): nat {
    var i := FindID(rows, u.updateID);
    if i < |rows| && !rows[i].status.Terminal() then 0 else PendingOfJob(rows, u.jobID)
  }

  /** Hands out the first pending row. */
  function HandOut(rows: seq<Row>): seq<Row> {
    var i := FindPending(rows);
    if i < |rows| then rows[i := rows[i].(status := InProgress)] else rows
  }

  function FindRunning(rows: seq<Row>, id: string): (i: nat)
    ensures i <= |rows|
    ensures i < |rows| ==> rows[i].updateID == id && rows[i].status.InProgress?
    ensures forall k :: 0 <= k < i ==> !(rows[k].updateID == id && rows[k].status.InProgress?)
  {
    if rows == [] then 0
    else if rows[0].updateID == id && rows[0].status.InProgress? then 0
    else 1 + FindRunning(rows[1..], id)
  }

  function Outcome(r: Row, status: Status, appliedIndex: nat, error: string, now: int): Row {
    var r1 := r.(status := status, error := error);
    if status.Succeeded? then
      r1.(appliedAt := Some(now), modifyIndex := if appliedIndex != 0 then appliedIndex else r.modifyIndex)
    else r1
  }

  /** Records the outcome of an apply attempt. */
  function Complete(rows: seq<Row>, id: string, status: Status, appliedIndex: nat, error: string, now: int): seq<Row> {
    var i := FindRunning(rows, id);
    if i < |rows| then Prune(rows[i := Outcome(rows[i], status, appliedIndex, error, now)]) else rows
  }

  /** The row's ID is the one its fields give. */
  predicate Named(r: Row) {
    if r.operation.Revert? then r.updateID == RevertUpdateID(r.jobID, r.revertFrom)
    else r.updateID == UpdateID(r.jobID, r.commit) && '/' !in r.commit
  }

  // ---- What every operation keeps ----

  ghost predicate UniqueIDs(rows: seq<Row>) {
    forall i, j :: 0 <= i < j < |rows| ==> rows[i].updateID != rows[j].updateID
  }

  ghost predicate OnePendingPerJob(rows: seq<Row>) {
    forall i, j :: 0 <= i < j < |rows| && rows[i].status.Pending? && rows[j].status.Pending?
                   ==> rows[i].jobID != rows[j].jobID
  }

  ghost predicate QueueInv(rows: seq<Row>) {
    UniqueIDs(rows) && OnePendingPerJob(rows) && TerminalCount(rows) <= MAX_TERMINAL
  }

  /** `sub` is `rows` with some rows left out, in the same order. */
  predicate Embeds(sub: seq<Row>, rows: seq<Row>) {
    if sub == [] then true
    else if rows == [] then false
    else (sub[0] == rows[0] && Embeds(sub[1..], rows[1..])) || Embeds(sub, rows[1..])
  }

  function Terminals(rows: seq<Row>): seq<Row> {
    if rows == [] then []
    else if rows[0].status.Terminal() then [rows[0]] + Terminals(rows[1..])
    else Terminals(rows[1..])
  }

  function Unfinished(rows: seq<Row>): seq<Row> {
    if rows == [] then []
    else if rows[0].status.Terminal() then Unfinished(rows[1..])
    else [rows[0]] + Unfinished(rows[1..])
  }

  lemma {:induction false} TerminalCountFront(rows: seq<Row>)
    requires rows != []
    ensures TerminalCount(rows) == TerminalCount(rows[1..]) + if rows[0].status.Terminal() then 1 else 0
  {
    if |rows| > 1 {
      var front := rows[..|rows| - 1];
      TerminalCountFront(front);
      assert front[1..] == rows[1..][..|rows| - 2];
      assert rows[1..][|rows| - 2] == rows[|rows| - 1];
    }
  }

  lemma {:induction false} CountIsTerminals(rows: seq<Row>)
    ensures TerminalCount(rows) == |Terminals(rows)|
  {
    if rows != [] {
      TerminalCountFront(rows);
      CountIsTerminals(rows[1..]);
    }
  }

  /** Dropping the `n` oldest finished rows removes exactly those: the other finished rows and
      every unfinished row stay, in their order. */
  lemma {:induction false} DropOldestExact(rows: seq<Row>, n: nat)
    requires n <= TerminalCount(rows)
    ensures n <= |Terminals(rows)| && Terminals(DropOldest(rows, n)) == Terminals(rows)[n..]
    ensures Unfinished(DropOldest(rows, n)) == Unfinished(rows)
  {
    CountIsTerminals(rows);
    if rows != [] && n > 0 {
      TerminalCountFront(rows);
      if rows[0].status.Terminal() {
        DropOldestExact(rows[1..], n - 1);
        CountIsTerminals(rows[1..]);
      } else {
        DropOldestExact(rows[1..], n);
        var rest := DropOldest(rows[1..], n);
        assert ([rows[0]] + rest)[1..] == rest;
      }
    }
  }

  lemma {:induction false} EmbedsSelf(rows: seq<Row>)
    ensures Embeds(rows, rows)
  {
    if rows != [] {
      EmbedsSelf(rows[1..]);
    }
  }

  lemma {:induction false} DropOldestEmbeds(rows: seq<Row>, n: nat)
    ensures Embeds(DropOldest(rows, n), rows)
  {
    if rows == [] || n == 0 {
      EmbedsSelf(rows);
    } else if rows[0].status.Terminal() {
      DropOldestEmbeds(rows[1..], n - 1);
    } else {
      DropOldestEmbeds(rows[1..], n);
      assert ([rows[0]] + DropOldest(rows[1..], n))[1..] == DropOldest(rows[1..], n);
    }
  }

  lemma {:induction false} DropFinishedEmbeds(rows: seq<Row>, id: string)
    ensures Embeds(DropFinished(rows, id), rows)
    ensures TerminalCount(DropFinished(rows, id)) <= TerminalCount(rows)
  {
    if rows != [] {
      TerminalCountFront(rows);
      if rows[0].updateID == id && rows[0].status.Terminal() {
        EmbedsSelf(rows[1..]);
      } else {
        DropFinishedEmbeds(rows[1..], id);
        var rest := DropFinished(rows[1..], id);
        TerminalCountFront([rows[0]] + rest);
        assert ([rows[0]] + rest)[1..] == rest;
      }
    }
  }

  lemma {:induction false} DropFinishedMembers(rows: seq<Row>, id: string, r: Row)
    requires UniqueIDs(rows)
    ensures r in DropFinished(rows, id) <==> r in rows && !(r.updateID == id && r.status.Terminal())
  {
    if rows != [] {
      assert rows == [rows[0]] + rows[1..];
      if rows[0].updateID == id && rows[0].status.Terminal() {
        assert forall k :: 1 <= k < |rows| ==> rows[k].updateID != id;
      } else {
        DropFinishedMembers(rows[1..], id, r);
      }
    }
  }

  lemma {:induction false} EmbeddedMembers(sub: seq<Row>, rows: seq<Row>)
    requires Embeds(sub, rows)
    ensures forall r :: r in sub ==> r in rows
  {
    if sub != [] {
      if sub[0] == rows[0] && Embeds(sub[1..], rows[1..]) {
        EmbeddedMembers(sub[1..], rows[1..]);
        assert sub == [sub[0]] + sub[1..];
      } else {
        EmbeddedMembers(sub, rows[1..]);
      }
    }
  }

  lemma {:induction false} EmbeddedKeepsInv(sub: seq<Row>, rows: seq<Row>)
    requires Embeds(sub, rows)
    ensures UniqueIDs(rows) ==> UniqueIDs(sub)
    ensures OnePendingPerJob(rows) ==> OnePendingPerJob(sub)
  {
    if sub != [] {
      if sub[0] == rows[0] && Embeds(sub[1..], rows[1..]) {
        EmbeddedKeepsInv(sub[1..], rows[1..]);
        EmbeddedMembers(sub[1..], rows[1..]);
        forall j | 1 <= j < |sub|
          ensures exists k :: 1 <= k < |rows| && rows[k] == sub[j]
        {
          assert sub[1..][j - 1] in rows[1..];
        }
      } else {
        EmbeddedKeepsInv(sub, rows[1..]);
      }
    }
  }

  /** Pruning: at most the cap of finished rows is left, the ones dropped are exactly the oldest
      in excess, no unfinished row is dropped and the relative order is kept. */
  lemma PruneExact(rows: seq<Row>)
    ensures |Terminals(Prune(rows))| <= |Terminals(rows)|
    ensures Terminals(Prune(rows)) == Terminals(rows)[|Terminals(rows)| - |Terminals(Prune(rows))|..]
    ensures |Terminals(Prune(rows))| == if |Terminals(rows)| <= MAX_TERMINAL then |Terminals(rows)| else MAX_TERMINAL
    ensures Unfinished(Prune(rows)) == Unfinished(rows)
    ensures Embeds(Prune(rows), rows)
    ensures TerminalCount(Prune(rows)) <= MAX_TERMINAL
  {
    CountIsTerminals(rows);
    CountIsTerminals(Prune(rows));
    DropOldestExact(rows, Excess(rows));
    DropOldestEmbeds(rows, Excess(rows));
  }

  lemma {:induction false} InUnfinished(rows: seq<Row>, r: Row)
    ensures r in Unfinished(rows) <==> r in rows && !r.status.Terminal()
  {
    if rows != [] {
      InUnfinished(rows[1..], r);
      assert rows == [rows[0]] + rows[1..];
    }
  }

  /** Pruning keeps every unfinished row. */
  lemma PruneKeeps(rows: seq<Row>, r: Row)
    requires !r.status.Terminal()
    ensures r in Prune(rows) <==> r in rows
  {
    PruneExact(rows);
    InUnfinished(rows, r);
    InUnfinished(Prune(rows), r);
  }

  lemma {:induction false} TerminalCountUpdate(rows: seq<Row>, i: nat, r: Row)
    requires i < |rows|
    ensures TerminalCount(rows[i := r]) == TerminalCount(rows)
              - (if rows[i].status.Terminal() then 1 else 0) + if r.status.Terminal() then 1 else 0
  {
    var last := |rows| - 1;
    if i < last {
      TerminalCountUpdate(rows[..last], i, r);
      assert rows[i := r][..last] == rows[..last][i := r];
    } else {
      assert rows[i := r][..last] == rows[..last];
    }
  }

  lemma SupersedeClears(rows: seq<Row>, jobID: string)
    requires UniqueIDs(rows) && OnePendingPerJob(rows)
    ensures UniqueIDs(SupersedeJob(rows, jobID)) && OnePendingPerJob(SupersedeJob(rows, jobID))
    ensures forall r :: r in SupersedeJob(rows, jobID) ==> !(r.jobID == jobID && r.status.Pending?)
  {
    var a := SupersedeJob(rows, jobID);
    forall i | 0 <= i < |a| ensures a[i] == SupersedeRow(rows[i], jobID) && rows[i] in rows {
    }
  }

  lemma SupersedeKeepsFinished(rows: seq<Row>, jobID: string, id: string)
    requires forall r :: r in rows && r.updateID == id ==> r.status.Terminal()
    ensures forall r :: r in SupersedeJob(rows, jobID) && r.updateID == id ==> r.status.Terminal()
  {
    var a := SupersedeJob(rows, jobID);
    forall i | 0 <= i < |a| ensures a[i] == SupersedeRow(rows[i], jobID) && rows[i] in rows {
    }
  }

  /** The rows left to join a new update: none of its ID, none of its job waiting. */
  lemma DropClears(a: seq<Row>, id: string, jobID: string)
    requires UniqueIDs(a) && OnePendingPerJob(a)
    requires forall r :: r in a ==> !(r.jobID == jobID && r.status.Pending?)
    requires forall r :: r in a && r.updateID == id ==> r.status.Terminal()
    ensures UniqueIDs(DropFinished(a, id)) && OnePendingPerJob(DropFinished(a, id))
    ensures forall r :: r in DropFinished(a, id) ==> r.updateID != id && !(r.jobID == jobID && r.status.Pending?)
  {
    DropFinishedEmbeds(a, id);
    EmbeddedKeepsInv(DropFinished(a, id), a);
    forall r | r in DropFinished(a, id) ensures r in a && r.updateID != id {
      DropFinishedMembers(a, id, r);
    }
  }

  /** With no other row of its ID or waiting row of its job, a new last row keeps both rules. */
  lemma SnocKeepsInv(rows: seq<Row>, r: Row)
    requires UniqueIDs(rows) && OnePendingPerJob(rows)
    requires forall r0 :: r0 in rows ==> r0.updateID != r.updateID && !(r0.jobID == r.jobID && r0.status.Pending?)
    ensures UniqueIDs(rows + [r]) && OnePendingPerJob(rows + [r])
  {
  }

  /** Queue invariant, one appended row: the supersede leaves no other pending row of the job and
      the drop leaves no other row with the ID. */
  lemma AppendKeepsInv(rows: seq<Row>, u: Row)
    requires QueueInv(rows)
    requires forall r :: r in rows && r.updateID == u.updateID ==> r.status.Terminal()
    ensures QueueInv(Append(rows, u))
    ensures u.(status := Pending) in Append(rows, u)
  {
    var a := SupersedeJob(rows, u.jobID);
    var b := DropFinished(a, u.updateID);
    var entry := u.(status := Pending);
    SupersedeClears(rows, u.jobID);
    SupersedeKeepsFinished(rows, u.jobID, u.updateID);
    DropClears(a, u.updateID, u.jobID);
    SnocKeepsInv(b, entry);
    PruneExact(b + [entry]);
    EmbeddedKeepsInv(Prune(b + [entry]), b + [entry]);
    PruneKeeps(b + [entry], entry);
  }

  lemma EnqueueKeepsInv(rows: seq<Row>, u: Row)
    requires QueueInv(rows)
    ensures QueueInv(Enqueue(rows, u))
  {
    var i := FindID(rows, u.updateID);
    if i < |rows| && !rows[i].status.Terminal() {
      TerminalCountUpdate(rows, i, Refresh(rows[i], u));
    } else {
      AppendKeepsInv(rows, u);
    }
  }

  lemma HandOutKeepsInv(rows: seq<Row>)
    requires QueueInv(rows)
    ensures QueueInv(HandOut(rows))
  {
    var i := FindPending(rows);
    if i < |rows| {
      TerminalCountUpdate(rows, i, rows[i].(status := InProgress));
    }
  }

  lemma CompleteKeepsInv(rows: seq<Row>, id: string, status: Status, appliedIndex: nat, error: string, now: int)
    requires QueueInv(rows) && status.Terminal()
    ensures QueueInv(Complete(rows, id, status, appliedIndex, error, now))
  {
    var i := FindRunning(rows, id);
    if i < |rows| {
      var done := rows[i := Outcome(rows[i], status, appliedIndex, error, now)];
      assert UniqueIDs(done) && OnePendingPerJob(done);
      PruneExact(done);
      EmbeddedKeepsInv(Prune(done), done);
    }
  }

  // ---- Over every sequence of operations ----

  datatype QueueOp =
    | DoEnqueue(u: Row)
    | DoHandOut
    | DoComplete(id: string, status: Status, appliedIndex: nat, error: string, now: int)

  function RunOp(rows: seq<Row>, op: QueueOp): seq<Row> {
    match op
    case DoEnqueue(u) => Enqueue(rows, u)
    case DoHandOut => HandOut(rows)
    case DoComplete(id, status, idx, error, now) => Complete(rows, id, status, idx, error, now)
  }

  function RunOps(rows: seq<Row>, ops: seq<QueueOp>): seq<Row> {
    if ops == [] then rows else RunOp(RunOps(rows, ops[..|ops| - 1]), ops[|ops| - 1])
  }

  /** The applier only ever completes with a final status. */
  ghost predicate Proper(op: QueueOp) {
    op.DoComplete? ==> op.status.Terminal()
  }

  /** Over every operation sequence: unique IDs, at most one pending row per job, at most the
      cap of finished rows. */
  lemma {:induction false} QueueInvariant(ops: seq<QueueOp>)
    requires forall op :: op in ops ==> Proper(op)
    ensures QueueInv(RunOps([], ops))
  {
    if ops != [] {
      QueueInvariant(ops[..|ops| - 1]);
      var rows := RunOps([], ops[..|ops| - 1]);
      var op := ops[|ops| - 1];
      match op {
        case DoEnqueue(u) => EnqueueKeepsInv(rows, u);
        case DoHandOut => HandOutKeepsInv(rows);
        case DoComplete(id, status, idx, error, now) =>
          assert Proper(op);
          CompleteKeepsInv(rows, id, status, idx, error, now);
      }
    }
  }

  lemma {:induction false} PendingOfJobBound(rows: seq<Row>, jobID: string)
    requires OnePendingPerJob(rows)
    ensures PendingOfJob(rows, jobID) <= 1
    ensures PendingOfJob(rows, jobID) == 1 <==> exists r :: r in rows && r.jobID == jobID && r.status.Pending?
  {
    if rows != [] {
      var front, last := rows[..|rows| - 1], rows[|rows| - 1];
      assert rows == front + [last];
      PendingOfJobBound(front, jobID);
      if last.jobID == jobID && last.status.Pending? {
        assert forall r :: r in front ==> !(r.jobID == jobID && r.status.Pending?);
      }
    }
  }

  /** Over every operation sequence an enqueue supersedes at most one row, and counts one exactly if the update
      enters as a new row while another of its job waits. */
  lemma SupersedesAtMostOne(ops: seq<QueueOp>, u: Row)
    requires forall op :: op in ops ==> Proper(op)
    ensures SupersededBy(RunOps([], ops), u)
            == if !Busy(RunOps([], ops), u.updateID) && exists r :: r in RunOps([], ops) && r.jobID == u.jobID && r.status.Pending?
               then 1 else 0
  {
    var rows := RunOps([], ops);
    QueueInvariant(ops);
    PendingOfJobBound(rows, u.jobID);
    BusyExactly(rows, u.updateID);
  }

  lemma BusyExactly(rows: seq<Row>, id: string)
    requires UniqueIDs(rows)
    ensures Busy(rows, id) <==> Waiting(rows, id)
  {
    var i := FindID(rows, id);
    if i < |rows| {
      assert rows[i] in rows;
    }
    if b :| b in rows && b.updateID == id && !b.status.Terminal() {
      SameIDSameRow(rows, b, rows[i]);
    }
  }

  /** Two rows of a queue with one ID are one row. */
  lemma SameIDSameRow(rows: seq<Row>, r: Row, r': Row)
    requires UniqueIDs(rows) && r in rows && r' in rows && r.updateID == r'.updateID
    ensures r == r'
  {
  }

  /** The steps a row's status may take: waiting, a row is handed out or superseded; being applied, it ends;
      ended, it stays so. */
  ghost predicate MayBecome(a: Status, b: Status) {
    a == b
    || (a == Pending && b in {InProgress, Superseded})
    || (a == InProgress && b !in {Pending, InProgress})
  }

  lemma EnqueueForward(rows: seq<Row>, u: Row, r: Row, r': Row)
    requires QueueInv(rows) && r in rows && r' in Enqueue(rows, u) && r.updateID == r'.updateID
    ensures MayBecome(r.status, r'.status) || (r.status !in {Pending, InProgress} && r'.status == Pending && u.updateID == r.updateID)
  {
    EnqueueRecords(rows, u, r');
    hide Enqueue;
    if r'.updateID == u.updateID {
      if Busy(rows, u.updateID) {
        var was :| was in rows && was.updateID == u.updateID && !was.status.Terminal();
        SameIDSameRow(rows, r, was);
      }
      forall was | was in rows && was.updateID == u.updateID ensures was == r {
        SameIDSameRow(rows, r, was);
      }
    } else {
      var was :| was in rows && was.updateID == r'.updateID
                 && r' == if !Busy(rows, u.updateID) && was.status.Pending? && was.jobID == u.jobID
                          then was.(status := Superseded) else was;
      SameIDSameRow(rows, r, was);
    }
  }

  lemma HandOutForward(rows: seq<Row>, r: Row, r': Row)
    requires UniqueIDs(rows) && r in rows && r' in HandOut(rows) && r.updateID == r'.updateID
    ensures MayBecome(r.status, r'.status)
  {
    var k :| 0 <= k < |rows| && HandOut(rows)[k] == r';
    SameIDSameRow(rows, r, rows[k]);
  }

  lemma CompleteForward(rows: seq<Row>, id: string, st: Status, index: nat, error: string, now: int, r: Row, r': Row)
    requires UniqueIDs(rows) && st.Terminal()
    requires r in rows && r' in Complete(rows, id, st, index, error, now) && r.updateID == r'.updateID
    ensures MayBecome(r.status, r'.status)
  {
    CompleteMembers(rows, id, st, index, error, now, r');
    hide Complete;
    if r' in rows {
      SameIDSameRow(rows, r, r');
    }
  }

  /** A row's status never moves backwards. Only a retry starts over, and as a new row: it takes
      the ID over from a finished one. */
  lemma StatusForward(rows: seq<Row>, op: QueueOp, r: Row, r': Row)
    requires QueueInv(rows) && Proper(op)
    requires r in rows && r' in RunOp(rows, op) && r.updateID == r'.updateID
    ensures MayBecome(r.status, r'.status)
            || (r.status !in {Pending, InProgress} && r'.status == Pending && op.DoEnqueue? && op.u.updateID == r.updateID)
  {
    match op {
      case DoEnqueue(u) => EnqueueForward(rows, u, r, r');
      case DoHandOut => HandOutForward(rows, r, r');
      case DoComplete(id, status, idx, error, now) => CompleteForward(rows, id, status, idx, error, now, r, r');
    }
  }

  /** An unfinished row is never dropped: it is still there unfinished after any operation but the
      one that completes it and the one that supersedes it by another update of its job. */
  lemma UnfinishedStays(rows: seq<Row>, op: QueueOp, r: Row)
    requires QueueInv(rows) && r in rows && !r.status.Terminal()
    ensures (exists r' :: r' in RunOp(rows, op) && r'.updateID == r.updateID && !r'.status.Terminal())
            || (op.DoEnqueue? && op.u.jobID == r.jobID && op.u.updateID != r.updateID && r.status.Pending?)
            || (op.DoComplete? && op.id == r.updateID && r.status.InProgress?)
  {
    var k :| 0 <= k < |rows| && rows[k] == r;
    match op {
      case DoEnqueue(u) =>
        if Waiting(rows, u.updateID) {
          assert Enqueue(rows, u)[k] in Enqueue(rows, u);
        } else {
          assert FindID(rows, u.updateID) <= k ==> u.updateID != r.updateID || FindID(rows, u.updateID) == k;
          AppendMembers(rows, u, r);
        }
      case DoHandOut =>
        assert HandOut(rows)[k] in HandOut(rows);
      case DoComplete(id, status, idx, error, now) =>
        var i := FindRunning(rows, id);
        if i < |rows| && k != i {
          var done := rows[i := Outcome(rows[i], status, idx, error, now)];
          assert done[k] == r && r in done;
          PruneKeeps(done, r);
        }
    }
  }

  /** A row with this ID is waiting or being applied. */
  predicate Waiting(rows: seq<Row>, id: string) {
    var i := FindID(rows, id);
    i < |rows| && !rows[i].status.Terminal()
  }

  lemma CompleteMembers(rows: seq<Row>, id: string, status: Status, appliedIndex: nat, error: string, now: int, r: Row)
    requires r in Complete(rows, id, status, appliedIndex, error, now)
    ensures r in rows
            || (FindRunning(rows, id) < |rows|
                && r == Outcome(rows[FindRunning(rows, id)], status, appliedIndex, error, now))
  {
    var i := FindRunning(rows, id);
    if i < |rows| {
      var done := rows[i := Outcome(rows[i], status, appliedIndex, error, now)];
      PruneExact(done);
      EmbeddedMembers(Prune(done), done);
      var k :| 0 <= k < |done| && done[k] == r;
      assert k != i ==> rows[k] == r;
    }
  }

  // ---- What a completion records ----

  /** The row as an apply of it ended: with this status and error; applied at this time and at the new index
      only if it succeeded, the index only if there is one; else as it was when handed out. */
  ghost predicate EndedAs(r: Row, was: Row, status: Status, index: nat, error: string, now: int) {
    r.status == status && r.error == error
    && r.appliedAt == (if status == Succeeded then Some(now) else was.appliedAt)
    && r.modifyIndex == (if status == Succeeded && index > 0 then index else was.modifyIndex)
    && r == was.(status := r.status, error := r.error, appliedAt := r.appliedAt, modifyIndex := r.modifyIndex)
  }

  /** Completing a running row: as long as its ID is listed, it carries how the apply ended, and no other row
      changes. */
  lemma CompleteRecords(rows: seq<Row>, was: Row, status: Status, index: nat, error: string, now: int, r: Row)
    requires UniqueIDs(rows) && was in rows && was.status.InProgress?
    requires r in Complete(rows, was.updateID, status, index, error, now)
    ensures if r.updateID == was.updateID then EndedAs(r, was, status, index, error, now) else r in rows
  {
    var i := FindRunning(rows, was.updateID);
    var k :| 0 <= k < |rows| && rows[k] == was;
    assert i == k;
    CompleteMembers(rows, was.updateID, status, index, error, now, r);
    hide Complete;
    if r.updateID == was.updateID {
      StillThere(rows, k, status, index, error, now, r);
    }
  }

  lemma StillThere(rows: seq<Row>, k: nat, status: Status, index: nat, error: string, now: int, r: Row)
    requires UniqueIDs(rows) && k < |rows| && k == FindRunning(rows, rows[k].updateID) && r.updateID == rows[k].updateID
    requires r in Complete(rows, rows[k].updateID, status, index, error, now)
    ensures r == Outcome(rows[k], status, index, error, now)
  {
    var done := rows[k := Outcome(rows[k], status, index, error, now)];
    PruneExact(done);
    EmbeddedMembers(Prune(done), done);
    var m :| 0 <= m < |done| && done[m] == r;
    assert m == k;
  }

  // ---- The rows that wait ----

  /** The waiting rows, in queue order. */
  function Waitings(rows: seq<Row>): seq<Row> {
    if rows == [] then []
    else if rows[0].status.Pending? then [rows[0]] + Waitings(rows[1..])
    else Waitings(rows[1..])
  }

  lemma {:induction false} WaitingsUpdate(rows: seq<Row>, i: nat, r: Row)
    requires i < |rows| && !rows[i].status.Pending? && !r.status.Pending?
    ensures Waitings(rows[i := r]) == Waitings(rows)
  {
    if i > 0 {
      WaitingsUpdate(rows[1..], i - 1, r);
      assert rows[i := r][1..] == rows[1..][i - 1 := r];
    } else {
      assert rows[i := r][1..] == rows[1..];
    }
  }

  lemma {:induction false} WaitingsDrop(rows: seq<Row>, n: nat)
    ensures Waitings(DropOldest(rows, n)) == Waitings(rows)
  {
    if rows != [] && n > 0 {
      if rows[0].status.Terminal() {
        WaitingsDrop(rows[1..], n - 1);
      } else {
        WaitingsDrop(rows[1..], n);
        var rest := DropOldest(rows[1..], n);
        assert ([rows[0]] + rest)[1..] == rest;
      }
    }
  }

  lemma {:induction false} WaitingsHandOut(rows: seq<Row>)
    requires FindPending(rows) < |rows|
    ensures Waitings(rows) == [rows[FindPending(rows)]] + Waitings(HandOut(rows))
  {
    var i := FindPending(rows);
    if i > 0 {
      WaitingsHandOut(rows[1..]);
      assert FindPending(rows[1..]) == i - 1;
      assert HandOut(rows)[1..] == HandOut(rows[1..]);
    } else {
      assert HandOut(rows)[1..] == rows[1..];
    }
  }

  lemma {:induction false} NoneWaiting(rows: seq<Row>)
    ensures FindPending(rows) == |rows| <==> Waitings(rows) == []
  {
    if rows != [] {
      NoneWaiting(rows[1..]);
    }
  }

  lemma WaitingsComplete(rows: seq<Row>, id: string, st: Status, index: nat, error: string, now: int)
    requires st.Terminal()
    ensures Waitings(Complete(rows, id, st, index, error, now)) == Waitings(rows)
  {
    var i := FindRunning(rows, id);
    if i < |rows| {
      var done := rows[i := Outcome(rows[i], st, index, error, now)];
      WaitingsUpdate(rows, i, Outcome(rows[i], st, index, error, now));
      WaitingsDrop(done, Excess(done));
    }
  }

  lemma {:induction false} PendingIsWaitings(rows: seq<Row>)
    ensures PendingCount(rows) == |Waitings(rows)|
  {
    if rows != [] {
      var front, last := rows[..|rows| - 1], rows[|rows| - 1];
      PendingIsWaitings(front);
      WaitingsSnoc(front, last);
      assert rows == front + [last];
    }
  }

  lemma {:induction false} WaitingsSnoc(rows: seq<Row>, r: Row)
    ensures Waitings(rows + [r]) == Waitings(rows) + if r.status.Pending? then [r] else []
  {
    if rows != [] {
      WaitingsSnoc(rows[1..], r);
      assert (rows + [r])[1..] == rows[1..] + [r];
    }
  }

  lemma {:induction false} InWaitings(rows: seq<Row>, r: Row)
    ensures r in Waitings(rows) <==> r in rows && r.status.Pending?
  {
    if rows != [] {
      InWaitings(rows[1..], r);
      assert rows == [rows[0]] + rows[1..];
    }
  }

  // ---- How long the oldest unfinished row has waited ----

  predicate WaitsSince(r: Row, t: int) {
    !r.status.Terminal() && r.detectedAt == Some(t)
  }

  /** The earliest detection time among the unfinished rows, 0 when there is none. Time 0, the zero
      timestamp, doubles as "none seen yet". */
  function OldestSeen(rows: seq<Row>): int {
    if rows == [] then 0
    else
      var oldest, r := OldestSeen(rows[..|rows| - 1]), rows[|rows| - 1];
      if r.status.Terminal() || r.detectedAt.None? then oldest
      else if oldest == 0 || r.detectedAt.value < oldest then r.detectedAt.value
      else oldest
  }

  function QueueAge(rows: seq<Row>, now: int): nat {
    var oldest := OldestSeen(rows);
    if oldest == 0 || now - oldest <= 0 then 0 else now - oldest
  }

  lemma {:induction false} OldestSeenIsEarliest(rows: seq<Row>)
    requires forall r :: r in rows ==> r.detectedAt != Some(0)
    ensures forall r, t :: r in rows && WaitsSince(r, t) ==> OldestSeen(rows) != 0 && OldestSeen(rows) <= t
    ensures OldestSeen(rows) != 0 ==> exists r :: r in rows && WaitsSince(r, OldestSeen(rows))
  {
    if rows != [] {
      var front, last := rows[..|rows| - 1], rows[|rows| - 1];
      assert rows == front + [last];
      OldestSeenIsEarliest(front);
      if last.detectedAt.Some? {
        assert last in rows;
        assert !last.status.Terminal() ==> WaitsSince(last, last.detectedAt.value);
      }
    }
  }

  /** The age is that of a row that waits, and no waiting row is older, unless a stored detection
      time is the zero timestamp itself. */
  lemma QueueAgeIsOldest(rows: seq<Row>, now: int)
    requires forall r :: r in rows ==> r.detectedAt != Some(0)
    ensures QueueAge(rows, now) > 0 ==> exists r :: r in rows && WaitsSince(r, now - QueueAge(rows, now))
    ensures forall r, t :: r in rows && WaitsSince(r, t) ==> now - t <= QueueAge(rows, now)
  {
    OldestSeenIsEarliest(rows);
  }

  // ---- What an enqueue does to the rows that are there ----

  /** A row being applied is in the queue, field for field, after any enqueue. */
  lemma EnqueueKeepsRunning(rows: seq<Row>, u: Row, r: Row)
    requires QueueInv(rows) && r.status.InProgress?
    ensures r in Enqueue(rows, u) <==> r in rows
  {
    var i := FindID(rows, u.updateID);
    if i < |rows| && !rows[i].status.Terminal() {
      var after := rows[i := Refresh(rows[i], u)];
      if r in rows {
        var k :| 0 <= k < |rows| && rows[k] == r;
        assert rows[i].status.Pending? ==> after[k] == r;
      }
      if r in after {
        var k :| 0 <= k < |after| && after[k] == r;
        assert rows[i].status.Pending? ==> k != i && rows[k] == r;
      }
    } else {
      AppendMembers(rows, u, r);
    }
  }

  /** The unfinished rows after an append: the new row, and the old ones no longer superseded. */
  lemma AppendMembers(rows: seq<Row>, u: Row, r: Row)
    requires UniqueIDs(rows) && !r.status.Terminal()
    ensures r in Append(rows, u)
            <==> r == u.(status := Pending) || (r in rows && !(r.jobID == u.jobID && r.status.Pending?))
  {
    var a := SupersedeJob(rows, u.jobID);
    var b := DropFinished(a, u.updateID);
    assert UniqueIDs(a);
    DropFinishedMembers(a, u.updateID, r);
    PruneKeeps(b + [u.(status := Pending)], r);
    if r in a {
      var k :| 0 <= k < |a| && a[k] == r;
      assert rows[k] == r;
    }
    if r in rows && !(r.jobID == u.jobID && r.status.Pending?) {
      var k :| 0 <= k < |rows| && rows[k] == r;
      assert a[k] == r;
    }
  }

  /** Where a pending row after an enqueue comes from: it was there, it is the refreshed row,
      or it is the new row. */
  lemma EnqueuePending(rows: seq<Row>, u: Row, r: Row)
    requires QueueInv(rows) && r in Enqueue(rows, u) && r.status.Pending?
    ensures r in rows
            || (exists waiting :: waiting in rows && waiting.status.Pending? && waiting.updateID == u.updateID
                                  && r == Refresh(waiting, u))
            || r == u.(status := Pending)
  {
    var i := FindID(rows, u.updateID);
    if i < |rows| && !rows[i].status.Terminal() {
      if rows[i].status.Pending? {
        var k :| 0 <= k < |rows| && rows[i := Refresh(rows[i], u)][k] == r;
        assert rows[i] in rows;
        assert k != i ==> rows[k] == r;
      }
    } else {
      AppendMembers(rows, u, r);
    }
  }

  /** A row with the ID waits or is being applied. */
  ghost predicate Busy(rows: seq<Row>, id: string) {
    exists b :: b in rows && b.updateID == id && !b.status.Terminal()
  }

  /** The row took the definition, the indexes and the kept counts of an update, and nothing else. */
  ghost predicate RefreshedBy(r: Row, was: Row, u: Row) {
    r.modifyIndex == u.modifyIndex && r.raftIndex == u.raftIndex && r.job == u.job && r.preserveCounts == u.preserveCounts
    && r == was.(modifyIndex := r.modifyIndex, raftIndex := r.raftIndex, job := r.job, preserveCounts := r.preserveCounts)
  }

  /** Every row after an enqueue told by the rows before: under the update's ID the new row, the refreshed
      waiting row or the running row; under any other the row that was there, marked as superseded exactly
      if it waited for the same job and the update entered as a new row. */
  lemma EnqueueRecords(rows: seq<Row>, u: Row, r: Row)
    requires UniqueIDs(rows) && r in Enqueue(rows, u)
    ensures r.updateID == u.updateID ==>
              (!Busy(rows, u.updateID) && r == u.(status := Pending))
              || (exists was :: was in rows && was.updateID == u.updateID && was.status.Pending? && RefreshedBy(r, was, u))
              || (r in rows && r.status.InProgress?)
    ensures r.updateID != u.updateID ==>
              exists was :: was in rows && was.updateID == r.updateID
                && r == if !Busy(rows, u.updateID) && was.status.Pending? && was.jobID == u.jobID
                        then was.(status := Superseded) else was
  {
    var i := FindID(rows, u.updateID);
    BusyExactly(rows, u.updateID);
    if Busy(rows, u.updateID) {
      assert rows[i] in rows;
      var k :| 0 <= k < |rows| && Enqueue(rows, u)[k] == r;
      assert k != i ==> rows[k] == r && rows[k] in rows;
    } else {
      AppendSources(rows, u, r);
    }
  }

  lemma AppendSources(rows: seq<Row>, u: Row, r: Row)
    requires UniqueIDs(rows) && r in Append(rows, u) && forall b :: b in rows && b.updateID == u.updateID ==> b.status.Terminal()
    ensures r == u.(status := Pending)
            || (r.updateID != u.updateID
                && exists was :: was in rows && was.updateID == r.updateID
                     && r == if was.status.Pending? && was.jobID == u.jobID then was.(status := Superseded) else was)
  {
    var a := SupersedeJob(rows, u.jobID);
    var b := DropFinished(a, u.updateID);
    assert UniqueIDs(a);
    PruneExact(b + [u.(status := Pending)]);
    EmbeddedMembers(Prune(b + [u.(status := Pending)]), b + [u.(status := Pending)]);
    if r != u.(status := Pending) {
      DropFinishedMembers(a, u.updateID, r);
      var k :| 0 <= k < |a| && a[k] == r;
      assert rows[k] in rows;
    }
  }

  /** A repeated detection never changes what a waiting row is going to do: a waiting deregister
      that is refreshed by a register of the same ID stays a deregister. So after the enqueue the
      row with the ID does what was asked exactly when no row of another operation was waiting or
      running under that ID. */
  lemma EnqueueOperation(rows: seq<Row>, u: Row)
    requires QueueInv(rows)
    ensures (exists r :: r in Enqueue(rows, u) && r.updateID == u.updateID && r.operation == u.operation && !r.status.Terminal())
            <==> (forall r :: r in rows && r.updateID == u.updateID && !r.status.Terminal() ==> r.operation == u.operation)
  {
    var i := FindID(rows, u.updateID);
    var after := Enqueue(rows, u);
    if i < |rows| && !rows[i].status.Terminal() {
      assert rows[i] in rows;
      var now := if rows[i].status.Pending? then Refresh(rows[i], u) else rows[i];
      assert after[i] == now && now in after;
      forall r | r in rows && r.updateID == u.updateID ensures r == rows[i] {
        var k :| 0 <= k < |rows| && rows[k] == r;
      }
      forall r | r in after && r.updateID == u.updateID ensures r == now {
        var k :| 0 <= k < |after| && after[k] == r;
        assert k != i ==> rows[k] == r;
      }
    } else {
      AppendKeepsInv(rows, u);
      assert u.(status := Pending) in after;
      forall r | r in rows && r.updateID == u.updateID ensures r.status.Terminal() {
        var k :| 0 <= k < |rows| && rows[k] == r;
      }
    }
  }

  /** A waiting register knows what to register. */
  ghost predicate RegistersHaveJobs(rows: seq<Row>) {
    forall r :: r in rows && r.status.Pending? && r.operation.Register? ==> r.job.Some?
  }

  /** The refresh of a waiting row copies the job of the new update but not its operation. So a register
      that waits loses its job, and will fail, exactly when an update without one is enqueued under
      its ID. */
  lemma EnqueueKeepsJobs(rows: seq<Row>, u: Row)
    requires QueueInv(rows) && RegistersHaveJobs(rows) && (u.operation.Register? <==> u.job.Some?)
    ensures RegistersHaveJobs(Enqueue(rows, u))
            <==> u.operation.Register?
                 || forall r :: r in rows && r.updateID == u.updateID && r.status.Pending? ==> !r.operation.Register?
  {
    hide Append;
    var i := FindID(rows, u.updateID);
    if r :| r in rows && r.updateID == u.updateID && r.status.Pending? && r.operation.Register? {
      var k :| 0 <= k < |rows| && rows[k] == r;
      assert i == k;
      assert Enqueue(rows, u)[i] == Refresh(r, u);
      assert Refresh(r, u) in Enqueue(rows, u);
    }
    forall r | r in Enqueue(rows, u) && r.status.Pending? && r.operation.Register? && r.job.None?
      ensures u.job.None? && exists r0 :: r0 in rows && r0.updateID == u.updateID && r0.status.Pending? && r0.operation.Register?
    {
      EnqueuePending(rows, u, r);
    }
  }
}
