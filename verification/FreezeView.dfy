/** The cached view of the freeze store, and the writes an operator makes through it. */
module FreezeViews {
  import opened Wrappers
  import opened Text
  import opened Freezes
  import opened GraceClock
  import Protocol

  /** The jobs the records hold: those with a record in force. */
  function HeldJobs(records: seq<FreezeRecord>): set<string> {
    set r | r in records && r.state.InForce() :: r.jobID
  }

  function ClassifyAll(records: seq<FreezeRecord>, now: int): (out: seq<FreezeRecord>)
    ensures |out| == |records|
    ensures forall i :: 0 <= i < |out| ==> out[i] == Classified(records[i], now)
  {
    seq(|records|, i requires 0 <= i < |records| => Classified(records[i], now))
  }

  lemma NoneHeld()
    ensures HeldJobs([]) == {}
  {
  }

  lemma OneMoreHeld(records: seq<FreezeRecord>, r: FreezeRecord)
    ensures HeldJobs(records + [r]) == HeldJobs(records) + if r.state.InForce() then {r.jobID} else {}
  {
  }

  /** The modify index a write for a job enforces: that of the first record naming it, 0 to create. */
  function TokenFor(records: seq<FreezeRecord>, jobID: string): nat {
    if records == [] then 0
    else if records[0].jobID == jobID then records[0].modifyIndex
    else TokenFor(records[1..], jobID)
  }

  lemma {:induction false} TokenIsRead(records: seq<FreezeRecord>, jobID: string)
    ensures TokenFor(records, jobID) != 0 ==>
              exists r :: r in records && r.jobID == jobID && r.modifyIndex == TokenFor(records, jobID)
    ensures forall i :: 0 <= i < |records| && records[i].jobID == jobID && (forall k :: 0 <= k < i ==> records[k].jobID != jobID) ==>
              TokenFor(records, jobID) == records[i].modifyIndex
  {
    if records != [] {
      if records[0].jobID == jobID {
        assert records[0] in records;
      } else {
        TokenIsRead(records[1..], jobID);
        assert records == [records[0]] + records[1..];
      }
    }
  }

  datatype PutResult = Stored(v: Variable) | Conflict | StoreError

  // A request to the store with its answer. Of a write it also says what stood at the path, and whether
  // it landed, which its sender need not learn.
  datatype Ask =
    | PutAsk(v: Variable, token: nat, prior: Option<Variable>, landed: bool, answer: PutResult)
    | DeleteAsk(path: string, ok: bool)
    | ListAsk(listed: Option<seq<FreezeRecord>>)

  /** The record was read from this version of a variable. */
  ghost predicate ReadFrom(rec: FreezeRecord, v: Variable) {
    rec.jobID == JobNamed(v) && rec.path == v.path && rec.modifyIndex == v.modifyIndex
  }

  /** A record with an index was read from some version; one without could not be read. */
  ghost predicate Backed(records: seq<FreezeRecord>, ever: set<Variable>) {
    forall r :: r in records && r.modifyIndex != 0 ==> exists v :: v in ever && ReadFrom(r, v)
  }

  lemma BackedLater(records: seq<FreezeRecord>, ever: set<Variable>, later: set<Variable>)
    requires Backed(records, ever) && ever <= later
    ensures Backed(records, later)
  {
    hide ReadFrom;
  }

  lemma ClassifiedBacked(records: seq<FreezeRecord>, now: int, ever: set<Variable>)
    requires Backed(records, ever)
    ensures Backed(ClassifyAll(records, now), ever)
  {
    hide JobNamed;
    var out := ClassifyAll(records, now);
    forall r | r in out && r.modifyIndex != 0 ensures exists v :: v in ever && ReadFrom(r, v) {
      var i :| 0 <= i < |out| && out[i] == r;
      assert records[i] in records;
      var v :| v in ever && ReadFrom(records[i], v);
      assert ReadFrom(r, v);
    }
  }

  lemma IsReadFrom(parse: string -> Option<int>, v: Variable)
    ensures ReadFrom(RecordFromVariable(parse, v), v)
  {
    ReadBack(parse, v);
    hide RecordFromVariable;
    hide JobNamed;
  }

  /** The records after some requests: what the last good read among them returned. */
  function RecordsAfter(records: seq<FreezeRecord>, talk: seq<Ask>, now: int): seq<FreezeRecord> {
    if talk == [] then records
    else
      var last := talk[|talk| - 1];
      if last.ListAsk? && last.listed.Some? then ClassifyAll(last.listed.value, now)
      else RecordsAfter(records, talk[..|talk| - 1], now)
  }

  lemma RecordsAfterMore(records: seq<FreezeRecord>, talk: seq<Ask>, a: Ask, now: int)
    ensures RecordsAfter(records, talk + [a], now)
            == if a.ListAsk? && a.listed.Some? then ClassifyAll(a.listed.value, now) else RecordsAfter(records, talk, now)
  {
    assert (talk + [a])[..|talk|] == talk;
  }

  /** The Nomad Variables of the freeze prefix. Other clients write to them at any time. `ever` has every
      version that ever stood there; every write gives an index above all before. */
  class VariableStore {
    var vars: map<string, Variable>
    var index: nat
    var asks: seq<Ask>
    ghost var ever: set<Variable>

    ghost predicate Valid()
      reads `vars, `index, `ever
    {
      && (forall p :: p in vars ==> vars[p].path == p && vars[p] in ever)
      && (forall v :: v in ever ==> 0 < v.modifyIndex <= index)
      && forall u, v :: u in ever && v in ever && u.modifyIndex == v.modifyIndex ==> u == v
    }

    /** What other clients may do meanwhile: any writes and deletes, one after the other. */
    method Others()
      requires Valid()
      modifies `vars, `index, `ever
      ensures Valid() && old(ever) <= ever && old(index) <= index
      ensures forall v :: v in ever - old(ever) ==> v.modifyIndex > old(index)
    {
      var rounds: nat := *;
      while rounds > 0
        invariant Valid() && old(ever) <= ever && old(index) <= index
        invariant forall v :: v in ever - old(ever) ==> v.modifyIndex > old(index)
      {
        var v: Variable := *;
        var removes: bool := *;
        if removes {
          vars, index := vars - {v.path}, index + 1;
        } else {
          v := Stamp(v);
        }
        rounds := rounds - 1;
      }
    }

    /** A version enters the store. */
    method Stamp(v: Variable) returns (stored: Variable)
      requires Valid()
      modifies `vars, `index, `ever
      ensures Valid() && index == old(index) + 1
      ensures stored == v.(createTime := stored.createTime, modifyIndex := index)
      ensures vars == old(vars)[v.path := stored] && ever == old(ever) + {stored}
    {
      index := index + 1;
      var created: int := *;
      stored := v.(createTime := if v.path in vars then vars[v.path].createTime else created, modifyIndex := index);
      vars, ever := vars[v.path := stored], ever + {stored};
    }

    /** The check and the write in one: token 0 creates, any other must be the variable's index. */
    method Land(v: Variable, token: nat, fails: bool, lost: bool) returns (r: PutResult)
      requires Valid()
      modifies this
      ensures Valid() && old(ever) <= ever
      ensures |asks| == |old(asks)| + 1 && asks[..|old(asks)|] == old(asks)
      ensures var a := asks[|old(asks)|];
              a.PutAsk? && a.v == v && a.token == token && a.answer == r
              && a.prior == (if v.path in old(vars) then Some(old(vars)[v.path]) else None)
              && (a.landed <==> !fails && if token == 0 then a.prior.None? else a.prior.Some? && a.prior.value.modifyIndex == token)
              && (if a.landed then v.path in vars && vars == old(vars)[v.path := vars[v.path]]
                                   && vars[v.path] == v.(createTime := vars[v.path].createTime, modifyIndex := index)
                  else vars == old(vars))
              && r == (if fails || (a.landed && lost) then StoreError else if a.landed then Stored(vars[v.path]) else Conflict)
    {
      var prior := if v.path in vars then Some(vars[v.path]) else None;
      var landed := !fails && Fits(token, prior);
      r := if fails then StoreError else Conflict;
      if landed {
        var stored := Stamp(v);
        r := if lost then StoreError else Stored(stored);
      }
      asks := asks + [PutAsk(v, token, prior, landed, r)];
    }

    /** A check-and-set write. The request or the answer may be lost. */
    method CheckedPut(v: Variable, token: nat) returns (r: PutResult, ghost a: Ask)
      requires Valid()
      modifies this
      ensures Valid() && old(ever) <= ever && asks == old(asks) + [a]
      ensures PutBy(a, v, token) && a.answer == r && (a.prior.Some? ==> a.prior.value in ever)
    {
      Others();
      var fails: bool, lost: bool := *, *;
      r := Land(v, token, fails, lost);
      a := asks[|old(asks)|];
      assert asks == old(asks) + [a];
    }

    /** Deleting what is not there is no error. */
    method Delete(path: string) returns (ok: bool)
      requires Valid()
      modifies this
      ensures Valid() && old(ever) <= ever && asks == old(asks) + [DeleteAsk(path, ok)]
      ensures ok ==> path !in vars
    {
      Others();
      ok := *;
      if ok {
        vars, index := vars - {path}, index + 1;
      }
      asks := asks + [DeleteAsk(path, ok)];
    }

    /** Reads one listed record; between listing and reading it may have changed or gone. */
    method ReadRecord(parse: string -> Option<int>, path: string) returns (rec: FreezeRecord)
      requires Valid()
      modifies `vars, `index, `ever
      ensures Valid() && old(ever) <= ever && rec.path == path && Backed([rec], ever)
      ensures rec == UnreadableRecord(path) || (path in vars && rec == RecordFromVariable(parse, vars[path]))
    {
      hide RecordFromVariable;
      Others();
      var readable: bool := *;
      if readable && path in vars {
        rec := RecordFromVariable(parse, vars[path]);
        IsReadFrom(parse, vars[path]);
        hide ReadFrom;
        assert vars[path] in ever;
      } else {
        rec := UnreadableRecord(path);
      }
    }

    /** Every record under the prefix. One that cannot be read is returned as malformed, not left out:
        it must not fail open. None when the listing itself failed. */
    method List(parse: string -> Option<int>) returns (listed: Option<seq<FreezeRecord>>)
      requires Valid()
      modifies this
      ensures Valid() && old(ever) <= ever && asks == old(asks) + [ListAsk(listed)]
      ensures listed.Some? ==> Backed(listed.value, ever) && RecordsAt(listed.value, old(vars).Keys)
    {
      var fails: bool := *;
      if fails {
        asks := asks + [ListAsk(None)];
        return None;
      }
      hide *;
      ghost var paths := vars.Keys;
      var left := vars.Keys;
      var out: seq<FreezeRecord> := [];
      NoRecords(ever, paths);
      while left != {}
        invariant Valid() && old(ever) <= ever && asks == old(asks) && left <= paths
        invariant Backed(out, ever) && RecordsAt(out, paths - left)
        decreases |left|
      {
        var p :| p in left;
        ghost var before := ever;
        var r := ReadRecord(parse, p);
        BackedLater(out, before, ever);
        OneMoreRecord(out, r, ever, paths - left);
        assert paths - (left - {p}) == paths - left + {p};
        out := out + [r];
        left := left - {p};
      }
      assert paths - left == paths;
      asks := asks + [ListAsk(Some(out))];
      return Some(out);
    }
  }

  /** One record at least at each of these paths, and none elsewhere. */
  ghost predicate RecordsAt(records: seq<FreezeRecord>, paths: set<string>) {
    (set r | r in records :: r.path) == paths
  }

  lemma NoRecords(ever: set<Variable>, paths: set<string>)
    ensures Backed([], ever) && RecordsAt([], paths - paths)
  {
  }

  lemma OneMoreRecord(records: seq<FreezeRecord>, r: FreezeRecord, ever: set<Variable>, paths: set<string>)
    requires Backed(records, ever) && Backed([r], ever) && RecordsAt(records, paths)
    ensures Backed(records + [r], ever) && RecordsAt(records + [r], paths + {r.path})
  {
    hide ReadFrom;
    assert r in [r];
    var more := records + [r];
    forall p ensures p in (set x | x in more :: x.path) <==> p in paths + {r.path} {
      if p in paths {
        var x :| x in records && x.path == p;
        assert x in more;
      }
    }
  }

  predicate Fits(token: nat, prior: Option<Variable>) {
    if token == 0 then prior.None? else prior.Some? && prior.value.modifyIndex == token
  }

  /** A write that was asked for: it lands only where it fits, and its sender learns of a landing or of a
      lost race only when there was one. */
  ghost predicate PutBy(a: Ask, v: Variable, token: nat) {
    a.PutAsk? && a.v == v && a.token == token
    && (a.prior.Some? ==> a.prior.value.path == v.path)
    && (a.landed ==> Fits(token, a.prior))
    && (a.answer.Stored? ==> a.landed && a.answer.v == v.(createTime := a.answer.v.createTime, modifyIndex := a.answer.v.modifyIndex))
    && (a.answer.Conflict? ==> !a.landed && !Fits(token, a.prior))
  }

  /** The totals when the jobs `done` have been looked at. */
  ghost predicate Accrued(total: map<string, int>, c: Clock, done: set<string>, now: int) {
    (forall j :: j in total <==> j in c.accrued || (j in done && j in c.heldSince))
    && forall j :: j in total ==> total[j] == At(c.accrued, j) + if j in done && j in c.heldSince then now - c.heldSince[j] else 0
  }

  lemma AccruedNone(c: Clock, now: int)
    ensures Accrued(c.accrued, c, {}, now)
  {
  }

  lemma AccrueOne(total: map<string, int>, c: Clock, done: set<string>, j: string, now: int)
    requires Accrued(total, c, done, now) && j !in done
    ensures j in c.heldSince ==> Accrued(total[j := At(total, j) + (now - c.heldSince[j])], c, done + {j}, now)
    ensures j !in c.heldSince ==> Accrued(total, c, done + {j}, now)
  {
  }

  lemma AccruedAll(total: map<string, int>, since: map<string, int>, c: Clock, held: set<string>, now: int)
    requires Accrued(total, c, held, now)
    requires since.Keys == held && forall j :: j in since ==> since[j] == now
    ensures GraceClock.Clock(since, total) == AfterRead(c, held, now)
  {
    var after := AfterRead(c, held, now);
    assert since == after.heldSince;
    assert total == after.accrued;
  }

  /** A job frozen now and at the last read was frozen in between. */
  method Accrue(c: Clock, held: set<string>, now: int) returns (next: Clock)
    ensures next == AfterRead(c, held, now)
  {
    hide Accrued;
    hide AfterRead;
    var left := held;
    var total, since: map<string, int> := c.accrued, map[];
    AccruedNone(c, now);
    assert held - left == {};
    while left != {}
      invariant left <= held
      invariant since.Keys == held - left && forall j :: j in since ==> since[j] == now
      invariant Accrued(total, c, held - left, now)
      decreases |left|
    {
      var j :| j in left;
      AccrueOne(total, c, held - left, j, now);
      if j in c.heldSince {
        total := total[j := At(total, j) + (now - c.heldSince[j])];
      }
      since := since[j := now];
      assert held - (left - {j}) == held - left + {j};
      left := left - {j};
    }
    assert held - left == held;
    AccruedAll(total, since, c, held, now);
    return GraceClock.Clock(since, total);
  }

  /** What withholds a write to a job after a read of the store, told by the records it listed: one that names
      this job and is malformed, without an expiry or not expired at the read, or the age of the read
      where there is a limit and the operator did not choose to fail open. Without a read, nothing. */
  lemma BlockedExactly(w: Protocol.World, listed: seq<FreezeRecord>, readAt: int, jobID: string, now: int)
    ensures Protocol.Blocked(w, Some(Protocol.View(readAt, HeldJobs(ClassifyAll(listed, readAt)))), jobID, now)
            <==> (exists r :: r in listed && r.jobID == jobID && (r.issue != "" || r.expiresAt == 0 || r.expiresAt > readAt))
                 || (w.freezeEnabled && !w.freezeFailOpen && w.maxStaleness > 0 && now - readAt > w.maxStaleness)
    ensures !Protocol.Blocked(w, None, jobID, now)
  {
    var recs := ClassifyAll(listed, readAt);
    if r :| r in listed && r.jobID == jobID && (r.issue != "" || r.expiresAt == 0 || r.expiresAt > readAt) {
      var i :| 0 <= i < |listed| && listed[i] == r;
      assert recs[i] in recs && recs[i].jobID == jobID && recs[i].state.InForce();
    }
    if jobID in HeldJobs(recs) {
      var r :| r in recs && r.state.InForce() && r.jobID == jobID;
      var i :| 0 <= i < |recs| && recs[i] == r;
      assert listed[i] in listed;
    }
  }

  /** A record of another job changes nothing. */
  lemma OtherJobsDoNotBlock(w: Protocol.World, listed: seq<FreezeRecord>, other: FreezeRecord, readAt: int, jobID: string, now: int)
    requires other.jobID != jobID
    ensures Protocol.Blocked(w, Some(Protocol.View(readAt, HeldJobs(ClassifyAll(listed + [other], readAt)))), jobID, now)
            <==> Protocol.Blocked(w, Some(Protocol.View(readAt, HeldJobs(ClassifyAll(listed, readAt)))), jobID, now)
  {
    BlockedExactly(w, listed + [other], readAt, jobID, now);
    BlockedExactly(w, listed, readAt, jobID, now);
    hide Protocol.Blocked;
    hide HeldJobs;
  }

  datatype FreezeResult = Rejected | Failed | Frozen(rec: FreezeRecord)

  class FreezeView {
    const enabled: bool
    const failOpen: bool
    const maxStaleness: int
    var records: seq<FreezeRecord>
    var byJob: map<string, FreezeRecord>
    var lastRead: int
    var readOK: bool
    var heldSince: map<string, int>
    var accrued: map<string, int>

    /** What is cached is consistent: the map of held jobs is what the records say. */
    ghost predicate Valid()
      reads this
    {
      byJob.Keys == HeldJobs(records) && (!readOK ==> records == [])
      && forall j :: j in byJob ==> byJob[j].jobID == j && byJob[j].state.InForce() && byJob[j] in records
    }

    function AsView(): Option<Protocol.View>
      reads this
    {
      if readOK then Some(Protocol.View(lastRead, byJob.Keys)) else None
    }

    function Clock(): Clock
      reads this
    {
      GraceClock.Clock(heldSince, accrued)
    }

    constructor (enabled: bool, failOpen: bool, maxStaleness: int)
      ensures Valid() && AsView().None? && Clock() == GraceClock.Clock(map[], map[])
      ensures this.enabled == enabled && this.failOpen == failOpen && this.maxStaleness == maxStaleness
    {
      this.enabled, this.failOpen, this.maxStaleness := enabled, failOpen, maxStaleness;
      records, byJob, lastRead, readOK := [], map[], 0, false;
      heldSince, accrued := map[], map[];
    }

    /** Takes in what a read of the store returned. A failed read leaves everything as it was: no record
        is dropped, the view only grows older. */
    method Refresh(listed: Option<seq<FreezeRecord>>, now: int)
      requires Valid()
      modifies this
      ensures Valid()
      ensures listed.None? ==> records == old(records) && AsView() == old(AsView()) && Clock() == old(Clock())
      ensures listed.Some? ==>
                records == ClassifyAll(listed.value, now)
                && AsView() == Some(Protocol.View(now, HeldJobs(ClassifyAll(listed.value, now))))
                && Clock() == AfterRead(old(Clock()), HeldJobs(ClassifyAll(listed.value, now)), now)
    {
      if listed.None? {
        return;
      }
      var recs, held := Classify(listed.value, now);
      var next := Accrue(Clock(), held.Keys, now);
      heldSince, accrued := next.heldSince, next.accrued;
      records, byJob, lastRead, readOK := recs, held, now, true;
    }

    /** Classifies the records against the clock and collects those in force. */
    method Classify(listed: seq<FreezeRecord>, now: int) returns (recs: seq<FreezeRecord>, held: map<string, FreezeRecord>)
      ensures recs == ClassifyAll(listed, now) && held.Keys == HeldJobs(recs)
      ensures forall j :: j in held ==> held[j].jobID == j && held[j].state.InForce() && held[j] in recs
    {
      hide HeldJobs;
      hide Classified;
      recs, held := [], map[];
      NoneHeld();
      for i := 0 to |listed|
        invariant |recs| == i && recs == ClassifyAll(listed[..i], now)
        invariant held.Keys == HeldJobs(recs)
        invariant forall j :: j in held ==> held[j].jobID == j && held[j].state.InForce() && held[j] in recs
      {
        var r := Classified(listed[i], now);
        OneMoreHeld(recs, r);
        recs := recs + [r];
        if r.state.InForce() {
          held := held[r.jobID := r];
        }
      }
      assert listed[..|listed|] == listed;
    }

    /** Whether a write to the job must be withheld: a record of this very job has not expired, or the view is
        too old where that counts. A store that was never read withholds nothing. */
    method Blocks(jobID: string, now: int, ghost w: Protocol.World) returns (blocked: bool)
      requires Valid() && Configured(w)
      ensures blocked == Protocol.Blocked(w, AsView(), jobID, now)
      ensures blocked <==> readOK
                           && ((exists r :: r in records && r.jobID == jobID && r.state != Expired)
                               || (enabled && !failOpen && maxStaleness > 0 && now - lastRead > maxStaleness))
    {
      if jobID in byJob {
        return true;
      }
      if !enabled || failOpen || !readOK {
        return false;
      }
      if maxStaleness > 0 {
        var age := now - lastRead;
        if age > maxStaleness {
          return true;
        }
      }
      return false;
    }

    ghost predicate Configured(w: Protocol.World) {
      w.freezeEnabled == enabled && w.freezeFailOpen == failOpen && w.maxStaleness == maxStaleness
    }

    method GraceOffset(jobID: string, now: int) returns (offset: int)
      ensures offset == Offset(Clock(), jobID, now)
    {
      offset := if jobID in accrued then accrued[jobID] else 0;
      if jobID in heldSince {
        offset := offset + (now - heldSince[jobID]);
      }
    }

    method ClearAccrual(jobID: string)
      requires Valid()
      modifies `accrued
      ensures Valid() && Clock() == AfterClear(old(Clock()), jobID)
    {
      accrued := accrued - {jobID};
    }

    /** The modify index of the first record that names the job. */
    method TokenOf(jobID: string) returns (token: nat)
      ensures token == TokenFor(records, jobID)
    {
      for i := 0 to |records|
        invariant TokenFor(records, jobID) == TokenFor(records[i..], jobID)
      {
        if records[i].jobID == jobID {
          return records[i].modifyIndex;
        }
      }
      return 0;
    }

    /** Freezes a job, or replaces its freeze: at most two writes, the second only after the first lost a
        race and the records were read again, each enforcing the index of the record last read for the
        job; nothing is deleted. Whatever other clients do meanwhile, a write that lands either creates
        the record or replaces the very version that was last read for this job. */
    method FreezeJob(store: VariableStore, prefix: string, parse: string -> Option<int>, jobID: string, reason: string,
                     frozenBy: string, expires: string, now: int)
        returns (r: FreezeResult, ghost puts: seq<Ask>, ghost reread: seq<Ask>)
      requires Valid() && store.Valid() && Backed(records, store.ever)
      modifies this, store
      ensures Valid() && store.Valid() && Backed(records, store.ever)
      ensures store.asks == old(store.asks) + puts + reread && records == RecordsAfter(old(records), puts + reread, now)
      ensures FreezeTalk(puts, reread, RequestOf(prefix, parse, jobID, reason, frozenBy, expires), jobID, old(records), parse, now, r)
      ensures forall i :: 0 <= i < |puts| ==> !Clobbers(puts, i, jobID, old(records), now)
    {
      hide *;
      RequestMeans(prefix, parse, jobID, reason, frozenBy, expires);
      puts, reread := [], [];
      NothingSaid(jobID, records, parse, now);
      if TrimSpace(jobID) == "" || TrimSpace(reason) == "" || (expires != "" && parse(expires).None?) {
        return Rejected, puts, reread;
      }
      var request := RequestFor(prefix, jobID, reason, frozenBy, expires);
      if !request.Request? {
        return Failed, puts, reread;
      }
      var put;
      put, puts := PutFreeze(store, parse, request.v, jobID, now);
      assert puts + [] == puts;
      if !put.Stored? {
        FreezeFails(puts, put, request.v, jobID, old(records), parse, now);
        return Failed, puts, reread;
      }
      ghost var ever := store.ever;
      var listed := store.List(parse);
      StillBacked(store, ever);
      Reread(listed, now, store);
      reread := [ListAsk(listed)];
      RecordsAfterMore(old(records), puts, ListAsk(listed), now);
      FreezeLands(puts, ListAsk(listed), put, request.v, jobID, old(records), parse, now);
      return Frozen(Classified(RecordFromVariable(parse, put.v), now)), puts, reread;
    }

    /** Takes in a read of the store. */
    method Reread(listed: Option<seq<FreezeRecord>>, now: int, ghost store: VariableStore)
      requires Valid() && Backed(records, store.ever) && (listed.Some? ==> Backed(listed.value, store.ever))
      modifies this
      ensures Valid() && Backed(records, store.ever)
      ensures records == (if listed.Some? then ClassifyAll(listed.value, now) else old(records))
      ensures listed.None? ==> AsView() == old(AsView()) && Clock() == old(Clock())
      ensures listed.Some? ==> Clock() == AfterRead(old(Clock()), HeldJobs(records), now)
      ensures listed.Some? ==> AsView() == Some(Protocol.View(now, HeldJobs(records)))
    {
      hide Backed;
      if listed.Some? {
        ClassifiedBacked(listed.value, now, store.ever);
      }
      Refresh(listed, now);
    }

    /** The check-and-set writes of a freeze. */
    method PutFreeze(store: VariableStore, parse: string -> Option<int>, v: Variable, jobID: string, now: int)
        returns (put: PutResult, ghost talk: seq<Ask>)
      requires Valid() && store.Valid() && Backed(records, store.ever)
      modifies this, store
      ensures Valid() && store.Valid() && Backed(records, store.ever)
      ensures store.asks == old(store.asks) + talk && records == RecordsAfter(old(records), talk, now)
      ensures PutTalk(talk, v, jobID, old(records), now) && put == talk[|talk| - 1].answer
      ensures forall i :: 0 <= i < |talk| ==> !Clobbers(talk, i, jobID, old(records), now)
    {
      hide *;
      NothingSaid(jobID, records, parse, now);
      var token := TokenOf(jobID);
      ghost var a;
      ghost var ever := store.ever;
      put, a := store.CheckedPut(v, token);
      StillBacked(store, ever);
      NoClobber(store, [], a, v, jobID, records, records, now);
      FirstPut(a, v, jobID, records, now);
      talk := [a];
      if put.Conflict? {
        ever := store.ever;
        var listed := store.List(parse);
        StillBacked(store, ever);
        Reread(listed, now, store);
        RecordsAfterMore(old(records), [a], ListAsk(listed), now);
        token := TokenOf(jobID);
        ghost var b;
        ever := store.ever;
        put, b := store.CheckedPut(v, token);
        StillBacked(store, ever);
        NoClobber(store, [a] + [ListAsk(listed)], b, v, jobID, old(records), records, now);
        SecondPut(a, ListAsk(listed), b, v, jobID, old(records), now);
        talk := [a] + [ListAsk(listed)] + [b];
      }
    }

    lemma StillBacked(store: VariableStore, ever: set<Variable>)
      requires Backed(records, ever) && ever <= store.ever
      ensures Backed(records, store.ever)
    {
      BackedLater(records, ever, store.ever);
    }

    /** Deletes the records that have been expired for the retention period, 0 turns this off: these and
        no others, one after the other. The frozen time of a job whose record goes is forgotten. */
    method PurgeExpired(store: VariableStore, prefix: string, parse: string -> Option<int>, retention: int, now: int)
        returns (purged: set<string>, ghost deletes: seq<Ask>, ghost reread: seq<Ask>)
      requires Valid() && store.Valid() && Backed(records, store.ever)
      modifies this, store
      ensures Valid() && store.Valid() && Backed(records, store.ever)
      ensures store.asks == old(store.asks) + deletes + reread
      ensures Deletes(deletes, OverdueOf(old(records), retention, now), prefix)
      ensures purged == Purged(deletes, OverdueOf(old(records), retention, now))
      ensures if purged == {} then reread == [] else |reread| == 1 && reread[0].ListAsk?
      ensures records == RecordsAfter(old(records), reread, now)
      ensures purged == {} ==> AsView() == old(AsView()) && Clock() == old(Clock())
      ensures var cleared := GraceClock.Clock(old(heldSince), old(accrued) - purged);
              purged != {} ==> Clock() == if reread[0].listed.None? then cleared else AfterRead(cleared, HeldJobs(records), now)
    {
      hide *;
      deletes, reread, purged := [], [], {};
      ghost var due := OverdueOf(records, retention, now);
      NothingDue(records, retention, now, prefix);
      NothingSaid("", records, parse, now);
      if retention <= 0 {
        KeepsClock(purged);
        return;
      }
      ghost var ever := store.ever;
      purged, deletes := DeleteOverdue(store, prefix, retention, now);
      StillBacked(store, ever);
      if purged != {} {
        ever := store.ever;
        var listed := store.List(parse);
        StillBacked(store, ever);
        Reread(listed, now, store);
        reread := [ListAsk(listed)];
        RecordsAfterMore(old(records), [], ListAsk(listed), now);
        assert [] + reread == reread;
      }
    }

    lemma KeepsClock(purged: set<string>)
      requires purged == {}
      ensures GraceClock.Clock(heldSince, accrued - purged) == Clock()
    {
      assert accrued - {} == accrued;
    }

    /** The deletes of a purge. */
    method DeleteOverdue(store: VariableStore, prefix: string, retention: int, now: int)
        returns (purged: set<string>, ghost deletes: seq<Ask>)
      requires Valid() && store.Valid() && retention > 0
      modifies `accrued, store
      ensures Valid() && store.Valid() && old(store.ever) <= store.ever
      ensures store.asks == old(store.asks) + deletes
      ensures Deletes(deletes, OverdueOf(records, retention, now), prefix)
      ensures purged == Purged(deletes, OverdueOf(records, retention, now))
      ensures Clock() == GraceClock.Clock(old(heldSince), old(accrued) - purged) && AsView() == old(AsView())
      ensures purged == {} ==> Clock() == old(Clock())
    {
      hide PathFor;
      hide HeldJobs;
      hide Purged;
      hide Deletes;
      deletes, purged := [], {};
      NothingDue([], retention, now, prefix);
      KeepsClock(purged);
      for i := 0 to |records|
        invariant Valid() && store.Valid() && old(store.ever) <= store.ever
        invariant accrued == old(accrued) - purged
        invariant store.asks == old(store.asks) + deletes
        invariant Deletes(deletes, OverdueOf(records[..i], retention, now), prefix)
        invariant purged == Purged(deletes, OverdueOf(records[..i], retention, now))
      {
        var r := records[i];
        OverdueMore(records, i, retention, now);
        if !r.state.Expired? || r.expiresAt == 0 {
          continue;
        }
        if now - r.expiresAt < retention {
          continue;
        }
        var ok := store.Delete(PathFor(prefix, r.jobID));
        PurgedMore(deletes, OverdueOf(records[..i], retention, now), r, DeleteAsk(PathFor(prefix, r.jobID), ok), prefix);
        deletes := deletes + [DeleteAsk(PathFor(prefix, r.jobID), ok)];
        if !ok {
          continue;
        }
        ClearAccrual(r.jobID);
        purged := purged + {r.jobID};
      }
      assert records[..|records|] == records;
    }

    /** Removes a job's freeze, and with it the frozen time the job has accrued: the record at the job's
        own path is deleted, and no other is touched. */
    method ThawJob(store: VariableStore, prefix: string, parse: string -> Option<int>, jobID: string, now: int)
        returns (ok: bool, ghost reread: seq<Ask>)
      requires Valid() && store.Valid() && Backed(records, store.ever)
      modifies this, store
      ensures Valid() && store.Valid() && Backed(records, store.ever)
      ensures store.asks == old(store.asks) + [DeleteAsk(PathFor(prefix, jobID), ok)] + reread
      ensures if ok then |reread| == 1 && reread[0].ListAsk? else reread == []
      ensures records == RecordsAfter(old(records), reread, now)
      ensures !ok ==> AsView() == old(AsView()) && Clock() == old(Clock())
      ensures ok ==> Clock() == if reread[0].listed.None? then AfterClear(old(Clock()), jobID)
                                else AfterRead(AfterClear(old(Clock()), jobID), HeldJobs(records), now)
    {
      hide *;
      reread := [];
      ghost var ever := store.ever;
      NothingSaid(jobID, records, parse, now);
      ok := store.Delete(PathFor(prefix, jobID));
      StillBacked(store, ever);
      if ok {
        ClearAccrual(jobID);
        ever := store.ever;
        var listed := store.List(parse);
        StillBacked(store, ever);
        Reread(listed, now, store);
        reread := [ListAsk(listed)];
        RecordsAfterMore(old(records), [], ListAsk(listed), now);
        assert [] + reread == reread;
      }
    }
  }

  // ---- What a freeze says to the store ----

  datatype FreezeRequest = BadRequest | Unaddressable | Wanted(v: Variable)

  /** What is asked of the store, if anything. */
  function RequestOf(prefix: string, parse: string -> Option<int>, jobID: string, reason: string, frozenBy: string,
                     expires: string): FreezeRequest {
    if TrimSpace(jobID) == "" || TrimSpace(reason) == "" || (expires != "" && parse(expires).None?) then BadRequest
    else
      var request := RequestFor(prefix, jobID, reason, frozenBy, expires);
      if request.Request? then Wanted(request.v) else Unaddressable
  }

  /** The writes of a freeze: one, or two with a read of the records between them. */
  ghost predicate PutTalk(talk: seq<Ask>, v: Variable, jobID: string, records: seq<FreezeRecord>, now: int) {
    talk != [] && PutBy(talk[0], v, TokenFor(records, jobID))
    && if !talk[0].answer.Conflict? then |talk| == 1
       else |talk| == 3 && talk[1].ListAsk? && PutBy(talk[2], v, TokenFor(RecordsAfter(records, talk[..2], now), jobID))
  }

  /** All that a freeze says, and how it ends. */
  ghost predicate FreezeTalk(puts: seq<Ask>, reread: seq<Ask>, request: FreezeRequest, jobID: string, records: seq<FreezeRecord>,
                       parse: string -> Option<int>, now: int, r: FreezeResult) {
    match request
    case BadRequest => puts == reread == [] && r.Rejected?
    case Unaddressable => puts == reread == [] && r.Failed?
    case Wanted(v) =>
      PutTalk(puts, v, jobID, records, now)
      && (var put := puts[|puts| - 1].answer;
          if put.Stored? then |reread| == 1 && reread[0].ListAsk? && r == Frozen(Classified(RecordFromVariable(parse, put.v), now))
          else reread == [] && r.Failed?)
  }

  /** The request overwrites or removes something else than the version last read for the job. */
  ghost predicate Clobbers(talk: seq<Ask>, i: nat, jobID: string, records: seq<FreezeRecord>, now: int)
    requires i < |talk|
  {
    talk[i].DeleteAsk?
    || (talk[i].PutAsk? && talk[i].landed && talk[i].prior.Some?
        && !(JobNamed(talk[i].prior.value) == jobID
             && exists r :: r in RecordsAfter(records, talk[..i], now) && ReadFrom(r, talk[i].prior.value)))
  }
  lemma RequestMeans(prefix: string, parse: string -> Option<int>, jobID: string, reason: string, frozenBy: string, expires: string)
    ensures var request := RequestOf(prefix, parse, jobID, reason, frozenBy, expires);
            var asked := RequestFor(prefix, jobID, reason, frozenBy, expires);
            if TrimSpace(jobID) == "" || TrimSpace(reason) == "" || (expires != "" && parse(expires).None?) then request.BadRequest?
            else if asked.Request? then request == Wanted(asked.v)
            else request.Unaddressable?
  {
    hide TrimSpace;
    hide RequestFor;
  }

  lemma NothingSaid(jobID: string, records: seq<FreezeRecord>, parse: string -> Option<int>, now: int)
    ensures RecordsAfter(records, [], now) == RecordsAfter(records, [] + [], now) == records
    ensures FreezeTalk([], [], BadRequest, jobID, records, parse, now, Rejected)
    ensures FreezeTalk([], [], Unaddressable, jobID, records, parse, now, Failed)
  {
    var none: seq<Ask> := [];
    assert none + none == none;
  }

  lemma FreezeFails(puts: seq<Ask>, put: PutResult, v: Variable, jobID: string, records: seq<FreezeRecord>,
                    parse: string -> Option<int>, now: int)
    requires PutTalk(puts, v, jobID, records, now) && put == puts[|puts| - 1].answer && !put.Stored?
    ensures FreezeTalk(puts, [], Wanted(v), jobID, records, parse, now, Failed)
  {
    hide PutTalk;
  }

  lemma FreezeLands(puts: seq<Ask>, listing: Ask, put: PutResult, v: Variable, jobID: string, records: seq<FreezeRecord>,
                   parse: string -> Option<int>, now: int)
    requires PutTalk(puts, v, jobID, records, now) && put == puts[|puts| - 1].answer && put.Stored? && listing.ListAsk?
    ensures FreezeTalk(puts, [listing], Wanted(v), jobID, records, parse, now,
                       Frozen(Classified(RecordFromVariable(parse, put.v), now)))
  {
    hide PutTalk;
    hide RecordFromVariable;
  }

  /** A matching index stands for the version that was read: the write replaces that or nothing. */
  lemma NoClobber(store: VariableStore, before: seq<Ask>, a: Ask, v: Variable, jobID: string, first: seq<FreezeRecord>,
                  records: seq<FreezeRecord>, now: int)
    requires store.Valid() && Backed(records, store.ever) && records == RecordsAfter(first, before, now)
    requires PutBy(a, v, TokenFor(records, jobID)) && (a.prior.Some? ==> a.prior.value in store.ever)
    ensures !Clobbers(before + [a], |before|, jobID, first, now)
  {
    assert (before + [a])[..|before|] == before && (before + [a])[|before|] == a;
    if a.landed && a.prior.Some? {
      TokenIsRead(records, jobID);
      var r :| r in records && r.jobID == jobID && r.modifyIndex == TokenFor(records, jobID);
      var u :| u in store.ever && ReadFrom(r, u);
      assert u == a.prior.value;
    }
  }

  lemma FirstPut(a: Ask, v: Variable, jobID: string, records: seq<FreezeRecord>, now: int)
    requires PutBy(a, v, TokenFor(records, jobID)) && !Clobbers([] + [a], 0, jobID, records, now)
    ensures RecordsAfter(records, [a], now) == records && [] + [a] == [a]
    ensures !a.answer.Conflict? ==> PutTalk([a], v, jobID, records, now)
    ensures forall i :: 0 <= i < |[a]| ==> !Clobbers([a], i, jobID, records, now)
  {
    RecordsAfterMore(records, [], a, now);
    assert [] + [a] == [a];
  }

  lemma SecondPut(a: Ask, listing: Ask, b: Ask, v: Variable, jobID: string, records: seq<FreezeRecord>, now: int)
    requires PutBy(a, v, TokenFor(records, jobID)) && a.answer.Conflict? && listing.ListAsk?
    requires PutBy(b, v, TokenFor(RecordsAfter(records, [a] + [listing], now), jobID))
    requires !Clobbers([a], 0, jobID, records, now) && !Clobbers([a] + [listing] + [b], 2, jobID, records, now)
    ensures var talk := [a] + [listing] + [b];
            PutTalk(talk, v, jobID, records, now) && b == talk[|talk| - 1]
            && RecordsAfter(records, talk, now) == RecordsAfter(records, [a] + [listing], now)
            && forall i :: 0 <= i < |talk| ==> !Clobbers(talk, i, jobID, records, now)
  {
    var talk := [a] + [listing] + [b];
    RecordsAfterMore(records, [a] + [listing], b, now);
    assert talk[..2] == [a] + [listing] && talk[..0] == [a][..0];
    forall i | 0 <= i < |talk| ensures !Clobbers(talk, i, jobID, records, now) {
      if i == 0 {
        assert talk[0] == [a][0];
      }
    }
  }

  // ---- What a purge removes ----

  predicate Overdue(r: FreezeRecord, retention: int, now: int) {
    retention > 0 && r.state.Expired? && r.expiresAt != 0 && now - r.expiresAt >= retention
  }

  function OverdueOf(records: seq<FreezeRecord>, retention: int, now: int): seq<FreezeRecord> {
    if records == [] then []
    else
      var r := records[|records| - 1];
      OverdueOf(records[..|records| - 1], retention, now) + if Overdue(r, retention, now) then [r] else []
  }

  lemma {:induction false} NothingDue(records: seq<FreezeRecord>, retention: int, now: int, prefix: string)
    ensures retention <= 0 || records == [] ==> OverdueOf(records, retention, now) == []
    ensures Deletes([], [], prefix) && Purged([], []) == {}
  {
    if retention <= 0 && records != [] {
      NothingDue(records[..|records| - 1], retention, now, prefix);
    }
  }

  lemma OverdueMore(records: seq<FreezeRecord>, i: nat, retention: int, now: int)
    requires i < |records|
    ensures OverdueOf(records[..i + 1], retention, now)
            == if Overdue(records[i], retention, now) then OverdueOf(records[..i], retention, now) + [records[i]]
               else OverdueOf(records[..i], retention, now)
  {
    assert records[..i + 1][..i] == records[..i];
  }

  lemma {:induction false} InOverdue(records: seq<FreezeRecord>, retention: int, now: int, r: FreezeRecord)
    ensures r in OverdueOf(records, retention, now) <==> r in records && Overdue(r, retention, now)
  {
    if records != [] {
      InOverdue(records[..|records| - 1], retention, now, r);
      assert records == records[..|records| - 1] + [records[|records| - 1]];
    }
  }

  /** A purge is due exactly for well-formed records with an expiry that had passed when they were read and has
      passed for the retention period now: never for a freeze in force. */
  lemma DueExactly(listed: seq<FreezeRecord>, readAt: int, retention: int, now: int, r: FreezeRecord)
    ensures r in OverdueOf(ClassifyAll(listed, readAt), retention, now)
            <==> retention > 0
                 && exists i :: 0 <= i < |listed| && r == listed[i].(state := Expired) && r.issue == "" && r.expiresAt != 0
                                && r.expiresAt <= readAt && r.expiresAt + retention <= now
  {
    var records := ClassifyAll(listed, readAt);
    InOverdue(records, retention, now, r);
    if r in records {
      var i :| 0 <= i < |records| && records[i] == r;
      assert r == Classified(listed[i], readAt);
    }
    if i :| 0 <= i < |listed| && r == listed[i].(state := Expired) && r.issue == "" && r.expiresAt != 0 && r.expiresAt <= readAt {
      assert records[i] == r;
    }
  }

  /** One delete for each record that is due, at its job's path. */
  ghost predicate Deletes(deletes: seq<Ask>, due: seq<FreezeRecord>, prefix: string) {
    |deletes| == |due|
    && forall i :: 0 <= i < |deletes| ==> deletes[i].DeleteAsk? && deletes[i].path == PathFor(prefix, due[i].jobID)
  }

  /** The jobs whose delete was confirmed. */
  function Purged(deletes: seq<Ask>, due: seq<FreezeRecord>): set<string> {
    set i | 0 <= i < |deletes| && i < |due| && deletes[i].DeleteAsk? && deletes[i].ok :: due[i].jobID
  }

  lemma PurgedMore(deletes: seq<Ask>, due: seq<FreezeRecord>, r: FreezeRecord, a: Ask, prefix: string)
    requires Deletes(deletes, due, prefix) && a.DeleteAsk? && a.path == PathFor(prefix, r.jobID)
    ensures Deletes(deletes + [a], due + [r], prefix)
    ensures Purged(deletes + [a], due + [r]) == Purged(deletes, due) + if a.ok then {r.jobID} else {}
  {
    var more, all := deletes + [a], due + [r];
    assert forall i :: 0 <= i < |deletes| ==> more[i] == deletes[i] && all[i] == due[i];
    forall j | j in Purged(deletes, due) + (if a.ok then {r.jobID} else {}) ensures j in Purged(more, all) {
      if j in Purged(deletes, due) {
        var i :| 0 <= i < |deletes| && i < |due| && deletes[i].DeleteAsk? && deletes[i].ok && due[i].jobID == j;
        assert more[i].ok && all[i].jobID == j;
      } else {
        assert more[|deletes|].ok && all[|deletes|].jobID == j;
      }
    }
  }

}
